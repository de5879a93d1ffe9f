# Course-evaluation API core, modelled in Dafny

The system is an Express API over a Prisma database. Students submit evaluations of
the courses they took: five scores from 1 to 5 and a comment. Staff read statistics
per instructor and per seminar. This project models the parts of the API that
compute or decide something on their own, without a database or a network:

- **Statistics** (`src/models/evaluacionModel.js`, module `EvaluacionModel`):
  - the per-instructor entries of `getEstadisticas`: evaluation count, mean score and joined seminar label;
  - the removal of instructors without evaluations;
  - the grouping loop of `getPromediosPorSeminario` and its per-seminar means;
  - the overall mean of the seminar means;
  - the rows `crearEvaluacion` writes.

  Query results are inputs. A mean is an exact rational rounded to whole hundredths,
  so 4.25 is the integer 425.
- **Validation** (`src/middlewares/validation.js`, module `Validation`): the checks of
  `validateEvaluacion`, in order, with their messages, and `validateId`. Module
  `JsValues` holds the JavaScript semantics they rely on: truthiness, `String(v)`,
  `trim`, `parseInt` and UTF-16 `length`.
- **Error handler** (`src/middlewares/errorHandler.js`, module `ErrorHandler`): the map
  from a thrown error and `NODE_ENV` to an HTTP status and a JSON body.
- **Rate limiter** (`src/middlewares/rateLimiter.js`, module `RateLimiter`): the class
  `SentimentRateLimiter`.
  - Its `requests` map is a field, and `Check` and `Sweep` change it in place.
  - Each is proved against a function on the old map (`Step`, `Swept`).
  - Lemmas about those functions cover runs of requests: five accepted in a window,
    the sixth refused, accepted again after the window, and sweeps invisible to later
    decisions.

Points where the code behaves in a way a reader might not expect, and which the
model follows:
- An instructor whose evaluations carry no answers gets NaN as mean (JSON `null`).
  The guard counts evaluations but the division counts answers. The model returns
  `None` there.
- The seminar query keeps courses labelled with the empty string as a group of their
  own. Only the per-instructor label drops them as falsy.
- The `Error` schema of the API documentation (src/config/swagger-static.js:297-303)
  lists a `success` flag. The 400 and 500 bodies of the validators and the error
  handler do not carry it. Only the 429 body of the rate limiter does.

## Model

| member | source | states |
|---|---|---|
| JsValues.Truthy | src/middlewares/validation.js:10 | `!v` (also at lines 26, 42 and 80) holds exactly for undefined, null, false, 0 and "" |
| JsValues.TrimStart | src/middlewares/validation.js:26 | trimming the front drops exactly the longest white-space prefix, with the ECMAScript white-space set |
| JsValues.TrimEnd | src/middlewares/validation.js:26 | trimming the back drops exactly the longest white-space suffix |
| JsValues.Trim | src/middlewares/validation.js:26 | `trim()` (also at line 34 and in evaluacionModel.js:58) is never longer than the string and neither starts nor ends with white space |
| JsValues.TrimIsSliceWithinWhiteSpace | src/middlewares/validation.js:26 | the trimmed string is a slice of the original with only white space before and after it |
| JsValues.TrimEmptyIffAllWhiteSpace | src/middlewares/validation.js:26 | `comentarios.trim() === ''` exactly when every character is white space |
| JsValues.TrimIdempotent | src/models/evaluacionModel.js:58 | trimming the already trimmed comment again changes nothing |
| JsValues.Utf16Length | src/middlewares/validation.js:34 | `length` counts UTF-16 code units: between the number of characters and twice that, and exactly the number of characters when none lies outside the Basic Multilingual Plane |
| JsValues.Utf16LengthOfChar | src/middlewares/validation.js:34 | one character counts 1 inside the Basic Multilingual Plane and 2 (a surrogate pair) outside it |
| JsValues.Utf16LengthAppend | src/middlewares/validation.js:34 | the length of a concatenation is the sum of the lengths, so with the case above the length is the characters plus one per astral character |
| JsValues.NatToDecimal | src/middlewares/validation.js:64 | the rendering of a position is non-empty decimal digits without a leading zero that denote it |
| JsValues.ToStr | src/middlewares/validation.js:59 | `String(v)`, which `parseInt` applies first: a string is itself, an integer renders as a numeral `parseInt` reads back, and only "" and arrays render as the empty string |
| JsValues.ParseIntReadsSignedDigits | src/middlewares/validation.js:18 | `parseInt(s)` skips leading white space and one sign, reads hexadecimal digits after "0x"/"0X" and decimal digits otherwise; no digit there gives NaN, else the digits' value, negated after "-" |
| JsValues.ParseValue | src/middlewares/validation.js:59 | only numbers, strings and arrays can give a number: undefined, null, booleans and objects give NaN |
| JsValues.LeadingDigits | src/middlewares/validation.js:18 | `parseInt` reads the longest prefix of digits of the radix, stopping at the first non-digit |
| JsValues.ParseIntDecimal | src/middlewares/validation.js:18 | `parseInt` reads back the decimal rendering of every integer, negative ones included |
| JsValues.ParseIntNoDigit | src/middlewares/validation.js:59 | a string starting with neither white space, a sign nor a digit gives NaN |
| JsValues.ParseValueIsParseIntOfString | src/middlewares/validation.js:59 | `parseInt(v)` of any value is `parseInt(String(v))`: undefined, null, booleans and objects give NaN; numbers give themselves |
| Validation.Message | src/middlewares/validation.js:10-67 | each failure has a non-empty message; a failing answer's message starts "La respuesta " |
| Validation.AnswerMessageNamesPosition | src/middlewares/validation.js:64 | after "La respuesta " the message holds the 1-based position of the failing answer, which `parseInt` reads back |
| Validation.LastCharOfMessage | src/middlewares/validation.js:10-67 | only the answer messages end in "5" (from "entre 1 y 5") |
| Validation.MessagesDistinct | src/middlewares/validation.js:10-67 | different failures, and different answer positions, get different messages |
| Validation.ParseAll | src/middlewares/validation.js:58-59 | the answers are parsed one by one, position by position |
| Validation.FirstBadScore | src/middlewares/validation.js:58-67 | reports no position iff every parsed answer is in 1..5; otherwise it reports the first one that is not, 1-based |
| Validation.CheckEvaluacion | src/middlewares/validation.js:10-67 | the failure the cascade reports really fails for the body |
| Validation.ReportsFirstFailure | src/middlewares/validation.js:10-67 | every check before the reported one passes, so the checks run in source order and the first failure wins |
| Validation.ReportsNothingIffAllPass | src/middlewares/validation.js:10-70 | nothing is reported iff no check fails |
| Validation.ValidateEvaluacion | src/middlewares/validation.js:6-71 | answers 400 "Error de validación" with the message of the reported failure iff a check fails, else calls `next()` |
| Validation.ValidateEvaluacionAccepts | src/middlewares/validation.js:6-71 | the request passes iff cursoId is truthy and parses, the trimmed comment string has at least 10 code units, and `respuestas` is an array of exactly five answers, each parsing to 1..5 |
| Validation.WhiteSpaceCommentIsMissing | src/middlewares/validation.js:26-31 | an all-white-space comment gets the "obligatorio" message, not the length one |
| Validation.FalsyCursoIdIsMissing | src/middlewares/validation.js:10-15 | a falsy cursoId gets "El ID del curso es obligatorio" |
| Validation.NumeralScore | src/middlewares/validation.js:58-66 | an answer given as a number or as its decimal numeral is valid iff the number is in 1..5 |
| Validation.ValidateId | src/middlewares/validation.js:76-88 | checks `id` when truthy, else `catedraticoId`; passes iff that value is truthy and parses, else 400 "El ID debe ser un número válido" |
| Validation.ValidateIdOnRouteParam | src/middlewares/validation.js:77-80 | a route parameter string passes iff `parseInt` reads a number from it |
| Validation.ValidateIdAcceptsNumerals | src/middlewares/validation.js:80 | every decimal numeral passes |
| ErrorHandler.HandleError | src/middlewares/errorHandler.js:2-36 | 404 iff code P2025; 400 iff code P2002, or the name is ValidationError and the code is not P2025; the fixed bodies of P2002 and P2025; ValidationError echoes the message; otherwise 500, with "Algo salió mal" in production and the error's own message elsewhere |
| ErrorHandler.CodeBeforeName | src/middlewares/errorHandler.js:6-27 | a Prisma code wins over the ValidationError name |
| ErrorHandler.ProductionHidesInternalMessages | src/middlewares/errorHandler.js:30-35 | in production every unrecognised error gets the same reply, so no internal message leaks |
| RateLimiter.RetryAfterSeconds | src/middlewares/rateLimiter.js:52 | the window in whole seconds, rounded up (60) |
| RateLimiter.Prune | src/middlewares/rateLimiter.js:46-48 | keeps exactly the timestamps less than one window old, each as many times as it is stored (two requests in one millisecond count twice) |
| RateLimiter.OccurrencesIsMultiplicity | src/middlewares/rateLimiter.js:46-48 | the occurrence count used by `Prune`'s contract is the multiset multiplicity, so pruning keeps the multiset of recent timestamps |
| RateLimiter.PruneAppend | src/middlewares/rateLimiter.js:46-48 | `filter` keeps the stored order: pruning distributes over concatenation |
| RateLimiter.Step | src/middlewares/rateLimiter.js:43-74 | refuses iff the client already has five requests in the window: 429 with the fixed body, map unchanged; otherwise records `now` after the pruned list and reports limit 5, remaining 5 minus the stored count (0..4), reset at now + 60000; every stored list keeps 1..5 entries |
| RateLimiter.Swept | src/middlewares/rateLimiter.js:86-96 | after cleanup a key stays iff its pruned list is non-empty, and holds that pruned list |
| RateLimiter.FirstField | src/middlewares/rateLimiter.js:30 | `split(',')[0]` is the longest comma-free prefix |
| RateLimiter.FirstNonEmpty | src/middlewares/rateLimiter.js:27-31 | the first non-empty candidate, or the fallback when all are empty |
| RateLimiter.ClientKey | src/middlewares/rateLimiter.js:26-32 | the first truthy of ip, connection address, socket address and first forwarded-for field, else "unknown"; never empty |
| RateLimiter.SentimentRateLimiter.constructor | src/middlewares/rateLimiter.js:9-12 | starts with no client |
| RateLimiter.SentimentRateLimiter.Check | src/middlewares/rateLimiter.js:37-78 | decision and new map are those of `Step` on the old map; the invariant that every stored list holds 1..5 entries is kept |
| RateLimiter.SentimentRateLimiter.Sweep | src/middlewares/rateLimiter.js:83-98 | the new map is `Swept` of the old one; the list-size invariant is kept |
| RateLimiter.PruneLater | src/middlewares/rateLimiter.js:46-48 | pruning earlier and then later is pruning later |
| RateLimiter.SweepIsInvisible | src/middlewares/rateLimiter.js:83-98 | a request after a sweep is decided as without the sweep |
| RateLimiter.RunFromStored | src/middlewares/rateLimiter.js:43-67 | within one window, the i-th request of a client with p stored requests is accepted iff p + i < 5 |
| RateLimiter.RunWithinWindow | src/middlewares/rateLimiter.js:43-67 | a new client gets its first five requests in a window accepted and the rest refused |
| RateLimiter.AcceptedAfterWindow | src/middlewares/rateLimiter.js:43-74 | once a window has passed since every stored request, the client is accepted with four remaining |
| EvaluacionModel.Round2 | src/models/evaluacionModel.js:129 | `Math.round(x * 100)`: the hundredths nearest num/den, halves up |
| EvaluacionModel.Round2OfHundredths | src/models/evaluacionModel.js:143 | rounding a value already in whole hundredths returns it |
| EvaluacionModel.Mean | src/models/evaluacionModel.js:193-199 | the mean of no scores is 0 |
| EvaluacionModel.MeanIsNearestHundredth | src/models/evaluacionModel.js:193-199 | the mean of some scores in hundredths is the nearest whole number of hundredths to sum/count, a half rounding up |
| EvaluacionModel.MeanOfScores | src/models/evaluacionModel.js:193-199 | scores in 1..5 give a mean in 1.00..5.00 |
| EvaluacionModel.MeanOfConstant | src/models/evaluacionModel.js:193-199 | scores all equal to c give mean exactly c |
| EvaluacionModel.Distinct | src/models/evaluacionModel.js:123 | `[...new Set(xs)]`: no duplicates, the same values as xs, in order of first occurrence |
| EvaluacionModel.TruthyLabels | src/models/evaluacionModel.js:123 | `filter(Boolean)` keeps exactly the non-null, non-empty labels |
| EvaluacionModel.TruthyLabelsOfOne | src/models/evaluacionModel.js:123 | one course contributes its label iff the label is non-null and non-empty |
| EvaluacionModel.TruthyLabelsAppend | src/models/evaluacionModel.js:123 | the labels keep course order: those of a concatenation are the first part's followed by the second's |
| EvaluacionModel.Join | src/models/evaluacionModel.js:127 | `join(', ')`: empty for no labels, the label itself for one, and otherwise starting with the first label and the separator |
| EvaluacionModel.JoinAppend | src/models/evaluacionModel.js:127 | joining two non-empty lists is the join of the first, the separator, then the join of the second; with the one-label case this fixes the whole string, every label in order |
| EvaluacionModel.JoinLength | src/models/evaluacionModel.js:127 | the joined string is as long as the labels plus one separator between each two |
| EvaluacionModel.SeminarioLabel | src/models/evaluacionModel.js:123-127 | the instructor's seminar label is never empty |
| EvaluacionModel.SeminarioLabelCases | src/models/evaluacionModel.js:123-127 | "Sin seminario" when no course has a truthy label; otherwise the distinct labels joined by ", " |
| EvaluacionModel.AllEvaluacionesLength | src/models/evaluacionModel.js:115 | the flattened evaluations are as many as counted course by course |
| EvaluacionModel.AllScoresLength | src/models/evaluacionModel.js:116 | the flattened answers are as many as counted evaluation by evaluation |
| EvaluacionModel.CatedraticoStatOf | src/models/evaluacionModel.js:114-130 | the entry carries the instructor's name and seminar label; without evaluations the mean is 0; NaN only occurs with evaluations |
| EvaluacionModel.CatedraticoStatCounts | src/models/evaluacionModel.js:114-130 | the count is the number of evaluations, not answers; the mean is the rounded mean of all answer scores, NaN when evaluations exist without answers |
| EvaluacionModel.CatedraticoMeanInRange | src/models/evaluacionModel.js:119-129 | with scores in 1..5 and some answer, the instructor mean is in 1.00..5.00 |
| EvaluacionModel.CatedraticosConEstadisticas | src/models/evaluacionModel.js:114-131 | only instructors with at least one evaluation appear, and every such instructor does |
| EvaluacionModel.CatedraticosKeepOrder | src/models/evaluacionModel.js:131 | the filter keeps input order: it distributes over concatenation |
| EvaluacionModel.PushScores | src/models/evaluacionModel.js:184-188 | appends every answer score of every evaluation, in order |
| EvaluacionModel.GroupScores | src/models/evaluacionModel.js:178-189 | key order is the distinct labels in first-occurrence order; each label holds the pooled scores of all its courses, in course order |
| EvaluacionModel.GetPromediosPorSeminario | src/models/evaluacionModel.js:178-203 | the result is `PromediosPorSeminario` of the courses |
| EvaluacionModel.PromediosPorSeminario | src/models/evaluacionModel.js:178-201 | as many entries as distinct seminar labels |
| EvaluacionModel.PromediosPorSeminarioEntries | src/models/evaluacionModel.js:178-201 | no label repeated, every entry's label is a course label and every course label has an entry, in first-appearance order; each the rounded mean of its pooled scores, 0 without answers |
| EvaluacionModel.TwoSeminars | src/models/evaluacionModel.js:178-201 | two differently labelled courses give two entries in course order |
| EvaluacionModel.SameSeminarPools | src/models/evaluacionModel.js:179-188 | courses sharing a label are averaged together over all their answers |
| EvaluacionModel.EmptyLabelOnlyInSeminarList | src/models/evaluacionModel.js:123 | an empty-string label gives "Sin seminario" to the instructor but its own "" entry in the seminar list |
| EvaluacionModel.PromediosInRange | src/models/evaluacionModel.js:192-201 | with scores in 1..5 each seminar mean is 0 or in 1.00..5.00 |
| EvaluacionModel.CalificacionGeneral | src/models/evaluacionModel.js:137-143 | 0 without seminars |
| EvaluacionModel.CalificacionGeneralIsNearestHundredth | src/models/evaluacionModel.js:137-143 | with seminars, the unweighted mean of the seminar means, to the nearest hundredth with halves up |
| EvaluacionModel.AverageOfAverages | src/models/evaluacionModel.js:137-143 | an all-5 seminar and an all-1 seminar give overall 3.00 however many evaluations each has |
| EvaluacionModel.CalificacionGeneralInRange | src/models/evaluacionModel.js:137-143 | seminar means in 1.00..5.00 give an overall mean in 1.00..5.00 |
| EvaluacionModel.OneSeminarOverall | src/models/evaluacionModel.js:137-143 | with one seminar, the overall mean is that seminar's mean |
| EvaluacionModel.WorkedExample | src/models/evaluacionModel.js:113-145 | one instructor, seminar "X", answers [5,5,5,5,5] and [3,3,3,3,3]: instructor 4.00 over 2 evaluations, seminar 4.00, overall 4.00 |
| EvaluacionModel.GetEstadisticas | src/models/evaluacionModel.js:113-145 | the instructor entries, the seminar entries and the overall mean of those entries |
| EvaluacionModel.EvaluacionData | src/models/evaluacionModel.js:56-59 | the row holds `parseInt(String(cursoId))` and the comment trimmed, which trimming again leaves as it is |
| EvaluacionModel.RespuestasData | src/models/evaluacionModel.js:63-67 | one row per answer: answer i goes to question i + 1 of the new evaluation, with `parseInt` of the answer |
| EvaluacionModel.ValidatedBodyRows | src/models/evaluacionModel.js:57-67 | a body `validateEvaluacion` accepted yields a parsed course id, the trimmed comment of at least 10 code units, and five rows for questions 1..5, each scored 1..5 |

## Left out

- Prisma queries, the transaction of `crearEvaluacion` and the errors it rethrows are not modelled. Query results are inputs, and the evaluation id is a parameter.
- Controllers, routes, `app.js`, the Swagger setup, database configuration and the seed script are not part of this model.
- `Date.now()` is a parameter of `Check`. The five-minute `setInterval` is replaced by explicit calls to `Sweep`.
- `getStats` and `process.uptime()` are not modelled.
- `console.error` logging is not modelled.
- Concurrency is not modelled. Each `Check` runs to completion, as on Node's single thread.
- RateLimiter.Step: `X-RateLimit-Reset` is the reset instant in milliseconds, not its ISO-8601 text. The 429 body's constant `success: false` field is not carried in `Decision`.
- Numbers are integers. Fractional scores, NaN and Infinity as input values, and IEEE-754 rounding of `x * 100` are not modelled. Means are exact rationals rounded half up.
- JsValues.ToStr: renders every integer in plain decimal. JavaScript switches to exponent notation from 10^21 on, so there `parseInt(1e21)` is 1. Integers beyond 2^53 are not exact doubles either.
- JsValues.Utf16Length: Dafny characters are Unicode scalar values, so strings holding lone surrogates cannot be represented.
- EvaluacionModel.GetPromediosPorSeminario: requires every seminar label to be a plain object key. A label that is an array index such as "7" would be listed before the others by `Object.entries`. A label such as "constructor" finds an inherited member, so no list is created for it: `push` then fails if such a course has answers, and otherwise the label is silently missing from `Object.entries`.
- EvaluacionModel.RespuestasData and EvaluacionData take an array of answers and a string comment. The source throws a `TypeError` for other shapes, which `validateEvaluacion` rules out beforehand.
- `validateEvaluacion` with no `req.body` at all (destructuring throws) is not modelled. A missing field is `Undefined`.
- The order in which `Sweep` visits keys is not modelled. Its result is a map and does not depend on it.
