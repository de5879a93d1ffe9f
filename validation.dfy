/** The request validators of the evaluation routes: `validateEvaluacion`
    guards POST of a new evaluation, `validateId` guards routes that take an
    instructor id. Each either lets the request through (`next()`) or answers
    400 with the message of the first check that failed. */
module Validation {
  import opened JsValues

  /** The fields `validateEvaluacion` destructures from `req.body`; a field
      the body does not have is `Undefined`. */
  datatype EvaluacionBody = EvaluacionBody(cursoId: JsValue, comentarios: JsValue, respuestas: JsValue)

  /** The route parameters `validateId` reads. */
  datatype IdParams = IdParams(id: JsValue, catedraticoId: JsValue)

  /** One check of `validateEvaluacion`, named by the failure it reports. */
  datatype Failure =
    | CursoIdMissing
    | CursoIdNotANumber
    | ComentariosMissing
    | ComentariosTooShort
    | RespuestasNotArray
    | RespuestasWrongCount
    | RespuestaOutOfRange(position: nat)  // 1-based position of the answer

  datatype ErrorBody = ErrorBody(error: string, message: string)

  /** What a middleware does with a request: pass it on, or answer it. */
  datatype Response = Next | Reply(status: int, body: ErrorBody)

  const ValidationErrorTitle := "Error de validación"
  const ExpectedAnswers := 5

  const AnswerPrefix := "La respuesta "

  const AnswerSuffix := " debe ser un número entre 1 y 5"

  /** The message of each failure; only a failing answer's message starts
      with "La respuesta ". */
  function Message(f: Failure): (r: string)
    ensures r != ""
    ensures f.RespuestaOutOfRange? ==> |r| > |AnswerPrefix| && r[..|AnswerPrefix|] == AnswerPrefix
  {
    match f
    case CursoIdMissing => "El ID del curso es obligatorio"
    case CursoIdNotANumber => "El ID del curso debe ser un número válido"
    case ComentariosMissing => "El campo de comentarios es obligatorio y no puede estar vacío"
    case ComentariosTooShort => "Los comentarios deben tener al menos 10 caracteres"
    case RespuestasNotArray => "Las respuestas deben ser un array"
    case RespuestasWrongCount => "Se requieren exactamente 5 respuestas"
    case RespuestaOutOfRange(k) => AnswerPrefix + NatToDecimal(k) + AnswerSuffix
  }

  /** A failing answer's message names its 1-based position: `parseInt`
      reads it back from the text after "La respuesta ". */
  lemma AnswerMessageNamesPosition(k: nat)
    ensures var m := Message(RespuestaOutOfRange(k));
      |m| > |AnswerPrefix| && ParseInt(m[|AnswerPrefix|..]) == Some(k)
  {
    var m := Message(RespuestaOutOfRange(k));
    assert m[|AnswerPrefix|..] == NatToDecimal(k) + AnswerSuffix;
    ParseNumeralThen(k, AnswerSuffix);
  }

  /** Different failures have different messages, so the reply tells which
      check failed and, for an answer, which one. */
  lemma MessagesDistinct(f: Failure, g: Failure)
    requires Message(f) == Message(g)
    ensures f == g
  {
    if f.RespuestaOutOfRange? && g.RespuestaOutOfRange? {
      AnswerMessageNamesPosition(f.position);
      AnswerMessageNamesPosition(g.position);
    } else if f.RespuestaOutOfRange? || g.RespuestaOutOfRange? {
      LastCharOfMessage(f);
      LastCharOfMessage(g);
    } else {
      assert |Message(f)| == |Message(g)|;
    }
  }

  /** Only the answer messages end in "5" (of "entre 1 y 5"). */
  lemma LastCharOfMessage(f: Failure)
    ensures var m := Message(f); m[|m| - 1] == '5' <==> f.RespuestaOutOfRange?
  {
    if f.RespuestaOutOfRange? {
      assert Message(f) == (AnswerPrefix + NatToDecimal(f.position)) + AnswerSuffix;
    }
  }

  /** The place of a check in the cascade. */
  function Rank(f: Failure): nat {
    match f
    case CursoIdMissing => 0
    case CursoIdNotANumber => 1
    case ComentariosMissing => 2
    case ComentariosTooShort => 3
    case RespuestasNotArray => 4
    case RespuestasWrongCount => 5
    case RespuestaOutOfRange(_) => 6
  }

  /** `g` runs before `f`: an earlier check, or an earlier answer position. */
  predicate Before(g: Failure, f: Failure) {
    || Rank(g) < Rank(f)
    || (g.RespuestaOutOfRange? && f.RespuestaOutOfRange? && g.position < f.position)
  }

  /** A parsed answer that is a number in 1..5 (not NaN, not out of range). */
  predicate InRange(score: Option<int>) {
    score.Some? && 1 <= score.value <= 5
  }

  /** `parseInt(v)` is a number in 1..5. */
  predicate ValidScore(v: JsValue) {
    InRange(ParseValue(v))
  }

  /** Whether the check named `f`, taken on its own, rejects `b`. */
  predicate Fails(f: Failure, b: EvaluacionBody) {
    match f
    case CursoIdMissing => !Truthy(b.cursoId)
    case CursoIdNotANumber => ParseValue(b.cursoId).None?
    case ComentariosMissing =>
      !Truthy(b.comentarios) || !b.comentarios.Str? || Trim(b.comentarios.s) == ""
    case ComentariosTooShort =>
      b.comentarios.Str? && Utf16Length(Trim(b.comentarios.s)) < 10
    case RespuestasNotArray => !Truthy(b.respuestas) || !b.respuestas.Arr?
    case RespuestasWrongCount => b.respuestas.Arr? && |b.respuestas.elems| != ExpectedAnswers
    case RespuestaOutOfRange(k) =>
      b.respuestas.Arr? && 1 <= k <= |b.respuestas.elems| && !ValidScore(b.respuestas.elems[k - 1])
  }

  /** The body `validateEvaluacion` accepts, stated field by field. */
  predicate Acceptable(b: EvaluacionBody) {
    && Truthy(b.cursoId)
    && ParseValue(b.cursoId).Some?
    && b.comentarios.Str?
    && Utf16Length(Trim(b.comentarios.s)) >= 10
    && b.respuestas.Arr?
    && |b.respuestas.elems| == ExpectedAnswers
    && forall i :: 0 <= i < |b.respuestas.elems| ==> ValidScore(b.respuestas.elems[i])
  }

  /** `parseInt` applied to every answer. */
  function ParseAll(rs: seq<JsValue>): (scores: seq<Option<int>>)
    ensures |scores| == |rs|
    ensures forall j :: 0 <= j < |rs| ==> scores[j] == ParseValue(rs[j])
  {
    seq(|rs|, j requires 0 <= j < |rs| => ParseValue(rs[j]))
  }

  /** The scan over the parsed answers: the first position from `i` on
      whose answer is not a score, reported 1-based. */
  function FirstBadScore(scores: seq<Option<int>>, i: nat): (r: Option<Failure>)
    requires i <= |scores|
    ensures r.None? <==> forall j :: i <= j < |scores| ==> InRange(scores[j])
    ensures r.Some? ==>
      && r.value.RespuestaOutOfRange?
      && i < r.value.position <= |scores|
      && !InRange(scores[r.value.position - 1])
      && forall j :: i <= j < r.value.position - 1 ==> InRange(scores[j])
    decreases |scores| - i
  {
    if i == |scores| then None
    else if !InRange(scores[i]) then Some(RespuestaOutOfRange(i + 1))
    else FirstBadScore(scores, i + 1)
  }

  /** The cascade of `validateEvaluacion`: the failure it reports, if any. */
  function CheckEvaluacion(b: EvaluacionBody): (r: Option<Failure>)
    ensures r.Some? ==> Fails(r.value, b)
  {
    if !Truthy(b.cursoId) then Some(CursoIdMissing)
    else if ParseValue(b.cursoId).None? then Some(CursoIdNotANumber)
    else if !Truthy(b.comentarios) || !b.comentarios.Str? || Trim(b.comentarios.s) == "" then Some(ComentariosMissing)
    else if Utf16Length(Trim(b.comentarios.s)) < 10 then Some(ComentariosTooShort)
    else if !Truthy(b.respuestas) || !b.respuestas.Arr? then Some(RespuestasNotArray)
    else if |b.respuestas.elems| != ExpectedAnswers then Some(RespuestasWrongCount)
    else FirstBadScore(ParseAll(b.respuestas.elems), 0)
  }

  /** The checks run in a fixed order and the reported failure is the first
      one that fails: every check before it passes. */
  lemma {:induction false} ReportsFirstFailure(b: EvaluacionBody, g: Failure)
    requires CheckEvaluacion(b).Some? && Before(g, CheckEvaluacion(b).value)
    ensures !Fails(g, b)
  {
    var f := CheckEvaluacion(b).value;
    match g
    case CursoIdMissing =>
    case CursoIdNotANumber =>
    case ComentariosMissing =>
    case ComentariosTooShort =>
    case RespuestasNotArray =>
    case RespuestasWrongCount =>
    case RespuestaOutOfRange(k) =>
      assert f.RespuestaOutOfRange? && b.respuestas.Arr?;
      var scores := ParseAll(b.respuestas.elems);
      if 1 <= k <= |b.respuestas.elems| {
        assert InRange(scores[k - 1]);
      }
  }

  /** Nothing is reported exactly when no check fails. */
  lemma {:induction false} ReportsNothingIffAllPass(b: EvaluacionBody)
    ensures CheckEvaluacion(b).None? <==> forall g :: !Fails(g, b)
  {
    if CheckEvaluacion(b).None? {
      forall g ensures !Fails(g, b) {
        PassesWhenNothingReported(b, g);
      }
    } else {
      assert Fails(CheckEvaluacion(b).value, b);
    }
  }

  lemma PassesWhenNothingReported(b: EvaluacionBody, g: Failure)
    requires CheckEvaluacion(b).None?
    ensures !Fails(g, b)
  {
    match g
    case CursoIdMissing =>
    case CursoIdNotANumber =>
    case ComentariosMissing =>
    case ComentariosTooShort =>
    case RespuestasNotArray =>
    case RespuestasWrongCount =>
    case RespuestaOutOfRange(k) =>
      if 1 <= k <= |b.respuestas.elems| {
        assert InRange(ParseAll(b.respuestas.elems)[k - 1]);
      }
  }

  /** `validateEvaluacion`: pass the request on, or answer 400 with the
      message of the first failing check. */
  function ValidateEvaluacion(b: EvaluacionBody): (r: Response)
    ensures r.Reply? ==> r.status == 400 && r.body.error == ValidationErrorTitle
    ensures r.Reply? <==> CheckEvaluacion(b).Some?
    ensures r.Reply? ==> r.body.message == Message(CheckEvaluacion(b).value)
  {
    match CheckEvaluacion(b)
    case None => Next
    case Some(f) => Reply(400, ErrorBody(ValidationErrorTitle, Message(f)))
  }

  lemma AcceptableHasNoFailure(b: EvaluacionBody)
    requires Acceptable(b)
    ensures CheckEvaluacion(b).None?
  {
    var t := Trim(b.comentarios.s);
    assert t != "" by {
      assert Utf16Length("") == 0;
    }
    assert Truthy(b.comentarios) && Truthy(b.respuestas);
    var scores := ParseAll(b.respuestas.elems);
    assert forall j :: 0 <= j < |scores| ==> InRange(scores[j]);
    assert FirstBadScore(scores, 0).None?;
  }

  lemma UnacceptableFails(b: EvaluacionBody)
    requires !Acceptable(b)
    ensures CheckEvaluacion(b).Some?
  {
    if b.respuestas.Arr? {
      var scores := ParseAll(b.respuestas.elems);
      assert (forall j :: 0 <= j < |scores| ==> InRange(scores[j])) ==>
        forall i :: 0 <= i < |b.respuestas.elems| ==> ValidScore(b.respuestas.elems[i]);
    }
  }

  /** The request passes exactly when the body is acceptable field by field. */
  lemma ValidateEvaluacionAccepts(b: EvaluacionBody)
    ensures ValidateEvaluacion(b) == Next <==> Acceptable(b)
  {
    if Acceptable(b) {
      AcceptableHasNoFailure(b);
    } else {
      UnacceptableFails(b);
    }
  }

  /** A comment made only of white space gets the "obligatorio" message,
      not the length message. */
  lemma WhiteSpaceCommentIsMissing(b: EvaluacionBody)
    requires Truthy(b.cursoId) && ParseValue(b.cursoId).Some?
    requires b.comentarios.Str?
    requires forall i :: 0 <= i < |b.comentarios.s| ==> IsWhiteSpace(b.comentarios.s[i])
    ensures ValidateEvaluacion(b) == Reply(400, ErrorBody(ValidationErrorTitle, Message(ComentariosMissing)))
  {
    TrimEmptyIffAllWhiteSpace(b.comentarios.s);
  }

  /** A falsy `cursoId` (0, "", null, false or missing) gets the
      "obligatorio" message, not the "número válido" one. */
  lemma FalsyCursoIdIsMissing(b: EvaluacionBody)
    requires b.cursoId in {Num(0), Str(""), Null, Bool(false), Undefined}
    ensures ValidateEvaluacion(b) == Reply(400, ErrorBody(ValidationErrorTitle, "El ID del curso es obligatorio"))
  {
  }

  /** An answer given as a number, or as the decimal numeral of one, is a
      valid score exactly when the number lies in 1..5. */
  lemma NumeralScore(n: int)
    ensures ValidScore(Num(n)) <==> 1 <= n <= 5
    ensures ValidScore(Str(IntToDecimal(n))) <==> 1 <= n <= 5
  {
    ParseIntDecimal(n);
  }

  /** `validateId`: check `id` when it is truthy and `catedraticoId`
      otherwise; answer 400 when that value is falsy or does not parse. */
  function ValidateId(p: IdParams): (r: Response)
    ensures r.Reply? ==> r == Reply(400, ErrorBody(ValidationErrorTitle, "El ID debe ser un número válido"))
    ensures r.Next? <==>
      || (Truthy(p.id) && ParseValue(p.id).Some?)
      || (!Truthy(p.id) && Truthy(p.catedraticoId) && ParseValue(p.catedraticoId).Some?)
  {
    var idToValidate := if Truthy(p.id) then p.id else p.catedraticoId;
    if !Truthy(idToValidate) || ParseValue(idToValidate).None? then
      Reply(400, ErrorBody(ValidationErrorTitle, "El ID debe ser un número válido"))
    else
      Next
  }

  /** Route parameters are strings: one passes exactly when `parseInt`
      reads a number from it. */
  lemma {:induction false} ValidateIdOnRouteParam(s: string)
    ensures ValidateId(IdParams(Undefined, Str(s))).Next? <==> ParseInt(s).Some?
  {
    if s == "" {
      assert TrimStart(s) == "";
      assert LeadingDigits("", 10) == "";
      assert ParseInt(s) == None;
    } else {
      assert Truthy(Str(s)) && ParseValue(Str(s)) == ParseInt(s);
    }
  }

  /** Every decimal numeral passes `validateId`. */
  lemma ValidateIdAcceptsNumerals(n: int)
    ensures ValidateId(IdParams(Undefined, Str(IntToDecimal(n)))).Next?
  {
    ParseIntDecimal(n);
  }
}
