/** The computations of the evaluation model once the database queries have
    returned: the per-instructor statistics and the per-seminar means of
    `getEstadisticas` and `getPromediosPorSeminario`, and the rows
    `crearEvaluacion` writes. Query results are input sequences; means are
    exact rationals rounded to whole hundredths, so a mean of 4.25 is the
    integer 425. */
module EvaluacionModel {
  import opened JsValues
  import Validation

  // ---------------------------------------------------------------------
  // Query results and outputs

  /** An evaluation as the statistics queries select it: its answer scores. */
  datatype Evaluacion = Evaluacion(respuestas: seq<int>)

  /** A course of an instructor; its seminar label is nullable. */
  datatype Curso = Curso(seminario: Option<string>, evaluaciones: seq<Evaluacion>)

  datatype Catedratico = Catedratico(nombreCompleto: string, cursos: seq<Curso>)

  /** A course as the seminar query selects it: only courses whose seminar
      label is not null. */
  datatype CursoSeminario = CursoSeminario(seminario: string, evaluaciones: seq<Evaluacion>)

  /** One entry of `catedraticos`; the mean is in hundredths, and `None`
      stands for the NaN (null in JSON) of an instructor whose evaluations
      carry no answers. */
  datatype CatedraticoStat = CatedraticoStat(
    nombreCatedratico: string,
    seminario: string,
    cantidadRespuestas: nat,
    calificacionPromedio: Option<int>)

  /** One entry of `promedios_por_seminario`; the mean is in hundredths. */
  datatype SeminarioStat = SeminarioStat(seminario: string, promedioGeneral: int)

  datatype Estadisticas = Estadisticas(
    catedraticos: seq<CatedraticoStat>,
    calificacionGeneralSeminario: int,
    promediosPorSeminario: seq<SeminarioStat>)

  const SinSeminario := "Sin seminario"

  // ---------------------------------------------------------------------
  // Arithmetic

  /** `Math.round(num / den * 100)`: the whole number of hundredths nearest
      to num / den, a half rounding up. */
  function Round2(num: int, den: int): (h: int)
    requires den > 0
    ensures 2 * den * h <= 200 * num + den < 2 * den * (h + 1)
  {
    (200 * num + den) / (2 * den)
  }

  /** Rounding a value that is already a whole number of hundredths
      returns it unchanged. */
  lemma Round2OfHundredths(h: int)
    ensures Round2(h, 100) == h
  {
    var r := Round2(h, 100);
    assert 200 * r <= 200 * h + 100 < 200 * (r + 1);
  }

  function Sum(s: seq<int>): int {
    if s == [] then 0 else s[0] + Sum(s[1..])
  }

  /** The rounded mean of a list of scores, in hundredths, 0 for an empty
      list (MeanIsNearestHundredth says which value otherwise). */
  function Mean(scores: seq<int>): (h: int)
    ensures scores == [] ==> h == 0
  {
    if |scores| > 0 then Round2(Sum(scores), |scores|) else 0
  }

  /** The mean of some scores is the nearest whole number of hundredths to
      their sum over their count, a half rounding up. */
  lemma MeanIsNearestHundredth(scores: seq<int>)
    requires scores != []
    ensures var n, h := |scores|, Mean(scores); 2 * n * h <= 200 * Sum(scores) + n < 2 * n * (h + 1)
  {
  }

  lemma {:induction false} SumBounds(s: seq<int>, lo: int, hi: int)
    requires forall i :: 0 <= i < |s| ==> lo <= s[i] <= hi
    ensures lo * |s| <= Sum(s) <= hi * |s|
  {
    if s != [] {
      SumBounds(s[1..], lo, hi);
    }
  }

  /** Multiplying by a non-negative factor keeps the order. */
  lemma {:induction false} MulMono(n: int, a: int, b: int)
    requires n >= 0 && a <= b
    ensures n * a <= n * b
  {
    if n > 0 {
      MulMono(n - 1, a, b);
      assert n * a == (n - 1) * a + a;
      assert n * b == (n - 1) * b + b;
    }
  }

  /** A positive factor can be cancelled from a strict inequality. */
  lemma Cancel(n: int, a: int, b: int)
    requires n > 0
    ensures n * a < n * b ==> a < b
  {
    if a >= b {
      MulMono(n, b, a);
    }
  }

  /** Scores in 1..5 have a rounded mean in 1.00..5.00. */
  lemma MeanOfScores(s: seq<int>)
    requires |s| > 0
    requires forall i :: 0 <= i < |s| ==> 1 <= s[i] <= 5
    ensures 100 <= Mean(s) <= 500
  {
    SumBounds(s, 1, 5);
    var d, h := 2 * |s|, Mean(s);
    assert d * h <= 200 * Sum(s) + |s| < d * (h + 1);
    assert d * h < d * 501;
    Cancel(d, h, 501);
    assert d * 100 < d * (h + 1);
    Cancel(d, 100, h + 1);
  }

  lemma {:induction false} SumOfConstant(s: seq<int>, c: int)
    requires forall i :: 0 <= i < |s| ==> s[i] == c
    ensures Sum(s) == c * |s|
  {
    if s != [] {
      SumOfConstant(s[1..], c);
    }
  }

  /** Scores that are all `c` have mean exactly `c`. */
  lemma MeanOfConstant(s: seq<int>, c: int)
    requires |s| > 0
    requires forall i :: 0 <= i < |s| ==> s[i] == c
    ensures Mean(s) == 100 * c
  {
    SumOfConstant(s, c);
    var d, h := 2 * |s|, Mean(s);
    assert d * h <= 200 * (c * |s|) + |s| < d * (h + 1);
    assert 200 * (c * |s|) + |s| == d * (100 * c) + |s|;
    assert d * h < d * (100 * c + 1);
    Cancel(d, h, 100 * c + 1);
    assert d * (100 * c) < d * (h + 1);
    Cancel(d, 100 * c, h + 1);
  }

  // ---------------------------------------------------------------------
  // Distinct values in first-occurrence order (`[...new Set(xs)]`)

  function FirstIndex<T(==)>(xs: seq<T>, x: T): (i: nat)
    requires x in xs
    ensures i < |xs| && xs[i] == x && x !in xs[..i]
  {
    if xs[0] == x then 0 else 1 + FirstIndex(xs[1..], x)
  }

  lemma {:induction false} FirstIndexAppend<T>(xs: seq<T>, x: T, y: T)
    requires y in xs
    ensures FirstIndex(xs + [x], y) == FirstIndex(xs, y)
  {
    if xs[0] != y {
      assert (xs + [x])[1..] == xs[1..] + [x];
      FirstIndexAppend(xs[1..], x, y);
    }
  }

  lemma {:induction false} FirstIndexLast<T>(xs: seq<T>, x: T)
    requires x !in xs
    ensures FirstIndex(xs + [x], x) == |xs|
  {
    if xs != [] {
      assert (xs + [x])[1..] == xs[1..] + [x];
      FirstIndexLast(xs[1..], x);
    }
  }

  predicate NoDuplicates<T(==)>(xs: seq<T>) {
    forall i, j :: 0 <= i < j < |xs| ==> xs[i] != xs[j]
  }

  /** The values of `r` come in the order of their first occurrence in `xs`. */
  predicate InFirstOccurrenceOrder<T(==)>(r: seq<T>, xs: seq<T>) {
    forall i, j :: 0 <= i < j < |r| && r[i] in xs && r[j] in xs ==>
      FirstIndex(xs, r[i]) < FirstIndex(xs, r[j])
  }

  function Distinct<T(==,!new)>(xs: seq<T>): (r: seq<T>)
    ensures NoDuplicates(r)
    ensures forall x :: x in r <==> x in xs
    ensures InFirstOccurrenceOrder(r, xs)
  {
    if xs == [] then []
    else
      var init := xs[..|xs| - 1];
      var x := xs[|xs| - 1];
      var d := Distinct(init);
      assert xs == init + [x];
      DistinctStep(init, x, d);
      if x in d then d else d + [x]
  }

  /** The induction step of Distinct: appending `x` keeps the order of the
      earlier values, and a new `x` comes after all of them. */
  lemma DistinctStep<T>(init: seq<T>, x: T, d: seq<T>)
    requires forall y :: y in d <==> y in init
    requires InFirstOccurrenceOrder(d, init)
    ensures InFirstOccurrenceOrder(d, init + [x])
    ensures x !in init ==> InFirstOccurrenceOrder(d + [x], init + [x])
  {
    forall i | 0 <= i < |d| ensures d[i] in init && FirstIndex(init + [x], d[i]) == FirstIndex(init, d[i]) {
      assert d[i] in d;
      FirstIndexAppend(init, x, d[i]);
    }
    if x !in init {
      FirstIndexLast(init, x);
      var e := d + [x];
      forall i, j | 0 <= i < j < |e| && e[i] in init + [x] && e[j] in init + [x]
        ensures FirstIndex(init + [x], e[i]) < FirstIndex(init + [x], e[j])
      {
        if j < |d| {
          assert e[i] == d[i] && e[j] == d[j];
        }
      }
    }
  }

  /** `xs.join(sep)`: the strings one after the other, `sep` between two
      neighbours. */
  function Join(xs: seq<string>, sep: string): (r: string)
    ensures xs == [] ==> r == ""
    ensures |xs| == 1 ==> r == xs[0]
    ensures xs != [] ==> xs[0] <= r
    ensures |xs| >= 2 ==> xs[0] + sep <= r
  {
    if xs == [] then ""
    else if |xs| == 1 then xs[0]
    else xs[0] + sep + Join(xs[1..], sep)
  }

  /** Joining two non-empty lists is joining each and putting one separator
      between the two results; with the single-element case this fixes every
      join, so the later parts follow the first in order. */
  lemma {:induction false} JoinAppend(a: seq<string>, b: seq<string>, sep: string)
    requires a != [] && b != []
    ensures Join(a + b, sep) == Join(a, sep) + sep + Join(b, sep)
    decreases |a|
  {
    var ab := a + b;
    assert |ab| >= 2 && ab[0] == a[0];
    if |a| == 1 {
      assert ab[1..] == b;
    } else {
      assert ab[1..] == a[1..] + b;
      var first, rest, tail := a[0], Join(a[1..], sep), Join(b, sep);
      JoinAppend(a[1..], b, sep);
      calc {
        Join(ab, sep);
        first + sep + Join(a[1..] + b, sep);
        first + sep + (rest + sep + tail);
        (first + sep + rest) + sep + tail;
        Join(a, sep) + sep + tail;
      }
    }
  }

  /** The joined string is as long as the parts plus one separator between
      each two neighbours. */
  lemma {:induction false} JoinLength(xs: seq<string>, sep: string)
    ensures |Join(xs, sep)| == TotalLength(xs) + (if xs == [] then 0 else (|xs| - 1) * |sep|)
  {
    if |xs| > 1 {
      JoinLength(xs[1..], sep);
    }
  }

  function TotalLength(xs: seq<string>): nat {
    if xs == [] then 0 else |xs[0]| + TotalLength(xs[1..])
  }

  lemma {:induction false} JoinEmpty(xs: seq<string>, sep: string)
    requires forall i :: 0 <= i < |xs| ==> xs[i] != ""
    ensures Join(xs, sep) == "" <==> xs == []
  {
    if |xs| > 1 {
      assert |Join(xs, sep)| >= |xs[0]| > 0;
    }
  }

  // ---------------------------------------------------------------------
  // Per-instructor statistics (the `map` and `filter` of `getEstadisticas`)

  /** `cursos.flatMap(curso => curso.evaluaciones)`. */
  function AllEvaluaciones(cursos: seq<Curso>): seq<Evaluacion> {
    if cursos == [] then []
    else AllEvaluaciones(cursos[..|cursos| - 1]) + cursos[|cursos| - 1].evaluaciones
  }

  /** `evaluaciones.flatMap(evaluacion => evaluacion.respuestas)`, as scores. */
  function AllScores(evaluaciones: seq<Evaluacion>): seq<int> {
    if evaluaciones == [] then []
    else AllScores(evaluaciones[..|evaluaciones| - 1]) + evaluaciones[|evaluaciones| - 1].respuestas
  }

  /** The number of evaluations over the courses, course by course. */
  function EvaluationCount(cursos: seq<Curso>): nat {
    if cursos == [] then 0 else |cursos[0].evaluaciones| + EvaluationCount(cursos[1..])
  }

  /** The number of answers over the evaluations, evaluation by evaluation. */
  function AnswerCount(evaluaciones: seq<Evaluacion>): nat {
    if evaluaciones == [] then 0 else |evaluaciones[0].respuestas| + AnswerCount(evaluaciones[1..])
  }

  lemma {:induction false} EvaluationCountAppend(a: seq<Curso>, b: seq<Curso>)
    ensures EvaluationCount(a + b) == EvaluationCount(a) + EvaluationCount(b)
  {
    if a != [] {
      assert (a + b)[1..] == a[1..] + b;
      EvaluationCountAppend(a[1..], b);
    } else {
      assert a + b == b;
    }
  }

  lemma {:induction false} AnswerCountAppend(a: seq<Evaluacion>, b: seq<Evaluacion>)
    ensures AnswerCount(a + b) == AnswerCount(a) + AnswerCount(b)
  {
    if a != [] {
      assert (a + b)[1..] == a[1..] + b;
      AnswerCountAppend(a[1..], b);
    } else {
      assert a + b == b;
    }
  }

  /** The flattened evaluations are as many as the courses' evaluations
      counted course by course. */
  lemma {:induction false} AllEvaluacionesLength(cursos: seq<Curso>)
    ensures |AllEvaluaciones(cursos)| == EvaluationCount(cursos)
  {
    if cursos != [] {
      var init := cursos[..|cursos| - 1];
      AllEvaluacionesLength(init);
      assert cursos == init + [cursos[|cursos| - 1]];
      EvaluationCountAppend(init, [cursos[|cursos| - 1]]);
    }
  }

  /** The flattened scores are as many as the evaluations' answers. */
  lemma {:induction false} AllScoresLength(evaluaciones: seq<Evaluacion>)
    ensures |AllScores(evaluaciones)| == AnswerCount(evaluaciones)
  {
    if evaluaciones != [] {
      var init := evaluaciones[..|evaluaciones| - 1];
      AllScoresLength(init);
      assert evaluaciones == init + [evaluaciones[|evaluaciones| - 1]];
      AnswerCountAppend(init, [evaluaciones[|evaluaciones| - 1]]);
    }
  }

  /** Every flattened score is an answer score of one of the evaluations. */
  lemma {:induction false} AllScoresFrom(evaluaciones: seq<Evaluacion>, lo: int, hi: int)
    requires forall e, x :: e in evaluaciones && x in e.respuestas ==> lo <= x <= hi
    ensures forall i :: 0 <= i < |AllScores(evaluaciones)| ==> lo <= AllScores(evaluaciones)[i] <= hi
  {
    if evaluaciones != [] {
      var init := evaluaciones[..|evaluaciones| - 1];
      var last := evaluaciones[|evaluaciones| - 1];
      assert forall e :: e in init ==> e in evaluaciones;
      AllScoresFrom(init, lo, hi);
      assert last in evaluaciones;
      assert forall x :: x in last.respuestas ==> lo <= x <= hi;
      assert forall i :: 0 <= i < |last.respuestas| ==> last.respuestas[i] in last.respuestas;
    }
  }

  /** The labels `filter(Boolean)` keeps: non-null and non-empty. */
  function TruthyLabels(cursos: seq<Curso>): (r: seq<string>)
    ensures forall l :: l in r <==> l != "" && exists c :: c in cursos && c.seminario == Some(l)
  {
    if cursos == [] then []
    else
      var rest := TruthyLabels(cursos[1..]);
      assert forall c :: c in cursos[1..] ==> c in cursos;
      match cursos[0].seminario
      case Some(l) =>
        if l != "" then [l] + rest else rest
      case None => rest
  }

  /** One course contributes its label when the label is truthy. */
  lemma TruthyLabelsOfOne(c: Curso)
    ensures TruthyLabels([c]) == if c.seminario.Some? && c.seminario.value != "" then [c.seminario.value] else []
  {
    assert [c][1..] == [];
  }

  /** `filter` keeps the courses' order: the labels of a concatenation are
      the labels of the first part followed by those of the second. */
  lemma {:induction false} TruthyLabelsAppend(a: seq<Curso>, b: seq<Curso>)
    ensures TruthyLabels(a + b) == TruthyLabels(a) + TruthyLabels(b)
  {
    if a == [] {
      assert a + b == b;
    } else {
      assert (a + b)[1..] == a[1..] + b;
      TruthyLabelsAppend(a[1..], b);
    }
  }

  /** The `seminario` field: the distinct truthy labels joined by ", ", or
      "Sin seminario" when there are none. */
  function SeminarioLabel(cursos: seq<Curso>): (r: string)
    ensures r != ""
  {
    var joined := Join(Distinct(TruthyLabels(cursos)), ", ");
    if joined == "" then SinSeminario else joined
  }

  /** The label is "Sin seminario" exactly when no course has a truthy
      label; otherwise it is the distinct labels, joined. */
  lemma SeminarioLabelCases(cursos: seq<Curso>)
    ensures TruthyLabels(cursos) == [] ==> SeminarioLabel(cursos) == SinSeminario
    ensures TruthyLabels(cursos) != [] ==> SeminarioLabel(cursos) == Join(Distinct(TruthyLabels(cursos)), ", ")
  {
    var d := Distinct(TruthyLabels(cursos));
    forall i | 0 <= i < |d| ensures d[i] != "" {
      assert d[i] in d;
    }
    JoinEmpty(d, ", ");
    if TruthyLabels(cursos) != [] {
      assert TruthyLabels(cursos)[0] in d;
    }
  }

  /** The entry the `map` in `getEstadisticas` builds for one instructor:
      its name, its seminar label, and a mean of 0 when it has no
      evaluation. */
  function CatedraticoStatOf(c: Catedratico): (r: CatedraticoStat)
    ensures r.nombreCatedratico == c.nombreCompleto && r.seminario == SeminarioLabel(c.cursos)
    ensures r.cantidadRespuestas == 0 ==> r.calificacionPromedio == Some(0)
    ensures r.calificacionPromedio.None? ==> r.cantidadRespuestas > 0
  {
    var evaluaciones := AllEvaluaciones(c.cursos);
    var scores := AllScores(evaluaciones);
    var cantidad := |evaluaciones|;
    var promedio :=
      if cantidad > 0 then
        (if |scores| > 0 then Some(Round2(Sum(scores), |scores|)) else None)
      else Some(0);
    CatedraticoStat(c.nombreCompleto, SeminarioLabel(c.cursos), cantidad, promedio)
  }

  /** The count is the number of evaluations over all the instructor's
      courses (not the number of answers), and the mean is the rounded mean
      of all their answer scores; evaluations without any answer give NaN. */
  lemma CatedraticoStatCounts(c: Catedratico)
    ensures CatedraticoStatOf(c).cantidadRespuestas == EvaluationCount(c.cursos)
    ensures var scores := AllScores(AllEvaluaciones(c.cursos));
      |scores| == AnswerCount(AllEvaluaciones(c.cursos))
      && (EvaluationCount(c.cursos) > 0 && |scores| > 0 ==>
            CatedraticoStatOf(c).calificacionPromedio == Some(Mean(scores)))
      && (EvaluationCount(c.cursos) > 0 && AnswerCount(AllEvaluaciones(c.cursos)) == 0 ==>
            CatedraticoStatOf(c).calificacionPromedio == None)
  {
    AllEvaluacionesLength(c.cursos);
    AllScoresLength(AllEvaluaciones(c.cursos));
  }

  /** With every score in 1..5 and at least one answer, the instructor's
      mean lies in 1.00..5.00. */
  lemma CatedraticoMeanInRange(c: Catedratico)
    requires forall e, x :: e in AllEvaluaciones(c.cursos) && x in e.respuestas ==> 1 <= x <= 5
    requires |AllScores(AllEvaluaciones(c.cursos))| > 0
    ensures CatedraticoStatOf(c).calificacionPromedio.Some?
    ensures 100 <= CatedraticoStatOf(c).calificacionPromedio.value <= 500
  {
    var evaluaciones := AllEvaluaciones(c.cursos);
    AllScoresFrom(evaluaciones, 1, 5);
    MeanOfScores(AllScores(evaluaciones));
  }

  /** `catedraticos`: the entries of the instructors that have at least one
      evaluation, in input order. */
  function CatedraticosConEstadisticas(cs: seq<Catedratico>): (r: seq<CatedraticoStat>)
    ensures |r| <= |cs|
    ensures forall s :: s in r ==> s.cantidadRespuestas > 0 && exists c :: c in cs && s == CatedraticoStatOf(c)
    ensures forall c :: c in cs && CatedraticoStatOf(c).cantidadRespuestas > 0 ==> CatedraticoStatOf(c) in r
  {
    if cs == [] then []
    else
      var rest := CatedraticosConEstadisticas(cs[1..]);
      assert forall c :: c in cs[1..] ==> c in cs;
      var s := CatedraticoStatOf(cs[0]);
      if s.cantidadRespuestas > 0 then [s] + rest else rest
  }

  /** The filter keeps input order: it distributes over concatenation. */
  lemma {:induction false} CatedraticosKeepOrder(a: seq<Catedratico>, b: seq<Catedratico>)
    ensures CatedraticosConEstadisticas(a + b) == CatedraticosConEstadisticas(a) + CatedraticosConEstadisticas(b)
  {
    if a != [] {
      assert (a + b)[1..] == a[1..] + b;
      CatedraticosKeepOrder(a[1..], b);
    } else {
      assert a + b == b;
    }
  }

  // ---------------------------------------------------------------------
  // Per-seminar statistics (`getPromediosPorSeminario`)

  /** The seminar label of every course, in input order. */
  function SeminarLabels(cursos: seq<CursoSeminario>): (r: seq<string>)
    ensures |r| == |cursos| && forall i :: 0 <= i < |cursos| ==> r[i] == cursos[i].seminario
  {
    seq(|cursos|, i requires 0 <= i < |cursos| => cursos[i].seminario)
  }

  /** All answer scores of all courses labelled `seminario`, course after
      course: what `seminarioMap[seminario]` holds once the grouping is done. */
  function PooledScores(cursos: seq<CursoSeminario>, seminario: string): seq<int> {
    if cursos == [] then []
    else
      var last := cursos[|cursos| - 1];
      PooledScores(cursos[..|cursos| - 1], seminario)
        + (if last.seminario == seminario then AllScores(last.evaluaciones) else [])
  }

  /** An ECMAScript array index ("0" to "4294967294" with no leading zero):
      an object lists such keys first, in numeric order, not in insertion
      order. */
  predicate IsArrayIndex(s: string) {
    && s != []
    && (forall i :: 0 <= i < |s| ==> '0' <= s[i] <= '9')
    && (s[0] == '0' ==> |s| == 1)
    && DecimalValue(s) < 4294967295
  }

  /** Names an empty object already answers through its prototype: the
      `!seminarioMap[seminario]` test sees them as present. */
  const ObjectPrototypeMembers: set<string> := {
    "constructor", "hasOwnProperty", "isPrototypeOf", "propertyIsEnumerable",
    "toString", "toLocaleString", "valueOf", "__proto__",
    "__defineGetter__", "__defineSetter__", "__lookupGetter__", "__lookupSetter__"
  }

  /** A label that behaves as an ordinary own key of a plain object. */
  predicate PlainKey(s: string) {
    !IsArrayIndex(s) && s !in ObjectPrototypeMembers
  }

  lemma PooledScoresStep(cursos: seq<CursoSeminario>, i: int, seminario: string)
    requires 0 <= i < |cursos|
    ensures PooledScores(cursos[..i + 1], seminario) == PooledScores(cursos[..i], seminario)
      + (if cursos[i].seminario == seminario then AllScores(cursos[i].evaluaciones) else [])
  {
    assert cursos[..i + 1][..i] == cursos[..i];
  }

  /** A label no course carries has no scores. */
  lemma {:induction false} PooledScoresAbsent(cursos: seq<CursoSeminario>, seminario: string)
    requires seminario !in SeminarLabels(cursos)
    ensures PooledScores(cursos, seminario) == []
  {
    if cursos != [] {
      var init := cursos[..|cursos| - 1];
      assert SeminarLabels(init) == SeminarLabels(cursos)[..|cursos| - 1];
      assert SeminarLabels(cursos)[|cursos| - 1] == cursos[|cursos| - 1].seminario;
      PooledScoresAbsent(init, seminario);
    }
  }

  lemma AllScoresStep(evaluaciones: seq<Evaluacion>, j: int)
    requires 0 <= j < |evaluaciones|
    ensures AllScores(evaluaciones[..j + 1]) == AllScores(evaluaciones[..j]) + evaluaciones[j].respuestas
  {
    assert evaluaciones[..j + 1][..j] == evaluaciones[..j];
  }

  lemma LabelsStep(cursos: seq<CursoSeminario>, i: int)
    requires 0 <= i < |cursos|
    ensures var d := Distinct(SeminarLabels(cursos[..i])); var x := cursos[i].seminario;
      Distinct(SeminarLabels(cursos[..i + 1])) == if x in d then d else d + [x]
  {
    var xs := SeminarLabels(cursos[..i + 1]);
    assert xs[..|xs| - 1] == SeminarLabels(cursos[..i]);
  }

  lemma TakeOneMore(s: seq<int>, k: int)
    requires 0 <= k < |s|
    ensures s[..k + 1] == s[..k] + [s[k]]
  {
  }

  /** The two inner loops of the grouping: push every answer score of
      every evaluation onto `scores`, the list held for the course's label. */
  method PushScores(scores: seq<int>, evaluaciones: seq<Evaluacion>) returns (r: seq<int>)
    ensures r == scores + AllScores(evaluaciones)
  {
    r := scores;
    assert AllScores(evaluaciones[..0]) == [];
    for j := 0 to |evaluaciones|
      invariant r == scores + AllScores(evaluaciones[..j])
    {
      var evaluacion := evaluaciones[j];
      AllScoresStep(evaluaciones, j);
      for k := 0 to |evaluacion.respuestas|
        invariant r == scores + AllScores(evaluaciones[..j]) + evaluacion.respuestas[..k]
      {
        TakeOneMore(evaluacion.respuestas, k);
        r := r + [evaluacion.respuestas[k]];
      }
      assert evaluacion.respuestas[..|evaluacion.respuestas|] == evaluacion.respuestas;
    }
    assert evaluaciones[..|evaluaciones|] == evaluaciones;
  }

  /** The grouping loop: for each course, create its label's list on first
      sight, then push the course's answer scores onto it.
      `order` is the key order of the object, insertion order. */
  method GroupScores(cursos: seq<CursoSeminario>) returns (order: seq<string>, groups: map<string, seq<int>>)
    ensures order == Distinct(SeminarLabels(cursos))
    ensures forall l :: l in groups <==> l in order
    ensures forall l :: l in groups ==> groups[l] == PooledScores(cursos, l)
  {
    order, groups := [], map[];
    for i := 0 to |cursos|
      invariant order == Distinct(SeminarLabels(cursos[..i]))
      invariant forall l :: l in groups <==> l in order
      invariant forall l :: l in groups ==> groups[l] == PooledScores(cursos[..i], l)
    {
      var curso := cursos[i];
      var seminario := curso.seminario;
      LabelsStep(cursos, i);
      if seminario !in groups {
        PooledScoresAbsent(cursos[..i], seminario);
        groups := groups[seminario := []];
        order := order + [seminario];
      }
      var pushed := PushScores(groups[seminario], curso.evaluaciones);
      groups := groups[seminario := pushed];
      forall l | l in groups ensures groups[l] == PooledScores(cursos[..i + 1], l) {
        PooledScoresStep(cursos, i, l);
      }
    }
    assert cursos[..|cursos|] == cursos;
  }

  /** `promedios_por_seminario`, in the order `GroupScores` lists the
      labels: one entry per distinct label (PromediosPorSeminarioEntries
      states which). */
  function PromediosPorSeminario(cursos: seq<CursoSeminario>): (r: seq<SeminarioStat>)
    ensures |r| == |Distinct(SeminarLabels(cursos))|
  {
    var labels := Distinct(SeminarLabels(cursos));
    seq(|labels|, i requires 0 <= i < |labels| => SeminarioStat(labels[i], Mean(PooledScores(cursos, labels[i]))))
  }

  /** `getPromediosPorSeminario` after its query. Object key order is
      insertion order only for plain keys, hence the precondition. */
  method GetPromediosPorSeminario(cursos: seq<CursoSeminario>) returns (r: seq<SeminarioStat>)
    requires forall i :: 0 <= i < |cursos| ==> PlainKey(cursos[i].seminario)
    ensures r == PromediosPorSeminario(cursos)
  {
    var order, groups := GroupScores(cursos);
    r := seq(|order|, i requires 0 <= i < |order| => SeminarioStat(order[i], Mean(groups[order[i]])));
  }

  /** Exactly one entry per distinct label among the courses, in order of
      first appearance, each with the rounded mean of the pooled scores of
      all courses carrying that label (0 when they have no answers). */
  lemma PromediosPorSeminarioEntries(cursos: seq<CursoSeminario>)
    ensures var r := PromediosPorSeminario(cursos); var labels := SeminarLabels(cursos);
      && (forall i, j :: 0 <= i < j < |r| ==> r[i].seminario != r[j].seminario)
      && (forall i :: 0 <= i < |r| ==> r[i].seminario in labels)
      && (forall l :: l in labels ==> exists i :: 0 <= i < |r| && r[i].seminario == l)
      && (forall i, j :: 0 <= i < j < |r| ==> FirstIndex(labels, r[i].seminario) < FirstIndex(labels, r[j].seminario))
      && (forall i :: 0 <= i < |r| ==>
            var pool := PooledScores(cursos, r[i].seminario);
            r[i].promedioGeneral == (if pool == [] then 0 else Round2(Sum(pool), |pool|)))
  {
    var r := PromediosPorSeminario(cursos);
    var d := Distinct(SeminarLabels(cursos));
    assert forall i :: 0 <= i < |r| ==> r[i].seminario == d[i];
    forall l | l in SeminarLabels(cursos) ensures exists i :: 0 <= i < |r| && r[i].seminario == l {
      var i := FirstIndex(d, l);
      assert r[i].seminario == l;
    }
  }

  /** `calificacion_general_seminario`: the unweighted mean of the already
      rounded seminar means, rounded to the nearest hundredth (a half
      rounding up), 0 when there is no seminar. */
  function CalificacionGeneral(promedios: seq<SeminarioStat>): (h: int)
    ensures promedios == [] ==> h == 0
  {
    if |promedios| > 0 then Round2(Sum(Means(promedios)), 100 * |promedios|) else 0
  }

  /** The overall mean is the nearest whole number of hundredths to the sum
      of the seminar means over their count, a half rounding up. */
  lemma CalificacionGeneralIsNearestHundredth(promedios: seq<SeminarioStat>)
    requires promedios != []
    ensures var n, h := |promedios|, CalificacionGeneral(promedios);
      2 * n * h <= 2 * Sum(Means(promedios)) + n < 2 * n * (h + 1)
  {
    Round2OfScaledCount(Sum(Means(promedios)), |promedios|);
  }

  /** Rounding num over 100 n to hundredths is rounding num over n to whole
      units. */
  lemma Round2OfScaledCount(num: int, n: int)
    requires n > 0
    ensures var h := Round2(num, 100 * n); 2 * n * h <= 2 * num + n < 2 * n * (h + 1)
  {
    var h := Round2(num, 100 * n);
    var lo, hi := 2 * n * h, 2 * n * (h + 1);
    assert 2 * (100 * n) * h == 100 * lo;
    assert 2 * (100 * n) * (h + 1) == 100 * hi;
    assert 100 * lo <= 100 * (2 * num + n) < 100 * hi;
  }

  /** The seminar means, in hundredths, in entry order. */
  function Means(promedios: seq<SeminarioStat>): (r: seq<int>)
    ensures |r| == |promedios|
    ensures forall i :: 0 <= i < |r| ==> r[i] == promedios[i].promedioGeneral
  {
    if promedios == [] then [] else [promedios[0].promedioGeneral] + Means(promedios[1..])
  }

  /** Two courses with different labels give two entries, in course order,
      each with its own course's mean. */
  lemma TwoSeminars(a: string, b: string, x: seq<Evaluacion>, y: seq<Evaluacion>)
    requires a != b
    ensures PromediosPorSeminario([CursoSeminario(a, x), CursoSeminario(b, y)])
      == [SeminarioStat(a, Mean(AllScores(x))), SeminarioStat(b, Mean(AllScores(y)))]
  {
    var cursos := [CursoSeminario(a, x), CursoSeminario(b, y)];
    TwoSeminarsLabels(a, b, x, y);
    TwoSeminarsPools(a, b, x, y);
    var r := PromediosPorSeminario(cursos);
    assert |r| == 2;
    assert r[0] == SeminarioStat(a, Mean(PooledScores(cursos, a)));
    assert r[1] == SeminarioStat(b, Mean(PooledScores(cursos, b)));
  }

  lemma TwoSeminarsLabels(a: string, b: string, x: seq<Evaluacion>, y: seq<Evaluacion>)
    requires a != b
    ensures Distinct(SeminarLabels([CursoSeminario(a, x), CursoSeminario(b, y)])) == [a, b]
  {
    var cursos := [CursoSeminario(a, x), CursoSeminario(b, y)];
    assert cursos[..2] == cursos;
    assert cursos[..0] == [];
    LabelsStep(cursos, 0);
    LabelsStep(cursos, 1);
  }

  lemma TwoSeminarsPools(a: string, b: string, x: seq<Evaluacion>, y: seq<Evaluacion>)
    requires a != b
    ensures PooledScores([CursoSeminario(a, x), CursoSeminario(b, y)], a) == AllScores(x)
    ensures PooledScores([CursoSeminario(a, x), CursoSeminario(b, y)], b) == AllScores(y)
  {
    var cursos := [CursoSeminario(a, x), CursoSeminario(b, y)];
    assert cursos[..2] == cursos;
    assert cursos[..0] == [];
    PooledScoresStep(cursos, 0, a);
    PooledScoresStep(cursos, 1, a);
    PooledScoresStep(cursos, 0, b);
    PooledScoresStep(cursos, 1, b);
  }

  lemma SumOfTwoMeans(p: SeminarioStat, q: SeminarioStat)
    ensures Sum(Means([p, q])) == p.promedioGeneral + q.promedioGeneral
  {
    var m := [p.promedioGeneral, q.promedioGeneral];
    assert Means([p, q]) == m;
    assert m[1..] == [q.promedioGeneral] && [q.promedioGeneral][1..] == [];
    assert Sum(m[1..]) == q.promedioGeneral + Sum([]);
  }

  /** Two seminars, one whose answers are all 5 and one whose answers are
      all 1, give an overall mean of exactly 3.00 however many evaluations
      each has: an average of averages, not of raw scores. */
  lemma AverageOfAverages(a: string, b: string, fives: seq<Evaluacion>, ones: seq<Evaluacion>)
    requires a != b
    requires forall e, x :: e in fives && x in e.respuestas ==> x == 5
    requires forall e, x :: e in ones && x in e.respuestas ==> x == 1
    requires |AllScores(fives)| > 0 && |AllScores(ones)| > 0
    ensures CalificacionGeneral(PromediosPorSeminario([CursoSeminario(a, fives), CursoSeminario(b, ones)])) == 300
  {
    AllScoresFrom(fives, 5, 5);
    AllScoresFrom(ones, 1, 1);
    MeanOfConstant(AllScores(fives), 5);
    MeanOfConstant(AllScores(ones), 1);
    TwoSeminars(a, b, fives, ones);
    var r := [SeminarioStat(a, 500), SeminarioStat(b, 100)];
    assert PromediosPorSeminario([CursoSeminario(a, fives), CursoSeminario(b, ones)]) == r;
    SumOfTwoMeans(r[0], r[1]);
    assert CalificacionGeneral(r) == Round2(600, 200) == 300;
  }

  lemma SingleSeminar(cursos: seq<CursoSeminario>, a: string)
    requires Distinct(SeminarLabels(cursos)) == [a]
    ensures PromediosPorSeminario(cursos) == [SeminarioStat(a, Mean(PooledScores(cursos, a)))]
  {
    var r := PromediosPorSeminario(cursos);
    assert |r| == 1;
    assert r == [r[0]];
  }

  lemma SameSeminarScores(a: string, x: seq<Evaluacion>, y: seq<Evaluacion>)
    ensures PooledScores([CursoSeminario(a, x), CursoSeminario(a, y)], a) == AllScores(x) + AllScores(y)
  {
    var cursos := [CursoSeminario(a, x), CursoSeminario(a, y)];
    assert cursos[..2] == cursos;
    assert cursos[..0] == [];
    PooledScoresStep(cursos, 0, a);
    PooledScoresStep(cursos, 1, a);
  }

  lemma SameSeminarLabels(a: string, x: seq<Evaluacion>, y: seq<Evaluacion>)
    ensures Distinct(SeminarLabels([CursoSeminario(a, x), CursoSeminario(a, y)])) == [a]
  {
    var cursos := [CursoSeminario(a, x), CursoSeminario(a, y)];
    assert cursos[..2] == cursos;
    assert SeminarLabels(cursos[..0]) == [];
    LabelsStep(cursos, 0);
    LabelsStep(cursos, 1);
  }

  /** Courses that share a label are pooled into one entry: the mean is
      taken over all their answers together, not course by course. */
  lemma SameSeminarPools(a: string, x: seq<Evaluacion>, y: seq<Evaluacion>)
    ensures PromediosPorSeminario([CursoSeminario(a, x), CursoSeminario(a, y)])
      == [SeminarioStat(a, Mean(AllScores(x) + AllScores(y)))]
  {
    SameSeminarScores(a, x, y);
    SameSeminarLabels(a, x, y);
    SingleSeminar([CursoSeminario(a, x), CursoSeminario(a, y)], a);
  }

  /** A course labelled with the empty string is grouped under "" by the
      seminar query, but the instructor's label drops it as falsy. */
  lemma EmptyLabelOnlyInSeminarList(nombre: string, evaluaciones: seq<Evaluacion>)
    ensures CatedraticoStatOf(Catedratico(nombre, [Curso(Some(""), evaluaciones)])).seminario == SinSeminario
    ensures var r := PromediosPorSeminario([CursoSeminario("", evaluaciones)]); |r| == 1 && r[0].seminario == ""
  {
    var cursos := [Curso(Some(""), evaluaciones)];
    assert cursos[1..] == [];
    assert TruthyLabels(cursos) == [];
    SeminarioLabelCases(cursos);
    var seminars := [CursoSeminario("", evaluaciones)];
    assert SeminarLabels(seminars) == [""];
    assert SeminarLabels(seminars)[..0] == [];
    assert Distinct(SeminarLabels(seminars)) == [""];
  }

  /** When every seminar mean lies in 1.00..5.00, so does the overall one. */
  lemma CalificacionGeneralInRange(promedios: seq<SeminarioStat>)
    requires |promedios| > 0
    requires forall i :: 0 <= i < |promedios| ==> 100 <= promedios[i].promedioGeneral <= 500
    ensures 100 <= CalificacionGeneral(promedios) <= 500
  {
    SumBounds(Means(promedios), 100, 500);
    var n := |promedios|;
    var d, h := 200 * n, CalificacionGeneral(promedios);
    assert d * h <= 200 * Sum(Means(promedios)) + 100 * n < d * (h + 1);
    assert d * h < d * 501;
    Cancel(d, h, 501);
    assert d * 100 < d * (h + 1);
    Cancel(d, 100, h + 1);
  }

  /** Every pooled score is an answer score of a course with that label. */
  lemma {:induction false} PooledScoresFrom(cursos: seq<CursoSeminario>, seminario: string, lo: int, hi: int)
    requires forall c, e, x :: c in cursos && e in c.evaluaciones && x in e.respuestas ==> lo <= x <= hi
    ensures forall i :: 0 <= i < |PooledScores(cursos, seminario)| ==> lo <= PooledScores(cursos, seminario)[i] <= hi
  {
    if cursos != [] {
      var init := cursos[..|cursos| - 1];
      var last := cursos[|cursos| - 1];
      assert forall c :: c in init ==> c in cursos;
      PooledScoresFrom(init, seminario, lo, hi);
      assert last in cursos;
      AllScoresFrom(last.evaluaciones, lo, hi);
    }
  }

  /** With every answer score in 1..5, each seminar mean is 0 (no answers)
      or lies in 1.00..5.00. */
  lemma PromediosInRange(cursos: seq<CursoSeminario>)
    requires forall c, e, x :: c in cursos && e in c.evaluaciones && x in e.respuestas ==> 1 <= x <= 5
    ensures var r := PromediosPorSeminario(cursos);
      forall i :: 0 <= i < |r| ==> r[i].promedioGeneral == 0 || 100 <= r[i].promedioGeneral <= 500
  {
    var r := PromediosPorSeminario(cursos);
    forall i | 0 <= i < |r| ensures r[i].promedioGeneral == 0 || 100 <= r[i].promedioGeneral <= 500 {
      var pool := PooledScores(cursos, r[i].seminario);
      PooledScoresFrom(cursos, r[i].seminario, 1, 5);
      if pool != [] {
        MeanOfScores(pool);
      }
    }
  }

  /** With a single seminar the overall mean is that seminar's mean:
      re-rounding a whole number of hundredths changes nothing. */
  lemma OneSeminarOverall(p: SeminarioStat)
    ensures CalificacionGeneral([p]) == p.promedioGeneral
  {
    assert Means([p]) == [p.promedioGeneral];
    assert [p.promedioGeneral][1..] == [];
    assert Sum([p.promedioGeneral]) == p.promedioGeneral + Sum([]);
    Round2OfHundredths(p.promedioGeneral);
  }

  lemma {:induction false} SumAppend(a: seq<int>, b: seq<int>)
    ensures Sum(a + b) == Sum(a) + Sum(b)
  {
    if a == [] {
      assert a + b == b;
    } else {
      assert (a + b)[1..] == a[1..] + b;
      SumAppend(a[1..], b);
    }
  }

  /** The evaluations of the worked example below. */
  function ExampleEvaluaciones(): seq<Evaluacion> {
    [Evaluacion([5, 5, 5, 5, 5]), Evaluacion([3, 3, 3, 3, 3])]
  }

  lemma ExampleMean()
    ensures Mean(AllScores(ExampleEvaluaciones())) == 400
  {
    var fives, threes := [5, 5, 5, 5, 5], [3, 3, 3, 3, 3];
    var evaluaciones := ExampleEvaluaciones();
    assert evaluaciones[..1] == [Evaluacion(fives)] && evaluaciones[..1][..0] == [];
    var scores := AllScores(evaluaciones);
    assert AllScores(evaluaciones[..1]) == AllScores([]) + fives == fives;
    assert scores == AllScores(evaluaciones[..1]) + threes == fives + threes;
    SumAppend(fives, threes);
    SumOfConstant(fives, 5);
    SumOfConstant(threes, 3);
    assert Mean(scores) == Round2(40, 10) == 400;
  }

  lemma ExampleInstructor(nombre: string)
    ensures CatedraticosConEstadisticas([Catedratico(nombre, [Curso(Some("X"), ExampleEvaluaciones())])])
      == [CatedraticoStat(nombre, "X", 2, Some(400))]
  {
    ExampleMean();
    var curso := Curso(Some("X"), ExampleEvaluaciones());
    assert [curso][..0] == [] && [curso][1..] == [];
    assert AllEvaluaciones([curso]) == ExampleEvaluaciones();
    assert TruthyLabels([curso]) == ["X"];
    assert ["X"][..0] == [];
    assert Distinct(["X"]) == ["X"];
    SeminarioLabelCases([curso]);
    var c := Catedratico(nombre, [curso]);
    assert CatedraticoStatOf(c) == CatedraticoStat(nombre, "X", 2, Some(400));
    assert CatedraticosConEstadisticas([c][1..]) == [];
  }

  lemma ExampleSeminar()
    ensures PromediosPorSeminario([CursoSeminario("X", ExampleEvaluaciones())]) == [SeminarioStat("X", 400)]
  {
    ExampleMean();
    var seminars := [CursoSeminario("X", ExampleEvaluaciones())];
    assert seminars[..0] == [];
    assert SeminarLabels(seminars) == ["X"];
    assert SeminarLabels(seminars)[..0] == [];
    assert PooledScores(seminars, "X") == AllScores(ExampleEvaluaciones());
    SingleSeminar(seminars, "X");
  }

  /** The worked example: one instructor with one course of seminar "X" and
      two evaluations answered [5,5,5,5,5] and [3,3,3,3,3] gets mean 4.00
      over 2 evaluations; seminar "X" has mean 4.00, and so has the overall
      mean. */
  lemma WorkedExample(nombre: string)
    ensures var evaluaciones := ExampleEvaluaciones();
      && CatedraticosConEstadisticas([Catedratico(nombre, [Curso(Some("X"), evaluaciones)])])
           == [CatedraticoStat(nombre, "X", 2, Some(400))]
      && PromediosPorSeminario([CursoSeminario("X", evaluaciones)]) == [SeminarioStat("X", 400)]
      && CalificacionGeneral(PromediosPorSeminario([CursoSeminario("X", evaluaciones)])) == 400
  {
    ExampleInstructor(nombre);
    ExampleSeminar();
    OneSeminarOverall(SeminarioStat("X", 400));
  }

  /** `getEstadisticas` after its two queries: the instructor entries, the
      seminar entries and the overall mean. */
  method GetEstadisticas(catedraticos: seq<Catedratico>, cursos: seq<CursoSeminario>) returns (r: Estadisticas)
    requires forall i :: 0 <= i < |cursos| ==> PlainKey(cursos[i].seminario)
    ensures r.catedraticos == CatedraticosConEstadisticas(catedraticos)
    ensures r.promediosPorSeminario == PromediosPorSeminario(cursos)
    ensures r.calificacionGeneralSeminario == CalificacionGeneral(PromediosPorSeminario(cursos))
  {
    var conEstadisticas := CatedraticosConEstadisticas(catedraticos);
    var promedios := GetPromediosPorSeminario(cursos);
    var general := CalificacionGeneral(promedios);
    r := Estadisticas(conEstadisticas, general, promedios);
  }

  // ---------------------------------------------------------------------
  // Rows written by `crearEvaluacion`

  /** The evaluation row: the parsed course id (`None` for NaN) and the
      trimmed comment. */
  datatype EvaluacionRow = EvaluacionRow(cursoId: Option<int>, comentarios: string)

  /** An answer row: `puntuacion` is `parseInt` of the submitted answer. */
  datatype RespuestaRow = RespuestaRow(evaluacionId: int, preguntaId: int, puntuacion: Option<int>)

  /** The evaluation row `crearEvaluacion` writes: `parseInt(cursoId)` and
      the comment with no white space left at either end. */
  function EvaluacionData(cursoId: JsValue, comentarios: string): (row: EvaluacionRow)
    ensures row.cursoId == ParseInt(ToStr(cursoId))
    ensures row.comentarios == Trim(comentarios) && Trim(row.comentarios) == row.comentarios
  {
    ParseValueIsParseIntOfString(cursoId);
    TrimIdempotent(comentarios);
    EvaluacionRow(ParseValue(cursoId), Trim(comentarios))
  }

  /** `respuestas.map((puntuacion, index) => ...)`: the answer at position
      `i` goes to question `i + 1` of the new evaluation. */
  function RespuestasData(evaluacionId: int, respuestas: seq<JsValue>): (rows: seq<RespuestaRow>)
    ensures |rows| == |respuestas|
    ensures forall i :: 0 <= i < |rows| ==>
      rows[i].evaluacionId == evaluacionId && rows[i].preguntaId == i + 1
      && rows[i].puntuacion == ParseValue(respuestas[i])
  {
    seq(|respuestas|, i requires 0 <= i < |respuestas| =>
      RespuestaRow(evaluacionId, i + 1, ParseValue(respuestas[i])))
  }

  /** A body that passed `validateEvaluacion` yields, once the controller
      has trimmed the comment, an evaluation row with a parsed course id and
      the trimmed comment of at least ten code units, and exactly five answer
      rows for questions 1 to 5 of one evaluation, each with a score in 1..5. */
  lemma ValidatedBodyRows(b: Validation.EvaluacionBody, evaluacionId: int)
    requires Validation.ValidateEvaluacion(b) == Validation.Next
    ensures b.comentarios.Str? && b.respuestas.Arr?
    ensures var row := EvaluacionData(b.cursoId, Trim(b.comentarios.s));
      row.cursoId.Some? && row.comentarios == Trim(b.comentarios.s)
      && Utf16Length(row.comentarios) >= 10
    ensures var rows := RespuestasData(evaluacionId, b.respuestas.elems);
      && |rows| == 5
      && (forall i :: 0 <= i < 5 ==> rows[i].evaluacionId == evaluacionId && rows[i].preguntaId == i + 1)
      && (forall i :: 0 <= i < 5 ==> rows[i].puntuacion.Some? && 1 <= rows[i].puntuacion.value <= 5)
  {
    Validation.ValidateEvaluacionAccepts(b);
    TrimIdempotent(b.comentarios.s);
    var rows := RespuestasData(evaluacionId, b.respuestas.elems);
    forall i | 0 <= i < 5 ensures rows[i].puntuacion.Some? && 1 <= rows[i].puntuacion.value <= 5 {
      assert Validation.ValidScore(b.respuestas.elems[i]);
    }
  }
}
