/** DetermineGrade: the letter of a score among the thresholds of one scope. */
module Grades {
  import opened Common

  /** One grade_thresholds row; `minValue` is in hundredths. */
  datatype Threshold = Threshold(letter: string, minValue: int, boundaryRule: string)

  datatype Error = ThresholdsUnavailable

  predicate Satisfied(t: Threshold, score: real) {
    match t.boundaryRule
    case "gte" => score >= t.minValue as real / 100.0
    case "gt" => score > t.minValue as real / 100.0
    case _ => false
  }

  /** ORDER BY min_value DESC; rows with equal min_value come in any order. */
  predicate SortedDescending(rows: seq<Threshold>) {
    forall i, j :: 0 <= i < j < |rows| ==> rows[i].minValue >= rows[j].minValue
  }

  /** `t` grades the score: satisfied, and no satisfied threshold asks for more. */
  ghost predicate Highest(rows: seq<Threshold>, score: real, t: Threshold) {
    && t in rows && Satisfied(t, score)
    && (forall u :: u in rows && Satisfied(u, score) ==> u.minValue <= t.minValue)
  }

  /** The query's result scanned for the first match. */
  method DetermineGrade(rows: seq<Threshold>, score: real) returns (r: Result<string, Error>)
    requires SortedDescending(rows)
    ensures r.Ok? ==> exists t :: Highest(rows, score, t) && t.letter == r.value
    ensures r.Err? <==> forall t :: t in rows ==> !Satisfied(t, score)
  {
    if |rows| == 0 { return Err(ThresholdsUnavailable); }
    for i := 0 to |rows|
      invariant forall k :: 0 <= k < i ==> !Satisfied(rows[k], score)
    {
      var matches := false;
      if rows[i].boundaryRule == "gte" {
        matches := score >= rows[i].minValue as real / 100.0;
      } else if rows[i].boundaryRule == "gt" {
        matches := score > rows[i].minValue as real / 100.0;
      }
      if matches {
        assert Highest(rows, score, rows[i]);
        return Ok(rows[i].letter);
      }
    }
    return Err(ThresholdsUnavailable);
  }

  /** A higher score never gets a lower grade, nor no grade where a lower score had one. */
  lemma {:induction false} HigherScoreHigherGrade(rows: seq<Threshold>, low: real, high: real, t: Threshold)
    returns (u: Threshold)
    requires low <= high && Highest(rows, low, t)
    ensures Highest(rows, high, u) && u.minValue >= t.minValue
  {
    u := Best(rows, high, t);
  }

  /** The highest satisfied threshold, starting from one that is satisfied. */
  lemma {:induction false} Best(rows: seq<Threshold>, score: real, t: Threshold) returns (u: Threshold)
    requires t in rows && Satisfied(t, score)
    ensures Highest(rows, score, u) && u.minValue >= t.minValue
  {
    if rows[0] == t && forall v :: v in rows[1..] ==> !Satisfied(v, score) {
      u := t;
    } else if exists v :: v in rows[1..] && Satisfied(v, score) {
      var v :| v in rows[1..] && Satisfied(v, score);
      u := Best(rows[1..], score, if t in rows[1..] then t else v);
      if Satisfied(rows[0], score) && rows[0].minValue > u.minValue { u := rows[0]; }
    }
  }

  /** When no two thresholds share a min_value, the order in which the rows arrive cannot change the letter. */
  lemma GradeIsDetermined(rows: seq<Threshold>, others: seq<Threshold>, score: real, t: Threshold, u: Threshold)
    requires multiset(rows) == multiset(others)
    requires forall a, b :: a in rows && b in rows && a.minValue == b.minValue ==> a == b
    requires Highest(rows, score, t) && Highest(others, score, u)
    ensures t == u
  {
    assert u in multiset(others) && t in multiset(rows);
    assert u in rows && t in others;
  }

  /** A score at a threshold's min_value satisfies it exactly under "gte"; above it, under either rule; below it never,
      and an unknown rule is never satisfied. */
  lemma AtTheBoundary(t: Threshold, score: real)
    ensures score * 100.0 == t.minValue as real ==> (Satisfied(t, score) <==> t.boundaryRule == "gte")
    ensures score * 100.0 > t.minValue as real ==> (Satisfied(t, score) <==> t.boundaryRule in {"gte", "gt"})
    ensures score * 100.0 < t.minValue as real ==> !Satisfied(t, score)
  {
  }
}
