/** Scoring of one puzzle's two-attempt predictions against its ground truth,
    the "has any real attempt" test, and the PASS / PARTIAL / FAIL / ERROR
    bucket a tested puzzle falls into (analyze_results.py). */
module Scoring {
  import opened Grids

  /** Test input `i` is solved: there is a prediction entry for it, the entry
      is not `null`, and one of its two attempts is present and structurally
      equal to the ground-truth grid. */
  ghost predicate Solved(preds: Preds, gt: seq<Grid>, i: nat)
    requires i < |gt|
  {
    && i < |preds|
    && preds[i].Some?
    && (preds[i].value.attempt1 == Some(gt[i]) || preds[i].value.attempt2 == Some(gt[i]))
  }

  /** The solved test indices. */
  ghost function SolvedIndices(preds: Preds, gt: seq<Grid>, n: nat): set<nat>
    requires n <= |gt|
  {
    set i: nat | i < n && Solved(preds, gt, i)
  }

  /** The per-index test of the scoring loop: a `null` entry reads as `{}`,
      and each attempt must be non-`None` and equal to the ground truth. */
  predicate AttemptMatches(entry: Option<Pack>, g: Grid) {
    var pack := entry.GetOr(EmptyPack);
    || (pack.attempt1.Some? && pack.attempt1.value == g)
    || (pack.attempt2.Some? && pack.attempt2.value == g)
  }

  /** The `correct` counter after the loop has visited the first `n`
      ground-truth grids; indices with no prediction entry are skipped. */
  function CorrectCount(preds: Preds, gt: seq<Grid>, n: nat): (c: nat)
    requires n <= |gt|
    ensures c <= n
    ensures c == n <==> forall i :: 0 <= i < n ==> Solved(preds, gt, i)
    ensures c == 0 <==> forall i :: 0 <= i < n ==> !Solved(preds, gt, i)
  {
    if n == 0 then 0
    else
      var prev := CorrectCount(preds, gt, n - 1);
      if n - 1 >= |preds| then
        assert !Solved(preds, gt, n - 1);
        prev
      else if AttemptMatches(preds[n - 1], gt[n - 1]) then
        assert Solved(preds, gt, n - 1);
        prev + 1
      else
        assert !Solved(preds, gt, n - 1);
        prev
  }

  /** The divisor of the score: the number of ground-truth grids, at least 1. */
  function AtLeastOne(n: nat): (m: nat)
    ensures m >= 1 && m >= n
  {
    if n < 1 then 1 else n
  }

  /** score_puzzle, with the score as an exact fraction. */
  function ScorePuzzle(preds: Preds, gt: seq<Grid>): (score: real)
    ensures gt == [] || preds == [] ==> score == 0.0
    ensures 0.0 <= score <= 1.0
    ensures score == 1.0 <==> gt != [] && preds != [] && forall i :: 0 <= i < |gt| ==> Solved(preds, gt, i)
    ensures score > 0.0 <==> gt != [] && exists i :: 0 <= i < |gt| && Solved(preds, gt, i)
  {
    if |gt| == 0 || |preds| == 0 then 0.0
    else
      var c := CorrectCount(preds, gt, |gt|);
      var n := AtLeastOne(|gt|);
      FractionFacts(c, n);
      c as real / n as real
  }

  /** The facts about `c / n` that the score relies on. */
  lemma FractionFacts(c: nat, n: nat)
    requires 0 < n && c <= n
    ensures 0.0 <= c as real / n as real <= 1.0
    ensures c as real / n as real == 1.0 <==> c == n
    ensures c as real / n as real > 0.0 <==> c > 0
  {
  }

  /** The loop's count is the number of solved test indices. */
  lemma {:induction false} CorrectCountIsCardinality(preds: Preds, gt: seq<Grid>, n: nat)
    requires n <= |gt|
    ensures CorrectCount(preds, gt, n) == |SolvedIndices(preds, gt, n)|
  {
    if n > 0 {
      CorrectCountIsCardinality(preds, gt, n - 1);
      var below := SolvedIndices(preds, gt, n - 1);
      if Solved(preds, gt, n - 1) {
        assert SolvedIndices(preds, gt, n) == below + {n - 1};
      } else {
        assert SolvedIndices(preds, gt, n) == below;
      }
    }
  }

  /** The score is the fraction of test inputs solved. */
  lemma ScoreIsFractionSolved(preds: Preds, gt: seq<Grid>)
    requires gt != [] && preds != []
    ensures ScorePuzzle(preds, gt) == |SolvedIndices(preds, gt, |gt|)| as real / |gt| as real
  {
    CorrectCountIsCardinality(preds, gt, |gt|);
  }

  lemma {:induction false} CorrectCountIgnoresExtra(preds: Preds, extra: Preds, gt: seq<Grid>, n: nat)
    requires n <= |gt| <= |preds|
    ensures CorrectCount(preds + extra, gt, n) == CorrectCount(preds, gt, n)
  {
    if n > 0 {
      CorrectCountIgnoresExtra(preds, extra, gt, n - 1);
      assert (preds + extra)[n - 1] == preds[n - 1];
    }
  }

  /** Prediction entries beyond the ground truth's length do not affect the score. */
  lemma ExtraPredictionsIgnored(preds: Preds, extra: Preds, gt: seq<Grid>)
    requires |gt| <= |preds|
    ensures ScorePuzzle(preds + extra, gt) == ScorePuzzle(preds, gt)
  {
    if gt != [] {
      CorrectCountIgnoresExtra(preds, extra, gt, |gt|);
    }
  }

  /** An entry holds a real attempt: it is not `null` and one of its attempts
      is truthy (present and not the empty list). */
  predicate EntryHasData(entry: Option<Pack>) {
    entry.Some? && (Truthy(entry.value.attempt1) || Truthy(entry.value.attempt2))
  }

  /** has_data, with a `null` entry counted as holding no attempt. */
  function HasData(preds: Preds): (r: bool)
    ensures preds == [] ==> !r
    ensures r <==> exists i :: 0 <= i < |preds| && EntryHasData(preds[i])
  {
    if preds == [] then false
    else
      var rest := HasData(preds[1..]);
      assert forall i :: 1 <= i < |preds| ==> preds[i] == preds[1..][i - 1];
      EntryHasData(preds[0]) || rest
  }

  /** has_data as written: each entry is read as a dictionary without the
      empty-dictionary fallback of the scoring loop, so a `null` entry reached before any
      truthy one raises. `None` here stands for that raised error. */
  function HasDataAsWritten(preds: Preds): (r: Option<bool>)
    ensures r.Some? ==> r.value == HasData(preds)
    ensures r.None? <==> exists i :: 0 <= i < |preds| && preds[i].None? && forall j :: 0 <= j < i ==> !EntryHasData(preds[j])
  {
    if preds == [] then Some(false)
    else
      var rest := HasDataAsWritten(preds[1..]);
      assert forall i :: 1 <= i < |preds| ==> preds[i] == preds[1..][i - 1];
      match preds[0]
      case None => None
      case Some(p) =>
        if Truthy(p.attempt1) || Truthy(p.attempt2) then Some(true) else rest
  }

  /** The four result categories of the report. */
  datatype Bucket = Pass | Partial | Fail | Error

  /** The category of one tested puzzle, with has_data read as HasData. */
  function Classify(preds: Preds, gt: seq<Grid>): (b: Bucket)
    ensures b == Pass <==> gt != [] && preds != [] && forall i :: 0 <= i < |gt| ==> Solved(preds, gt, i)
    ensures b == Partial <==>
              && (exists i :: 0 <= i < |gt| && Solved(preds, gt, i))
              && (exists i :: 0 <= i < |gt| && !Solved(preds, gt, i))
    ensures b == Fail <==> (forall i :: 0 <= i < |gt| ==> !Solved(preds, gt, i)) && HasData(preds)
    ensures b == Error <==> (forall i :: 0 <= i < |gt| ==> !Solved(preds, gt, i)) && !HasData(preds)
  {
    var score := ScorePuzzle(preds, gt);
    if score == 1.0 then Pass
    else if score > 0.0 then Partial
    else if HasData(preds) then Fail
    else Error
  }

  /** The category as the loop computes it with has_data as written; `None`
      when the report script would stop with an error. */
  function ClassifyAsWritten(preds: Preds, gt: seq<Grid>): (r: Option<Bucket>)
    ensures r.Some? ==> r.value == Classify(preds, gt)
    ensures r.None? <==> (forall i :: 0 <= i < |gt| ==> !Solved(preds, gt, i)) && HasDataAsWritten(preds).None?
  {
    var score := ScorePuzzle(preds, gt);
    if score == 1.0 then Some(Pass)
    else if score > 0.0 then Some(Partial)
    else
      match HasDataAsWritten(preds)
      case None => None
      case Some(d) => if d then Some(Fail) else Some(Error)
  }

  /** A submission whose only entry is `null`, for a puzzle with one test
      input, stops the report as written, where the guarded reading files
      the puzzle under ERROR. */
  lemma NullEntryStopsReport()
    ensures ClassifyAsWritten([None], [[[1]]]) == None
    ensures Classify([None], [[[1]]]) == Error
  {
    assert HasDataAsWritten([None]) == None;
  }
}
