/** The status report over a run's submissions (analyze_results.py): two
    submission files merged with the later one winning, every tested puzzle
    filed under exactly one category, and the sorted list of challenge ids
    that no submission covers. */
module Analysis {
  import opened Grids
  import opened Scoring
  import opened Ordering

  /** A submission file: task id to that task's predictions. */
  type Submission = map<string, Preds>

  /** A solutions file: task id to its ground-truth output grids. */
  type Solutions = map<string, seq<Grid>>

  /** Dictionary unpacking of both files into one: every id of either file, the second file's entry
      taking precedence on an id both contain. */
  function Merge(sub1: Submission, sub2: Submission): (m: Submission)
    ensures m.Keys == sub1.Keys + sub2.Keys
    ensures forall id :: id in sub2 ==> m[id] == sub2[id]
    ensures forall id :: id in sub1 && id !in sub2 ==> m[id] == sub1[id]
  {
    sub1 + sub2
  }

  /** Merging a file over a merge that already ends with it changes nothing:
      only the latest entry for an id survives. */
  lemma MergeKeepsLatest(sub1: Submission, sub2: Submission)
    ensures Merge(Merge(sub1, sub2), sub2) == Merge(sub1, sub2)
    ensures Merge(sub2, Merge(sub1, sub2)) == Merge(sub1, sub2)
  {
  }

  /** The ground truth of an id, the empty list when the solutions file lacks it. */
  function GroundTruth(solutions: Solutions, id: string): seq<Grid> {
    if id in solutions then solutions[id] else []
  }

  /** A tested puzzle with no ground truth scores 0 and so can never be PASS
      or PARTIAL. */
  lemma MissingGroundTruthNeverSolved(merged: Submission, solutions: Solutions, id: string)
    requires id in merged && id !in solutions
    ensures ScorePuzzle(merged[id], GroundTruth(solutions, id)) == 0.0
    ensures Classify(merged[id], GroundTruth(solutions, id)) in {Fail, Error}
  {
  }

  /** One line of a category list: the puzzle id and its score. */
  datatype Entry = Entry(id: string, score: real)

  /** The four category lists of the report. */
  datatype Report = Report(pass: seq<Entry>, partial: seq<Entry>, fail: seq<Entry>, error: seq<Entry>) {
    function Of(b: Bucket): seq<Entry> {
      match b
      case Pass => pass
      case Partial => partial
      case Fail => fail
      case Error => error
    }

    function Size(): nat {
      |pass| + |partial| + |fail| + |error|
    }

    /** Appends an entry to the list of one category. */
    function Add(b: Bucket, e: Entry): (r: Report)
      ensures r.Of(b) == Of(b) + [e]
      ensures forall c :: c != b ==> r.Of(c) == Of(c)
      ensures r.Size() == Size() + 1
    {
      match b
      case Pass => this.(pass := pass + [e])
      case Partial => this.(partial := partial + [e])
      case Fail => this.(fail := fail + [e])
      case Error => this.(error := error + [e])
    }
  }

  /** The ids of a category list, in order. */
  function Ids(es: seq<Entry>): (r: seq<string>)
    ensures |r| == |es|
    ensures forall i :: 0 <= i < |es| ==> r[i] == es[i].id
  {
    seq(|es|, i requires 0 <= i < |es| => es[i].id)
  }

  /** The category of a tested id. */
  function BucketOf(merged: Submission, solutions: Solutions, id: string): Bucket
    requires id in merged
  {
    Classify(merged[id], GroundTruth(solutions, id))
  }

  /** Every id of `ids` is in the list of its own category and in no other. */
  ghost predicate FilesEachOnce(r: Report, ids: seq<string>, merged: Submission, solutions: Solutions)
    requires forall id :: id in ids ==> id in merged
  {
    forall id, b :: id in ids ==> (id in Ids(r.Of(b)) <==> b == BucketOf(merged, solutions, id))
  }

  /** Every entry of every list is one of `ids`, with that id's score. */
  ghost predicate EntriesScored(r: Report, ids: seq<string>, merged: Submission, solutions: Solutions)
    requires forall id :: id in ids ==> id in merged
  {
    forall b, e :: e in r.Of(b) ==>
      && e.id in ids
      && e.score == ScorePuzzle(merged[e.id], GroundTruth(solutions, e.id))
  }

  /** Every category list is in ascending id order. */
  ghost predicate ListsSorted(r: Report) {
    forall b :: StrictlySorted(Ids(r.Of(b)))
  }

  /** The classification loop over the tested ids in the given order. */
  function Categorise(ids: seq<string>, merged: Submission, solutions: Solutions): (r: Report)
    requires forall id :: id in ids ==> id in merged
    ensures r.Size() == |ids|
    ensures FilesEachOnce(r, ids, merged, solutions)
    ensures EntriesScored(r, ids, merged, solutions)
    ensures StrictlySorted(ids) ==> ListsSorted(r)
  {
    if ids == [] then Report([], [], [], [])
    else
      var front := ids[..|ids| - 1];
      var id := ids[|ids| - 1];
      assert ids == front + [id];
      var prev := Categorise(front, merged, solutions);
      var preds := merged[id];
      var gt := GroundTruth(solutions, id);
      var e := Entry(id, ScorePuzzle(preds, gt));
      var b := Classify(preds, gt);
      AddKeepsFiling(prev, front, id, b, e, merged, solutions);
      AddKeepsSorted(prev, front, id, b, e, merged, solutions);
      prev.Add(b, e)
  }

  /** The classification loop with has_data as written: `None` when the loop
      stops with an error at some id, which happens exactly when one of the
      ids has a `null` prediction entry before any entry with data and
      scores 0. When the loop runs to its end, its report is Categorise's. */
  function CategoriseAsWritten(ids: seq<string>, merged: Submission, solutions: Solutions): (r: Option<Report>)
    requires forall id :: id in ids ==> id in merged
    ensures r.None? <==> exists id :: id in ids && ClassifyAsWritten(merged[id], GroundTruth(solutions, id)).None?
    ensures r.Some? ==> r.value == Categorise(ids, merged, solutions)
  {
    if ids == [] then Some(Report([], [], [], []))
    else
      var front := ids[..|ids| - 1];
      var id := ids[|ids| - 1];
      assert ids == front + [id];
      var preds := merged[id];
      var gt := GroundTruth(solutions, id);
      match CategoriseAsWritten(front, merged, solutions)
      case None => None
      case Some(prev) =>
        match ClassifyAsWritten(preds, gt)
        case None => None
        case Some(b) => Some(prev.Add(b, Entry(id, ScorePuzzle(preds, gt))))
  }

  /** A tested puzzle whose first prediction entry is `null` and whose second
      entry is a wrong attempt stops the report as written, while the
      guarded reading files it under FAIL. */
  lemma NullBeforeDataStopsCategorise()
    ensures var merged := map["x" := [None, Some(Pack(Some([[1]]), None))]];
            var solutions := map["x" := [[[2]], [[3]]]];
            && CategoriseAsWritten(["x"], merged, solutions) == None
            && BucketOf(merged, solutions, "x") == Fail
  {
  }

  lemma IdsAppend(es: seq<Entry>, e: Entry)
    ensures Ids(es + [e]) == Ids(es) + [e.id]
  {
  }

  /** One step of the loop keeps every id filed once and every entry scored. */
  lemma AddKeepsFiling(prev: Report, front: seq<string>, id: string, b: Bucket, e: Entry,
                       merged: Submission, solutions: Solutions)
    requires forall x :: x in front + [id] ==> x in merged
    requires FilesEachOnce(prev, front, merged, solutions)
    requires EntriesScored(prev, front, merged, solutions)
    requires b == BucketOf(merged, solutions, id)
    requires e == Entry(id, ScorePuzzle(merged[id], GroundTruth(solutions, id)))
    ensures FilesEachOnce(prev.Add(b, e), front + [id], merged, solutions)
    ensures EntriesScored(prev.Add(b, e), front + [id], merged, solutions)
  {
    var r := prev.Add(b, e);
    IdsAppend(prev.Of(b), e);
    ListedIdsAreKnown(prev, front, merged, solutions);
    forall x, c | x in front + [id]
      ensures x in Ids(r.Of(c)) <==> c == BucketOf(merged, solutions, x)
    {
      if c != b {
        assert Ids(r.Of(c)) == Ids(prev.Of(c));
      }
    }
  }

  lemma ListedIdsAreKnown(r: Report, ids: seq<string>, merged: Submission, solutions: Solutions)
    requires forall id :: id in ids ==> id in merged
    requires EntriesScored(r, ids, merged, solutions)
    ensures forall c, x :: x in Ids(r.Of(c)) ==> x in ids
  {
    forall c, x | x in Ids(r.Of(c))
      ensures x in ids
    {
      var k :| 0 <= k < |Ids(r.Of(c))| && Ids(r.Of(c))[k] == x;
      assert r.Of(c)[k] in r.Of(c);
    }
  }

  /** One step of the loop over strictly sorted ids keeps the lists sorted. */
  lemma AddKeepsSorted(prev: Report, front: seq<string>, id: string, b: Bucket, e: Entry,
                       merged: Submission, solutions: Solutions)
    requires forall x :: x in front ==> x in merged
    requires StrictlySorted(front) ==> ListsSorted(prev)
    requires EntriesScored(prev, front, merged, solutions)
    requires e.id == id
    ensures StrictlySorted(front + [id]) ==> ListsSorted(prev.Add(b, e))
  {
    var ids := front + [id];
    if !StrictlySorted(ids) {
      return;
    }
    assert StrictlySorted(front) by {
      forall i, j | 0 <= i < j < |front|
        ensures StrLt(front[i], front[j])
      {
        assert ids[i] == front[i] && ids[j] == front[j];
      }
    }
    var r := prev.Add(b, e);
    IdsAppend(prev.Of(b), e);
    var ps := Ids(prev.Of(b));
    forall k | 0 <= k < |ps|
      ensures StrLt(ps[k], id)
    {
      assert prev.Of(b)[k] in prev.Of(b);
      var j :| 0 <= j < |front| && front[j] == ps[k];
      assert ids[j] == ps[k] && ids[|front|] == id;
    }
    forall c
      ensures StrictlySorted(Ids(r.Of(c)))
    {
      if c != b {
        assert Ids(r.Of(c)) == Ids(prev.Of(c));
      }
    }
  }

  /** The whole analysis: merge the two submission files, categorise every
      tested id in sorted order, and list the untested challenge ids sorted. */
  method Analyze(challengeIds: set<string>, solutions: Solutions, sub1: Submission, sub2: Submission)
    returns (merged: Submission, report: Report, untested: seq<string>)
    ensures merged == Merge(sub1, sub2)
    ensures report.Size() == |merged.Keys|
    ensures forall id, b :: id in merged ==> (id in Ids(report.Of(b)) <==> b == BucketOf(merged, solutions, id))
    ensures forall b, e :: e in report.Of(b) ==>
              && e.id in merged
              && e.score == ScorePuzzle(merged[e.id], GroundTruth(solutions, e.id))
    ensures forall b :: StrictlySorted(Ids(report.Of(b)))
    ensures StrictlySorted(untested)
    ensures forall id :: id in untested <==> id in challengeIds && id !in merged
    ensures forall id :: id in challengeIds ==> id in merged || id in untested
  {
    merged := Merge(sub1, sub2);
    var tested := SortIds(merged.Keys);
    report := Categorise(tested, merged, solutions);
    untested := SortIds(challengeIds - merged.Keys);
  }
}
