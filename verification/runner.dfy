/** The pure parts of the GPT-5.1 training runner (run_arc2_gpt5_1.py): the
    expert configurations derived from CONFIG_LIST, the split of a task
    record into the solver's argument lists, and the loop over the selected
    task ids that fills the submission. */
module Runner {
  import opened Grids
  import opened Config

  const GPT_5_1: string := "openai/gpt-5.1"

  /** build_expert_configs on configuration values: each entry with its
      model replaced by GPT-5.1 and every other field kept, in order. */
  function BuildExpertConfigs(list: seq<ExpertConfig>): (r: seq<ExpertConfig>)
    ensures |r| == |list|
    ensures forall i :: 0 <= i < |r| ==> r[i].llmId == GPT_5_1
    ensures forall i :: 0 <= i < |r| ==> r[i].(llmId := list[i].llmId) == list[i]
  {
    seq(|list|, i requires 0 <= i < |list| => list[i].(llmId := GPT_5_1))
  }

  /** Replacing the model keeps a configuration in its legal ranges. */
  lemma BuildExpertConfigsKeepsValid(list: seq<ExpertConfig>)
    requires forall c :: c in list ==> Valid(c)
    ensures forall c :: c in BuildExpertConfigs(list) ==> Valid(c)
  {
    var r := BuildExpertConfigs(list);
    forall c | c in r
      ensures Valid(c)
    {
      var i :| 0 <= i < |r| && r[i] == c;
      assert list[i] in list;
    }
  }

  /** The runner's experts do not depend on USE_OPENROUTER: the only field
      that setting decides is the one the runner overrides. */
  lemma ExpertConfigsIgnoreRouting(env1: Option<string>, env2: Option<string>)
    ensures BuildExpertConfigs(ConfigList(env1)) == BuildExpertConfigs(ConfigList(env2))
  {
  }

  /** Python dictionaries by reference: a heap of configuration objects,
      a reference being an index into it. */
  datatype Heap = Heap(objects: seq<ExpertConfig>)

  /** The objects a list of references points to, in order. */
  function Deref(h: Heap, refs: seq<nat>): (r: seq<ExpertConfig>)
    requires forall i :: 0 <= i < |refs| ==> refs[i] < |h.objects|
    ensures |r| == |refs|
  {
    seq(|refs|, i requires 0 <= i < |refs| => h.objects[refs[i]])
  }

  /** CONFIG_LIST as Python builds it, by replicating a one-element list:
      NUM_EXPERTS references to the single dictionary. */
  function ConfigListInHeap(env: Option<string>): (r: (Heap, seq<nat>))
    ensures |r.1| == NUM_EXPERTS
    ensures forall i :: 0 <= i < |r.1| ==> r.1[i] == r.1[0] < |r.0.objects|
    ensures Deref(r.0, r.1) == ConfigList(env)
  {
    (Heap([BaseConfig(env)]), Replicate(0, NUM_EXPERTS))
  }

  /** build_expert_configs over references: each entry is first copied into
      a new object, and only the copy's `llm_id` is assigned. Every object
      that existed before, the shared CONFIG_LIST entry among them, is left
      as it was; the results are fresh, pairwise distinct objects whose
      values are those of BuildExpertConfigs. */
  method BuildExpertConfigsInHeap(h: Heap, refs: seq<nat>) returns (h': Heap, out: seq<nat>)
    requires forall i :: 0 <= i < |refs| ==> refs[i] < |h.objects|
    ensures |h.objects| <= |h'.objects|
    ensures h'.objects[..|h.objects|] == h.objects
    ensures |out| == |refs|
    ensures forall i :: 0 <= i < |out| ==> |h.objects| <= out[i] < |h'.objects|
    ensures forall i, j :: 0 <= i < j < |out| ==> out[i] != out[j]
    ensures Deref(h', out) == BuildExpertConfigs(Deref(h, refs))
  {
    h' := h;
    out := [];
    for k := 0 to |refs|
      invariant |h'.objects| == |h.objects| + k
      invariant h'.objects[..|h.objects|] == h.objects
      invariant |out| == k
      invariant forall i :: 0 <= i < k ==> out[i] == |h.objects| + i
      invariant forall i :: 0 <= i < k ==> h'.objects[out[i]] == h.objects[refs[i]].(llmId := GPT_5_1)
    {
      // a shallow copy of the entry, as a new object
      var copy := |h'.objects|;
      h' := Heap(h'.objects + [h'.objects[refs[k]]]);
      // the model field is assigned on the copy only
      h' := Heap(h'.objects[copy := h'.objects[copy].(llmId := GPT_5_1)]);
      out := out + [copy];
    }
  }

  /** One train example of a task record. */
  datatype Example = Example(input: Grid, output: Grid)

  /** One test entry of a task record (its `output` is held back). */
  datatype TestCase = TestCase(input: Grid)

  /** A task record of the challenges file; `None` for a missing key. */
  datatype TaskRecord = TaskRecord(train: Option<seq<Example>>, test: Option<seq<TestCase>>)

  /** The solver's three argument lists. */
  datatype Split = Split(trainIn: seq<Grid>, trainOut: seq<Grid>, testIn: seq<Grid>)

  function Zip(ins: seq<Grid>, outs: seq<Grid>): (r: seq<Example>)
    requires |ins| == |outs|
    ensures |r| == |ins|
  {
    if ins == [] then [] else [Example(ins[0], outs[0])] + Zip(ins[1..], outs[1..])
  }

  function AsTestCases(ins: seq<Grid>): (r: seq<TestCase>)
    ensures |r| == |ins|
  {
    if ins == [] then [] else [TestCase(ins[0])] + AsTestCases(ins[1..])
  }

  /** The task's `train` and `test` lists (empty when the key is missing)
      split into inputs and outputs. Zipping the parts back gives the
      original lists: lengths, order and pairing are all kept. */
  function SplitTask(t: TaskRecord): (s: Split)
    ensures |s.trainIn| == |s.trainOut| == |t.train.GetOr([])|
    ensures |s.testIn| == |t.test.GetOr([])|
    ensures Zip(s.trainIn, s.trainOut) == t.train.GetOr([])
    ensures AsTestCases(s.testIn) == t.test.GetOr([])
  {
    var train := t.train.GetOr([]);
    var test := t.test.GetOr([]);
    var s := Split(
      seq(|train|, i requires 0 <= i < |train| => train[i].input),
      seq(|train|, i requires 0 <= i < |train| => train[i].output),
      seq(|test|, i requires 0 <= i < |test| => test[i].input));
    ZipOfProjections(train);
    TestCasesOfProjection(test);
    s
  }

  lemma {:induction false} ZipOfProjections(train: seq<Example>)
    ensures Zip(seq(|train|, i requires 0 <= i < |train| => train[i].input),
                seq(|train|, i requires 0 <= i < |train| => train[i].output)) == train
  {
    if train != [] {
      var ins := seq(|train|, i requires 0 <= i < |train| => train[i].input);
      var outs := seq(|train|, i requires 0 <= i < |train| => train[i].output);
      ZipOfProjections(train[1..]);
      assert ins[1..] == seq(|train[1..]|, i requires 0 <= i < |train[1..]| => train[1..][i].input);
      assert outs[1..] == seq(|train[1..]|, i requires 0 <= i < |train[1..]| => train[1..][i].output);
      assert train == [train[0]] + train[1..];
    }
  }

  lemma {:induction false} TestCasesOfProjection(test: seq<TestCase>)
    ensures AsTestCases(seq(|test|, i requires 0 <= i < |test| => test[i].input)) == test
  {
    if test != [] {
      var ins := seq(|test|, i requires 0 <= i < |test| => test[i].input);
      TestCasesOfProjection(test[1..]);
      assert ins[1..] == seq(|test[1..]|, i requires 0 <= i < |test[1..]| => test[1..][i].input);
      assert test == [test[0]] + test[1..];
    }
  }

  /** The submission entry the runner records for one task: the solver (an
      uninterpreted function standing for solve_parallel_coding) run on the
      split task with the derived experts, its results formatted by an
      uninterpreted build_kaggle_two_attempts. */
  function Predict<R>(t: TaskRecord, id: string, configList: seq<ExpertConfig>,
                      solve: (seq<Grid>, seq<Grid>, seq<Grid>, seq<ExpertConfig>, string) -> R,
                      format: (R, seq<Grid>) -> Preds): Preds
  {
    var s := SplitTask(t);
    format(solve(s.trainIn, s.trainOut, s.testIn, BuildExpertConfigs(configList), id), s.testIn)
  }

  /** The loop over the selected ids: an id missing from the challenges is
      skipped and the loop goes on; every other id gets its predictions. */
  method RunSelected<R>(selected: seq<string>, challenges: map<string, TaskRecord>,
                        configList: seq<ExpertConfig>,
                        solve: (seq<Grid>, seq<Grid>, seq<Grid>, seq<ExpertConfig>, string) -> R,
                        format: (R, seq<Grid>) -> Preds)
    returns (submission: map<string, Preds>)
    ensures forall id :: id in submission <==> id in selected && id in challenges
    ensures forall id :: id in submission ==> submission[id] == Predict(challenges[id], id, configList, solve, format)
  {
    submission := map[];
    for k := 0 to |selected|
      invariant forall id :: id in submission <==> id in selected[..k] && id in challenges
      invariant forall id :: id in submission ==> submission[id] == Predict(challenges[id], id, configList, solve, format)
    {
      var id := selected[k];
      if id !in challenges {
        continue;
      }
      var s := SplitTask(challenges[id]);
      var results := solve(s.trainIn, s.trainOut, s.testIn, BuildExpertConfigs(configList), id);
      submission := submission[id := format(results, s.testIn)];
    }
    assert selected[..|selected|] == selected;
  }

  /** The training task ids the runner is shipped to run. */
  const SELECTED_PROBLEMS: seq<string> := ["dc2e9a9d", "8b28cd80", "7d419a02", "4ff4c9da", "477d2879"]

  /** The shipped run: only the five selected ids can appear in the
      submission, each exactly when the challenges file holds it. */
  method RunShipped<R>(challenges: map<string, TaskRecord>, configList: seq<ExpertConfig>,
                       solve: (seq<Grid>, seq<Grid>, seq<Grid>, seq<ExpertConfig>, string) -> R,
                       format: (R, seq<Grid>) -> Preds)
    returns (submission: map<string, Preds>)
    ensures submission.Keys <= {"dc2e9a9d", "8b28cd80", "7d419a02", "4ff4c9da", "477d2879"}
    ensures forall id :: id in SELECTED_PROBLEMS ==> (id in submission <==> id in challenges)
  {
    submission := RunSelected(SELECTED_PROBLEMS, challenges, configList, solve, format);
  }
}
