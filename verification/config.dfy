/** The shipped expert configuration (arc_agi/config.py): the model id chosen
    from the USE_OPENROUTER setting and CONFIG_LIST, one configuration
    record replicated NUM_EXPERTS times. */
module Config {
  import opened Grids

  /** The prompt templates an expert refers to, by name. Their text lives in
      arc_agi/prompts.py, which is not part of this model. */
  datatype Prompt = SolverPrompt1 | SolverPrompt2 | SolverPrompt3 | FeedbackPrompt

  /** One expert's configuration dictionary, field by field. Durations are in
      seconds; `maxTotalTime` is `None` for "no limit". */
  datatype ExpertConfig = ExpertConfig(
    solverPrompt: Prompt,
    feedbackPrompt: Prompt,
    llmId: string,
    solverTemperature: real,
    requestTimeout: int,
    maxTotalTimeouts: int,
    maxTotalTime: Option<int>,
    perIterationRetries: int,
    numExperts: int,
    maxIterations: int,
    maxSolutions: int,
    selectionProbability: real,
    seed: int,
    shuffleExamples: bool,
    improvingOrder: bool,
    returnBestResult: bool,
    useNewVoting: bool,
    countFailedMatches: bool,
    itersTiebreak: bool,
    lowToHighIters: bool)

  /** The legal ranges of the fields: a probability in [0, 1], a positive
      request timeout, non-negative counts and at least one expert clone. */
  predicate Valid(c: ExpertConfig) {
    && 0.0 <= c.selectionProbability <= 1.0
    && c.requestTimeout > 0
    && c.maxTotalTimeouts >= 0
    && (c.maxTotalTime.Some? ==> c.maxTotalTime.value >= 0)
    && c.perIterationRetries >= 0
    && c.numExperts >= 1
    && c.maxIterations >= 0
    && c.maxSolutions >= 0
  }

  const NUM_EXPERTS: int := 2
  const GEMINI_DIRECT: string := "gemini/gemini-3-pro-preview"
  const GEMINI_OPENROUTER: string := "openrouter/google/gemini-3-pro-preview"

  /** `str.lower` on one character, for the ASCII letters. */
  function LowerChar(c: char): char {
    if 'A' <= c <= 'Z' then (c as int + 32) as char else c
  }

  function Lower(s: string): (r: string)
    ensures |r| == |s|
  {
    seq(|s|, i requires 0 <= i < |s| => LowerChar(s[i]))
  }

  /** Whether the lowercased USE_OPENROUTER value, "false" when unset, is
      "true". The environment value is passed in (`None` when unset). */
  function UseOpenRouter(env: Option<string>): bool {
    Lower(env.GetOr("false")) == "true"
  }

  /** The spellings of "true" in any mix of letter case. */
  predicate TrueInAnyCase(s: string) {
    && |s| == 4
    && (s[0] == 't' || s[0] == 'T')
    && (s[1] == 'r' || s[1] == 'R')
    && (s[2] == 'u' || s[2] == 'U')
    && (s[3] == 'e' || s[3] == 'E')
  }

  lemma LowerIsTrue(s: string)
    ensures Lower(s) == "true" <==> TrueInAnyCase(s)
  {
    if TrueInAnyCase(s) {
      assert Lower(s) == "true";
    }
    if Lower(s) == "true" {
      assert Lower(s)[0] == 't' && Lower(s)[1] == 'r' && Lower(s)[2] == 'u' && Lower(s)[3] == 'e';
    }
  }

  /** DEFAULT_MODEL: the OpenRouter route exactly when USE_OPENROUTER spells
      "true" in some letter case, the direct Gemini id otherwise, including
      when the variable is unset. */
  function DefaultModel(env: Option<string>): (m: string)
    ensures m == GEMINI_OPENROUTER <==> env.Some? && TrueInAnyCase(env.value)
    ensures m == GEMINI_DIRECT <==> !(env.Some? && TrueInAnyCase(env.value))
    ensures env.None? ==> m == GEMINI_DIRECT
  {
    LowerIsTrue(env.GetOr("false"));
    if UseOpenRouter(env) then GEMINI_OPENROUTER else GEMINI_DIRECT
  }

  /** List replication: `n` copies of `x`, none when `n` is not positive. */
  function Replicate<T>(x: T, n: int): (r: seq<T>)
    ensures |r| == if n <= 0 then 0 else n
    ensures forall i :: 0 <= i < |r| ==> r[i] == x
    decreases n
  {
    if n <= 0 then [] else [x] + Replicate(x, n - 1)
  }

  /** The one configuration literal of CONFIG_LIST. */
  function BaseConfig(env: Option<string>): ExpertConfig {
    ExpertConfig(
      solverPrompt := SolverPrompt1,
      feedbackPrompt := FeedbackPrompt,
      llmId := DefaultModel(env),
      solverTemperature := 1.0,
      requestTimeout := 60 * 60,
      maxTotalTimeouts := 15,
      maxTotalTime := None,
      perIterationRetries := 2,
      numExperts := 1,
      maxIterations := 10,
      maxSolutions := 5,
      selectionProbability := 1.0,
      seed := 0,
      shuffleExamples := true,
      improvingOrder := true,
      returnBestResult := true,
      useNewVoting := true,
      countFailedMatches := true,
      itersTiebreak := false,
      lowToHighIters := false)
  }

  /** CONFIG_LIST for a given USE_OPENROUTER setting. */
  function ConfigList(env: Option<string>): seq<ExpertConfig> {
    Replicate(BaseConfig(env), NUM_EXPERTS)
  }

  /** CONFIG_LIST has NUM_EXPERTS = 2 entries, all the same record, each one
      valid, routed to DEFAULT_MODEL, with a one-hour request timeout, no
      wall-clock cap and a single clone. */
  lemma ConfigListShape(env: Option<string>)
    ensures |ConfigList(env)| == NUM_EXPERTS == 2
    ensures forall i, j :: 0 <= i < j < |ConfigList(env)| ==> ConfigList(env)[i] == ConfigList(env)[j]
    ensures forall c :: c in ConfigList(env) ==>
              && Valid(c)
              && c.llmId == DefaultModel(env)
              && c.requestTimeout == 3600
              && c.maxTotalTime == None
              && c.numExperts == 1
  {
  }

  /** The number of solver instances a configuration list asks for, each
      entry standing for `num_experts` clones. */
  function ExpertCount(list: seq<ExpertConfig>): int {
    if list == [] then 0 else list[0].numExperts + ExpertCount(list[1..])
  }

  lemma {:induction false} ExpertCountOfReplicate(c: ExpertConfig, n: int)
    ensures ExpertCount(Replicate(c, n)) == (if n <= 0 then 0 else n) * c.numExperts
    decreases n
  {
    if n > 0 {
      ExpertCountOfReplicate(c, n - 1);
      assert Replicate(c, n)[1..] == Replicate(c, n - 1);
    }
  }

  /** With one clone per entry, the shipped list asks for exactly NUM_EXPERTS
      solver instances, whatever the model setting. */
  lemma ShippedExpertCount(env: Option<string>)
    ensures ExpertCount(ConfigList(env)) == NUM_EXPERTS
  {
    ExpertCountOfReplicate(BaseConfig(env), NUM_EXPERTS);
  }
}
