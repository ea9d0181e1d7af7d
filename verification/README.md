# ARC-AGI solver runner: scoring, result analysis and expert configuration

A Dafny model of the pure logic around the Poetiq ARC-AGI solver stack:

- **Scoring and the status report** (`analyze_results.py`). `score_puzzle` compares each test input's two attempts (`attempt_1`, `attempt_2`) with the ground-truth grid by structural equality. `has_data` decides whether a puzzle's predictions hold any real attempt. The report files every tested puzzle under PASS, PARTIAL, FAIL or ERROR. As written it stops with an error on a puzzle that scores 0 and has a `null` prediction entry before any entry with data (see "## Findings"); the model files such a puzzle under the corrected reading and states separately when the as-written loop stops. The report merges two submission files, the later one winning, and lists the untested challenge ids in sorted order.
- **The expert configuration** (`arc_agi/config.py`). `DEFAULT_MODEL` is chosen from the `USE_OPENROUTER` setting. `CONFIG_LIST` is one configuration literal replicated `NUM_EXPERTS` times.
- **The GPT-5.1 runner** (`run_arc2_gpt5_1.py`). `build_expert_configs` copies every entry and sets its model to `openai/gpt-5.1`. Each task record is split into `train_in` / `train_out` / `test_in`. The loop over the selected task ids skips an id that is missing from the challenges.

Grids are `seq<seq<int>>`. An attempt or a prediction entry that may be `null` is an `Option`. Scores are exact `real` fractions. A configuration is an immutable record. In `Runner.BuildExpertConfigsInHeap`, Python's dictionaries-by-reference are modelled as a heap of records, which makes the aliasing in `CONFIG_LIST` and the copy before the override visible.

Modules: `Grids` (shared value types), `Ordering` (Python's `str` order and `sorted` on a set of ids), `Scoring`, `Analysis`, `Config`, `Runner`.

## Model

| member | source | states |
|---|---|---|
| `Scoring.CorrectCount` | analyze_results.py:27-35 | The loop's counter never exceeds the number of ground-truth grids visited. It equals that number iff every visited index is solved, and it is 0 iff none is. An index counts as solved when a non-null entry exists for it and one of its attempts is present and equal to the ground truth. |
| `Scoring.ScorePuzzle` | analyze_results.py:23-36 | The score is 0 when the ground truth or the predictions are empty, and always lies in [0, 1]. It is 1 iff both are non-empty and every test index is solved by one of its two attempts. It is positive iff some index is solved. Missing and `null` entries are never solved. |
| `Scoring.CorrectCountIsCardinality` | analyze_results.py:27-35 | The counter equals the number of solved test indices. |
| `Scoring.ScoreIsFractionSolved` | analyze_results.py:36 | For non-empty inputs, the score is the number of solved indices divided by the number of ground-truth grids. |
| `Scoring.ExtraPredictionsIgnored` | analyze_results.py:28-31 | Prediction entries beyond the ground truth's length do not change the score. |
| `Scoring.HasData` | analyze_results.py:38-42 | False for an empty list. True iff some entry is non-null and has a truthy `attempt_1` or `attempt_2`. A truthy attempt is present and not the empty list. |
| `Scoring.HasDataAsWritten` | analyze_results.py:38-42 | When it returns, it agrees with `HasData`. It raises (`None`) iff a `null` entry comes before any entry with data. |
| `Scoring.Classify` | analyze_results.py:55-67 | PASS iff every test index is solved (and the inputs are non-empty). PARTIAL iff some indices are solved and some are not. FAIL iff none is solved and the predictions have data. ERROR iff none is solved and they have no data. Because these conditions are mutually exclusive, every puzzle lands in exactly one bucket. |
| `Scoring.ClassifyAsWritten` | analyze_results.py:58-67 | When the loop body completes, its bucket is `Classify`'s. It stops with an error iff no index is solved and `has_data` as written raises. |
| `Scoring.NullEntryStopsReport` | analyze_results.py:31-42 | Take a single `null` prediction for a one-test puzzle. The report as written stops with an error, while the guarded reading files the puzzle under ERROR. |
| `Analysis.Merge` | analyze_results.py:21 | The merged keys are the union of both files' keys. The second file's entry wins on a shared id, and an id only in the first keeps the first's entry. |
| `Analysis.MergeKeepsLatest` | analyze_results.py:21 | Merging the later file again, on either side, changes nothing. |
| `Analysis.MissingGroundTruthNeverSolved` | analyze_results.py:57-58 | A tested id with no solutions entry scores 0 and is filed under FAIL or ERROR only. |
| `Analysis.Categorise` | analyze_results.py:55-67 | The four lists together hold exactly as many entries as there are tested ids. Each id is in the list of its own bucket and in no other. Every entry carries its id's score. Sorted ids give sorted lists. |
| `Analysis.CategoriseAsWritten` | analyze_results.py:55-67 | The loop with `has_data` as written stops with an error iff some tested id scores 0 with a `null` entry before any entry with data. When it runs to its end, its report is `Categorise`'s. |
| `Analysis.NullBeforeDataStopsCategorise` | analyze_results.py:38-64 | A puzzle with predictions `[null, wrong attempt]` stops the as-written loop, while the corrected reading files it under FAIL. |
| `Analysis.Analyze` | analyze_results.py:16-67 | Every merged id is filed in exactly one bucket, each entry carries its puzzle's score, and the bucket lists are sorted. The untested ids are sorted and are exactly the challenge ids not in the merge. Every challenge id is either tested or untested. |
| `Ordering.SortIds` | analyze_results.py:46 | `sorted` of a set of ids: strictly ascending, with the set's members and nothing else. |
| `Ordering.StrLtIsLexicographic` | analyze_results.py:46 | The string order used by `sorted` is lexicographic order: either a proper prefix, or a smaller character at the first difference. |
| `Ordering.SortedListingUnique` | analyze_results.py:46 | Two strictly sorted lists with the same members are equal, so the sorted listing of a set is determined by the set. |
| `Config.DefaultModel` | arc_agi/config.py:13-20 | `DEFAULT_MODEL` is the OpenRouter id iff `USE_OPENROUTER` is set and spells "true" in any letter case. Otherwise, including when it is unset, it is the direct Gemini id. |
| `Config.LowerIsTrue` | arc_agi/config.py:13 | A value lowercases to "true" iff it is t/T, r/R, u/U, e/E in that order. |
| `Config.Replicate` | arc_agi/config.py:22-49 | Replicating a one-element list `n` times gives `n` entries (none for `n` ≤ 0), each equal to the replicated element. |
| `Config.ConfigListShape` | arc_agi/config.py:9-49 | `CONFIG_LIST` has `NUM_EXPERTS` = 2 entries, all equal. Each entry is valid: selection probability in [0, 1], non-negative counts, and `num_experts` ≥ 1. Each routes to `DEFAULT_MODEL` with a 3600-second request timeout, no total-time cap and one clone. |
| `Config.ExpertCountOfReplicate` | arc_agi/config.py:49 | `n` copies of a record ask for `n` times its `num_experts` solver instances. |
| `Config.ShippedExpertCount` | arc_agi/config.py:9-49 | The shipped list asks for exactly `NUM_EXPERTS` solver instances. |
| `Runner.BuildExpertConfigs` | run_arc2_gpt5_1.py:57-63 | There is one result per `CONFIG_LIST` entry, in order. Every result has model `openai/gpt-5.1`, and every other field equals the source entry's field. |
| `Runner.BuildExpertConfigsKeepsValid` | run_arc2_gpt5_1.py:57-63 | Valid source entries give valid derived entries. |
| `Runner.ExpertConfigsIgnoreRouting` | run_arc2_gpt5_1.py:61 | The derived experts are the same whatever `USE_OPENROUTER` says. |
| `Runner.ConfigListInHeap` | arc_agi/config.py:22-49 | `CONFIG_LIST` is `NUM_EXPERTS` references to one shared dictionary, and their values are the entries of `Config.ConfigList`. |
| `Runner.BuildExpertConfigsInHeap` | run_arc2_gpt5_1.py:57-63 | Each entry is copied before `llm_id` is assigned, so every pre-existing object, the shared `CONFIG_LIST` entry included, is unchanged. The results are fresh, pairwise distinct objects, and their values are `BuildExpertConfigs` of the source values. |
| `Runner.SplitTask` | run_arc2_gpt5_1.py:92-96 | `train_in` and `train_out` have the train list's length and `test_in` has the test list's length. A missing key counts as an empty list. Zipping the parts back gives the original lists, so order and pairing are kept. |
| `Runner.RunShipped` | run_arc2_gpt5_1.py:48-54 | With the shipped `SELECTED_PROBLEMS`, the submission's keys are among the five listed ids, and each listed id is present exactly when the challenges file holds it. |
| `Runner.RunSelected` | run_arc2_gpt5_1.py:86-123 | The submission's keys are exactly the selected ids present in the challenges, so they are a subset of the selected ids. A missing id is skipped and the loop continues. Each recorded entry is the formatted solver output for that task's split, computed with the derived experts. |

## Left out

- `solve_parallel_coding`, `build_kaggle_two_attempts`, `score_task`, the prompts and the `ExpertConfig` type are not part of this model. In `Runner.RunSelected` the solver and the formatter are uninterpreted function parameters. The prompts are represented by their names only.
- Exceptions and cancellation around the solver call (run_arc2_gpt5_1.py:101-118) are left out, because they are runtime effects. In the source they end the whole run without writing the submission. The model treats the solver as total.
- File and JSON I/O, `load_dotenv`, the `OPENAI_API_KEY` check, timing, the log file and every printed line of the report are left out as I/O. The `USE_OPENROUTER` value is a parameter (`None` when unset). The "(94 remaining)" header is fixed text and is not modelled.
- Floating point is not modelled. Scores are exact fractions. Float division `c / n` equals 1.0 exactly when `c = n` for any realistic number of test inputs. The `:.2f`, `:.3f` and `:.6f` formatting and the summary percentage are not modelled.
- `Config.Lower` models `str.lower` on ASCII letters only. Unicode case mappings beyond ASCII are not modelled.
- `solver_temperature` is carried as an unconstrained number, because the source does not limit it.
- Prediction entries and attempts are modelled as well-formed JSON values: an entry is a dictionary or `null`, and an attempt is a grid or `null`. Other JSON shapes are not modelled.
- Runner.SplitTask: task records are modelled as well-formed: every train example has `input` and `output`, every test entry has `input`, and `train`/`test` are lists or missing. In the source, a missing `input`/`output` key raises `KeyError` and a `null` `train`/`test` value raises `TypeError` at run_arc2_gpt5_1.py:92-96; these lines are outside the `try`, so the run ends without writing the submission. That path is not modelled.
- Analysis.Categorise and Analysis.Analyze model the classification loop with the corrected `has_data` (a `null` entry holds no data), so they file every tested id. The loop as written stops at the first id where `has_data` raises; `Analysis.CategoriseAsWritten` states exactly when that happens and that otherwise the report is the same.
- run_arc2_eval_subset.py and run_arc2_sample.py are driver scripts. Their task split is the same code as run_arc2_gpt5_1.py:92-96 and is modelled once, by `Runner.SplitTask`.

## Findings

| source | as written | input that shows it | evidently intended | confidence | as-written member | corrected member |
|---|---|---|---|---|---|---|
| analyze_results.py:38-42 | `has_data` reads every entry as a dictionary. It lacks the fallback from `null` to an empty dictionary that `score_puzzle` applies at line 31, so a `null` entry reached before any entry with data raises `AttributeError`, and the report stops. | For one puzzle, predictions `[None]` and ground truth `[[[1]]]`. The score is 0, so the loop calls `has_data`, which raises. | A `null` entry counts as holding no attempt, and the puzzle is filed under ERROR. | high that it raises as written; not executed | `Scoring.HasDataAsWritten`, `Scoring.ClassifyAsWritten`, `Scoring.NullEntryStopsReport`, `Analysis.CategoriseAsWritten` | `Scoring.HasData`, `Scoring.Classify`, `Analysis.Categorise` |
