# Employee turnover pipeline: a Dafny model of the repository's own logic

The repository predicts employee turnover risk. Model fitting, scaling,
encoding, splitting, metrics and persistence are all library calls. What the
repository decides for itself is modelled here as pure functions with proved
contracts:

- **Record filtering and feature selection** (`preprocess_data`). Rows whose
  `employee_id` is missing are dropped, and the survivors keep their order.
  The fixed list of 15 candidate features is intersected with the table's
  columns in candidate order; absent names are dropped without error.
  Features `X`, labels `y` and `ids` stay row-aligned.
- **Numeric/categorical split** (`select_dtypes` in
  `train_and_evaluate_model`). Object and category columns are categorical;
  int64 and float64 columns are numeric. Any other dtype, such as bool or
  datetime, is in neither group.
- **Risk tiering** (`predict_turnover_risk`). `pd.cut` is called with bins
  `[0, 0.3, 0.6, 1]` and its defaults (`right=True`, `include_lowest=False`).
  The tiers are Low for `(0, 0.3]`, Medium for `(0.3, 0.6]` and High for
  `(0.6, 1]`. Any other probability, including exactly `0.0`, gets NaN. The
  output has one row per id, in order.
- **Connection retries** (`create_db_connection` in the ingestion script).
  The script makes up to 30 attempts, with a 2-second pause after each failed
  attempt except the last. It returns the first engine that connects, or
  re-raises the last attempt's exception. The handler catches `Exception`,
  and every failed attempt here is one.

Modules:

| file | module | contents |
|---|---|---|
| wrappers.dfy | `Wrappers` | `Option`, `Result` |
| sequences.dfy | `Sequences` | order-preserving `Filter`, `Map`, `IsSubsequence`, `Distinct`, and their lemmas |
| frame.dfy | `Frame` | a DataFrame as columns, dtypes and rows of cells; `WellFormed`, `Get`, `Column`, `Project`, `Select`; the errors the code can raise |
| features.dfy | `Features` | `preprocess_data` and the dtype split |
| risk.dfy | `Risk` | `pd.cut`, risk tiers and `predict_turnover_risk` |
| pipeline.dfy | `Pipeline` | `main` of the prediction script, from the loaded table to the prediction rows |
| retry.dfy | `Retry` | `create_db_connection` as a function over attempt outcomes, with a trace of attempts and pauses |

Modelling choices:

- A missing cell (`None`, NaN, NaT, i.e. whatever `isna` flags) is `Value.Null`.
- Indexing a column that does not exist raises `KeyError` in `preprocess_data`.
  Here that is `Failure(MissingColumn(name))`. `employee_id` is indexed
  before `is_turnover`, so a table lacking both reports `employee_id`.
- `pd.DataFrame({...})` raises `ValueError` when the id series and the
  probability array differ in length. Here that is
  `Failure(LengthMismatch(..))`.
- The fitted model is the parameter `model: Row -> real`, standing for the
  positive-class column of `predict_proba`. That call scores each row on its
  own.
- The retry loop's environment is `connect: nat -> Attempt`, the outcome of
  each attempt: an engine, or an `Exception` the handler catches. Sleeping is a `Sleep(seconds)` event in the returned trace,
  and printing is not modelled. With a limit of 0 the Python loop never runs
  and the function returns `None`. That case is `NoResult`, and it is proved
  impossible for the constant limit of 30.
- The candidate feature list is a parameter of `PreprocessData` and
  `RunPipeline`. `TurnoverMain` supplies the fixed list `CandidateFeatures`.
  Its type `FeatureList` records that the list has no repeats.

Behaviour of the code worth noting:

- The tiering does not cover all of `[0, 1]`. `pd.cut` with
  `include_lowest=False` leaves a probability of exactly `0.0` without a tier
  (NaN). `Risk.TierOfEdges` states this.
- The code uses the boundary pair `(0.3, 0.6)`. `Risk.RiskLevel`
  takes the pair as parameters; `Risk.TierOf` fixes it to `(0.3, 0.6)`.
- Columns are split by pandas dtype, not by inspecting values. A bool column
  lands in neither group.
- Ids are not checked for uniqueness. Only rows with a missing id are dropped.

## Model

| member | source | states |
|---|---|---|
| Features.SelectPresent | ml/predict_turnover.py:60-68 | a name is selected iff it is a candidate and a column of the table; each name occurs as often as in the candidate list if present, else not at all; the selection is a subsequence of the candidates (candidate order kept) |
| Features.SelectPresentUnique | ml/predict_turnover.py:60-68 | for a repeat-free candidate list, the selection is the only candidate-ordered subsequence with exactly those members |
| Features.SelectPresentDistinct | ml/predict_turnover.py:60-68 | the selected features contain no duplicates when the candidates contain none |
| Features.DropNullIds | ml/predict_turnover.py:53-54 | every kept row has an id; each row with an id is kept exactly as often as it occurs and each row without one is dropped; the kept rows are a subsequence of the input (original order) |
| Features.Prepare | ml/predict_turnover.py:49-77 | features are exactly the present candidates in candidate order; `X` is well formed with those columns and their original dtypes; `X`, `y` and `ids` each have one entry per row with an id |
| Features.PrepareAligned | ml/predict_turnover.py:54-77 | position i of `ids`, `y` and `X` all come from the i-th row that has an id: its non-missing id, its label, and its cells in the selected columns |
| Features.PreprocessData | ml/predict_turnover.py:49-77 | fails iff `employee_id` or `is_turnover` is not a column, naming `employee_id` first; otherwise yields the prepared features, labels and ids |
| Features.SelectDtypes | ml/predict_turnover.py:116-117 | a column is listed iff its dtype is one of the requested kinds; the list keeps column order |
| Features.PartitionByDtype | ml/predict_turnover.py:115-117 | categorical = object/category columns, numeric = int64/float64 columns, both in column order; the groups are disjoint and a column of any other dtype is in neither |
| Frame.Column | ml/predict_turnover.py:57-74 | `df['is_turnover']` / `df['employee_id']`: one cell per row, in row order, and for an existing column of a well-formed table the i-th entry is row i's own cell in that column |
| Frame.Select | ml/predict_turnover.py:70-71 | `df[names]` keeps every row and changes only columns: same row count, each row cut to the listed columns with unchanged cells and dtypes, result well formed |
| Risk.CutIndex | ml/predict_turnover.py:180-184 | `pd.cut` with `right=True, include_lowest=False`: a bin is found iff `bins[0] < x <= bins[last]`, and bin i satisfies `bins[i] < x <= bins[i+1]` |
| Risk.CutIndexUnique | ml/predict_turnover.py:180-184 | a value inside `(bins[i], bins[i+1]]` is put in bin i and no other |
| Risk.CutIndexMonotone | ml/predict_turnover.py:180-184 | a larger value never lands in a lower bin |
| Risk.TierOf | ml/predict_turnover.py:180-184 | the call the pipeline makes: Low iff `0 < p <= 0.3`, Medium iff `0.3 < p <= 0.6`, High iff `0.6 < p <= 1`, no tier (NaN) iff `p <= 0` or `p > 1` |
| Risk.RiskLevel | ml/predict_turnover.py:180-184 | with bins `[0, lowMax, midMax, 1]`: Low iff `0 < p <= lowMax`, Medium iff `lowMax < p <= midMax`, High iff `midMax < p <= 1`, no tier iff `p <= 0` or `p > 1` |
| Risk.RiskLevelMonotone | ml/predict_turnover.py:180-184 | for `0 < p <= q <= 1` both get a tier and tier(p) <= tier(q) in the order Low < Medium < High |
| Risk.TierOfEdges | ml/predict_turnover.py:180-184 | with `(0.3, 0.6)`: 0.0 gets no tier, 0.3 is Low, 0.6 is Medium, 1.0 is High, and 0.25/0.45/0.95 are Low/Medium/High |
| Risk.PredictTurnoverRisk | ml/predict_turnover.py:172-193 | fails with `LengthMismatch` exactly when the ids and the rows differ in length (the fitted model's own exceptions are not modelled); otherwise one prediction per id, in order, pairing id i with the model's probability for row i and that probability's tier |
| Pipeline.RunPipeline | ml/predict_turnover.py:203-220 | for an already fitted model: fails with `MissingColumn` exactly when `employee_id` or `is_turnover` is absent; otherwise one prediction per row with an id, each with a non-missing id and the tier of its own probability (failures of training are not modelled) |
| Pipeline.RunPipelineOnePerId | ml/predict_turnover.py:177-191 | the output ids are exactly the non-missing values of the input's `employee_id` column in input order, and prediction i carries the model's probability for the selected features of the i-th row with an id |
| Pipeline.PreparedFeatureGroups | ml/predict_turnover.py:115-117 | the categorical and numeric groups are disjoint subsets of the selected features, decided by each column's dtype in the loaded table |
| Pipeline.TurnoverMain | ml/predict_turnover.py:203-222 | with the fixed candidate list and an already fitted model: fails with `MissingColumn` exactly when the id or label column is missing, else one prediction per row with an id (failures of training are not modelled) |
| Retry.RetryFrom | scripts/ingest_data.py:34-50 | the loop from a given attempt on; its own contract: the call falls through without a result, with no events, exactly when no attempt is permitted |
| Retry.ScheduleCounts | scripts/ingest_data.py:43-47 | a schedule of n attempts holds n attempts and n - 1 pauses |
| Retry.ScheduleDelay | scripts/ingest_data.py:43-47 | the pauses of n attempts add up to (n - 1) times the delay |
| Retry.ScheduleEnds | scripts/ingest_data.py:34-47 | a schedule starts and ends with an attempt, so no pause follows the last attempt |
| Retry.RetryShape | scripts/ingest_data.py:34-50 | from any permitted attempt the run makes between 1 and the remaining attempts, following the attempt/pause schedule; all but the last failed; the last attempt's engine is returned on success, its exception only when it was the final permitted attempt |
| Retry.RetryFirstSuccess | scripts/ingest_data.py:34-42 | if attempt k is the first to connect, its engine is returned after exactly k + 1 attempts and k pauses, with nothing after |
| Retry.RetryExhausted | scripts/ingest_data.py:43-50 | if every permitted attempt fails, the last attempt's exception is raised after all attempts and one fewer pauses |
| Retry.RetryNoAttempts | scripts/ingest_data.py:34-50 | with a limit of 0 nothing is attempted and the function returns no result |
| Retry.RetryPausesFollowFailures | scripts/ingest_data.py:43-47 | every pause lies strictly between two attempts, directly after a failed one, and lasts the retry delay |
| Retry.CreateDbConnection | scripts/ingest_data.py:27-50 | with the constants 30 and 2: an engine or an exception, never neither; 1 to 30 attempts, one pause fewer, each of exactly 2 seconds; an exception only when all 30 attempts failed |
| Retry.RetryPolicy | scripts/ingest_data.py:31-50 | for any positive limit: an engine or an exception, never neither; 1 to limit attempts, one pause fewer; connects iff some permitted attempt connects, returning that attempt's engine; raises only after the last permitted attempt, with its exception |
| Retry.CreateDbConnectionPolicy | scripts/ingest_data.py:27-50 | with 30 attempts and 2-second pauses: at most 30 attempts; connects iff one of the first 30 does; when all fail, the 30th exception is raised after 29 pauses totalling 58 seconds |

## Left out

- Random forest fitting, `StandardScaler`, `OneHotEncoder` and `ColumnTransformer` (ml/predict_turnover.py:79-109, 125-126): library internals over floating point with seeded randomness. The fitted model is the parameter `model`.
- The stratified `train_test_split`, `model.predict`, and the accuracy, ROC-AUC, confusion-matrix and classification-report metrics, together with the held-out `predictions_df` (ml/predict_turnover.py:119-136, 162-170). These are library calls over floats, and the split's row choice is not visible.
- Writing the metrics file and the joblib model artifact (ml/predict_turnover.py:152-160): filesystem I/O.
- All database access: `connect_to_db`, `load_data`, `save_predictions_to_db` with `if_exists='replace'`, and the ingestion functions with `if_exists='fail'` (ml/predict_turnover.py:31-47, 195-201; scripts/ingest_data.py:53-126). The store is outside this model. The loaded table is an input.
- CSV reading and `pd.to_datetime(..., errors="coerce")` date parsing in the ingestion script: pandas parsing semantics.
- `time.sleep` and console output. A pause is a counted `Sleep` event; printing is not modelled.
- Duplicate column labels. `WellFormed` requires unique labels, because pandas' behaviour when indexing a duplicated label (a frame instead of a series) is outside this model.
- Floating-point representation of probabilities. They are modelled as exact `real`s, so the edges 0.3 and 0.6 are exact.
- The second, single-predictor logistic-regression variant of the pipeline and its `(0.3, 0.7)` boundary pair: that source file is not part of this model.
- Retry.RetryFrom: its own contract states only when the loop falls through without a result. Retry.RetryShape, Retry.RetryPolicy and Retry.RetryPausesFollowFailures state the attempt, pause and outcome behaviour of the same function.
- Pipeline.RunPipeline: models the run for an already fitted model. The exceptions `train_and_evaluate_model` can raise (ml/predict_turnover.py:119-136) are not modelled. Examples are `train_test_split` on an empty or too small filtered table, and `predict_proba(...)[:, 1]` after fitting on a single class. On such tables the model returns `Success` where `main` raises.
- Risk.PredictTurnoverRisk: `model` is a total function, so the exceptions `predict_proba` itself raises (for example a `ValueError` on an `X` with zero rows) are not modelled; for an empty `X` and empty ids the model returns an empty prediction list.
- Retry.RetryPolicy, Retry.CreateDbConnection: a failed attempt is one that raised an `Exception`, the class the handler at scripts/ingest_data.py:43 catches. A `BaseException` that is not an `Exception` (`KeyboardInterrupt`, `SystemExit`) propagates from the attempt that raised it, with no pause and no retry. That case is not modelled, so "raises only after the last permitted attempt" holds only for `Exception` failures.
- Pipeline.TurnoverMain: the same gap as `Pipeline.RunPipeline`. Its "fails exactly when a column is missing" covers only the code's own `KeyError` paths, not the training step's exceptions.
