/** Record filtering, feature selection and the numeric/categorical split of
    the turnover model (`preprocess_data` and the start of
    `train_and_evaluate_model`). */
module Features {
  import opened Wrappers
  import opened Sequences
  import opened Frame

  const EmployeeIdColumn: ColumnName := "employee_id"
  const LabelColumn: ColumnName := "is_turnover"

  /** A list of feature names without repeats. */
  type FeatureList = s: seq<ColumnName> | Distinct(s) witness []

  /** The fixed candidate list, in the order the model is given its columns. */
  const CandidateFeatures: FeatureList := [
    "tenure_years", "age", "performance_score_numeric", "current_rating",
    "engagement_score", "satisfaction_score", "work_life_balance_score",
    "total_trainings", "training_success_rate", "days_since_last_training",
    "employee_type", "pay_zone", "gender", "department_type", "division"
  ]

  /** `select_dtypes(include=['object', 'category'])` */
  const CategoricalDtypes: set<DType> := {Object, Category}
  /** `select_dtypes(include=['int64', 'float64'])` */
  const NumericDtypes: set<DType> := {Int64, Float64}

  /** The output of `preprocess_data`: features, target, ids, feature names. */
  datatype Prepared = Prepared(x: Table, y: seq<Value>, ids: seq<Value>, features: seq<ColumnName>)

  /** The output of the dtype split: the two column groups handed to the
      column transformer. */
  datatype FeatureGroups = FeatureGroups(categorical: seq<ColumnName>, numeric: seq<ColumnName>)

  /** `[f for f in candidates if f in columns]`: the candidates that exist,
      kept in candidate order, each as often as the candidate list has it;
      an absent candidate is dropped without error. */
  function SelectPresent(candidates: seq<ColumnName>, columns: seq<ColumnName>): (r: seq<ColumnName>)
    ensures forall f :: f in r <==> f in candidates && f in columns
    ensures forall f :: multiset(r)[f] == if f in columns then multiset(candidates)[f] else 0
    ensures IsSubsequence(r, candidates)
  {
    FilterIsSubsequence((f: ColumnName) => f in columns, candidates);
    Filter((f: ColumnName) => f in columns, candidates)
  }

  /** With a duplicate-free candidate list, the selection is the only
      order-preserving choice of candidates with the right members. */
  lemma SelectPresentUnique(candidates: seq<ColumnName>, columns: seq<ColumnName>, t: seq<ColumnName>)
    requires Distinct(candidates)
    requires IsSubsequence(t, candidates)
    requires forall f :: f in t <==> f in candidates && f in columns
    ensures t == SelectPresent(candidates, columns)
  {
    FilterUnique((f: ColumnName) => f in columns, candidates, t);
  }

  /** The selection never repeats a feature when the candidates do not. */
  lemma SelectPresentDistinct(candidates: seq<ColumnName>, columns: seq<ColumnName>)
    requires Distinct(candidates)
    ensures Distinct(SelectPresent(candidates, columns))
  {
    SubsequenceDistinct(SelectPresent(candidates, columns), candidates);
  }

  /** Whether a row's employee id is present (`~isna()`). */
  predicate HasId(r: Row) {
    !Get(r, EmployeeIdColumn).Null?
  }

  /** `df[~df['employee_id'].isna()]`: the rows with an id, in their original
      order, each kept as often as it occurs. */
  function DropNullIds(rows: seq<Row>): (r: seq<Row>)
    ensures forall row :: row in r ==> HasId(row)
    ensures forall row :: multiset(r)[row] == if HasId(row) then multiset(rows)[row] else 0
    ensures IsSubsequence(r, rows)
  {
    FilterIsSubsequence(HasId, rows);
    Filter(HasId, rows)
  }

  /** Dropping rows keeps a table well formed. */
  lemma KeepRowsWellFormed(t: Table, kept: seq<Row>)
    requires WellFormed(t)
    requires forall r :: r in kept ==> r in t.rows
    ensures WellFormed(Table(t.columns, t.dtypes, kept))
  {
  }

  /** The body of `preprocess_data` once both columns it indexes exist:
      features, target and ids are row-aligned with the rows that have an
      id, and selection changes columns, never rows. */
  function Prepare(t: Table, candidates: FeatureList): (p: Prepared)
    requires WellFormed(t)
    requires EmployeeIdColumn in t.columns && LabelColumn in t.columns
    ensures forall f :: f in p.features <==> f in candidates && f in t.columns
    ensures IsSubsequence(p.features, candidates)
    ensures WellFormed(p.x)
    ensures p.x.columns == p.features
    ensures forall f :: f in p.features ==> p.x.dtypes[f] == t.dtypes[f]
    ensures |p.x.rows| == |p.y| == |p.ids| == |DropNullIds(t.rows)|
  {
    var kept := DropNullIds(t.rows);
    var filtered := Table(t.columns, t.dtypes, kept);
    KeepRowsWellFormed(t, kept);
    var features := SelectPresent(candidates, t.columns);
    SelectPresentDistinct(candidates, t.columns);
    var ids := Column(filtered, EmployeeIdColumn);
    Prepared(Select(filtered, features), Column(filtered, LabelColumn), ids, features)
  }

  /** Features, target and ids index the same rows: the rows of the input
      that have an id, in input order. */
  lemma PrepareAligned(t: Table, candidates: FeatureList)
    requires WellFormed(t)
    requires EmployeeIdColumn in t.columns && LabelColumn in t.columns
    ensures var p, kept := Prepare(t, candidates), DropNullIds(t.rows);
      && (forall i :: 0 <= i < |kept| ==> !p.ids[i].Null? && p.ids[i] == Get(kept[i], EmployeeIdColumn))
      && (forall i :: 0 <= i < |kept| ==> p.y[i] == Get(kept[i], LabelColumn))
      && (forall i, f :: 0 <= i < |kept| && f in p.features ==> Get(p.x.rows[i], f) == Get(kept[i], f))
  {
  }

  /** `preprocess_data`, with its fixed candidate list passed in as
      `candidates` (the pipeline passes `CandidateFeatures`). Indexing
      `employee_id` happens before indexing `is_turnover`, so a table missing
      both reports the id column. */
  function PreprocessData(t: Table, candidates: FeatureList): (r: Result<Prepared, FrameError>)
    requires WellFormed(t)
    ensures r.Failure? <==> EmployeeIdColumn !in t.columns || LabelColumn !in t.columns
    ensures r.Failure? ==>
      r.error == MissingColumn(if EmployeeIdColumn !in t.columns then EmployeeIdColumn else LabelColumn)
    ensures r.Success? ==> r.value == Prepare(t, candidates)
  {
    if EmployeeIdColumn !in t.columns then Failure(MissingColumn(EmployeeIdColumn))
    else if LabelColumn !in t.columns then Failure(MissingColumn(LabelColumn))
    else Success(Prepare(t, candidates))
  }

  /** `X.select_dtypes(include=...).columns.tolist()`: the columns whose dtype
      is one of `kinds`, in column order. */
  function SelectDtypes(x: Table, kinds: set<DType>): (r: seq<ColumnName>)
    requires WellFormed(x)
    ensures forall c :: c in r <==> c in x.columns && x.dtypes[c] in kinds
    ensures IsSubsequence(r, x.columns)
  {
    var keep := (c: ColumnName) => c in x.dtypes && x.dtypes[c] in kinds;
    FilterIsSubsequence(keep, x.columns);
    Filter(keep, x.columns)
  }

  /** The categorical and numeric groups of `train_and_evaluate_model`.
      They are disjoint, each lies inside the selected columns in column
      order, and a column of any other dtype (bool, datetime, ...) is in
      neither. */
  function PartitionByDtype(x: Table): (g: FeatureGroups)
    requires WellFormed(x)
    ensures forall c :: c in g.categorical <==> c in x.columns && x.dtypes[c] in CategoricalDtypes
    ensures forall c :: c in g.numeric <==> c in x.columns && x.dtypes[c] in NumericDtypes
    ensures forall c :: !(c in g.categorical && c in g.numeric)
    ensures forall c :: c in x.columns && x.dtypes[c] !in CategoricalDtypes + NumericDtypes ==>
      c !in g.categorical && c !in g.numeric
    ensures IsSubsequence(g.categorical, x.columns) && IsSubsequence(g.numeric, x.columns)
  {
    assert CategoricalDtypes !! NumericDtypes;
    FeatureGroups(SelectDtypes(x, CategoricalDtypes), SelectDtypes(x, NumericDtypes))
  }
}
