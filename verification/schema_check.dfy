/** The database verification script's check of the `records` table: every required
    column must be present; a type that looks wrong is only reported. */
module SchemaCheck {
  import opened Wrappers
  import opened Text

  /** What the script reports for one required column. */
  datatype ColumnReport = ColumnOk(column: string) | TypeMismatch(column: string, expected: string, actual: string)
                        | ColumnMissing(column: string)

  /** The type the script accepts for a present column: any type for an enum
      ('USER-DEFINED'), otherwise one type name contained in the other. */
  predicate TypeAccepted(expected: string, actual: string) {
    expected == "USER-DEFINED" || IsSubstring(expected, actual) || IsSubstring(actual, expected)
  }

  /** The report line for one required column. */
  function CheckColumn(columns: map<string, string>, name: string, expected: string): (r: ColumnReport)
    ensures r.ColumnMissing? <==> name !in columns
    ensures r.ColumnOk? <==> name in columns && TypeAccepted(expected, columns[name])
    ensures r.column == name
  {
    if name !in columns then ColumnMissing(name)
    else if TypeAccepted(expected, columns[name]) then ColumnOk(name)
    else TypeMismatch(name, expected, columns[name])
  }

  /** The verdict and the report lines, in the order of the required list. */
  datatype Verdict = Verdict(ok: bool, reports: seq<ColumnReport>)

  /** The loop over the required columns: `all_good` falls only on a missing column. */
  function CheckColumns(columns: map<string, string>, required: seq<(string, string)>): (r: Verdict)
    ensures |r.reports| == |required|
    ensures forall i :: 0 <= i < |required| ==> r.reports[i] == CheckColumn(columns, required[i].0, required[i].1)
    ensures r.ok <==> forall i :: 0 <= i < |required| ==> required[i].0 in columns
  {
    if |required| == 0 then Verdict(true, [])
    else
      var rest := CheckColumns(columns, required[1..]);
      var here := CheckColumn(columns, required[0].0, required[0].1);
      Verdict(rest.ok && !here.ColumnMissing?, [here] + rest.reports)
  }

  /** A type mismatch never fails the check: only the set of present names matters. */
  lemma {:induction false} VerdictIgnoresTypes(columns: map<string, string>, other: map<string, string>,
                                               required: seq<(string, string)>)
    requires columns.Keys == other.Keys
    ensures CheckColumns(columns, required).ok == CheckColumns(other, required).ok
  {
  }

  /** The columns the script requires of `records`, in its order. */
  const RequiredRecordColumns: seq<(string, string)> := [
    ("id", "integer"),
    ("caller_id", "integer"),
    ("phone_number", "character varying"),
    ("name", "character varying"),
    ("response", "text"),
    ("notes", "text"),
    ("visit", "USER-DEFINED"),
    ("visit_by", "integer"),
    ("hidden_from_caller", "boolean"),
    ("assigned_at", "timestamp without time zone"),
    ("updated_at", "timestamp without time zone")
  ]

  /** `verify_database`: a failed schema query (`None`) is a failure; otherwise the
      verdict of the column loop. */
  function VerifyDatabase(columns: Option<map<string, string>>): (r: bool)
    ensures columns.None? ==> !r
    ensures columns.Some? ==> (r <==> forall i :: 0 <= i < |RequiredRecordColumns| ==> RequiredRecordColumns[i].0 in columns.value)
  {
    match columns
    case None => false
    case Some(cs) => CheckColumns(cs, RequiredRecordColumns).ok
  }

  /** The columns the backend's own `Record` model declares. */
  const ModelRecordColumns: set<string> :=
    {"id", "caller_id", "phone_number", "name", "response", "notes", "visit", "visit_by", "assigned_at", "updated_at"}

  /** A table created from the backend's model alone fails the check: the model has
      no `hidden_from_caller` column. */
  lemma ModelTableFailsCheck(columns: map<string, string>)
    requires columns.Keys == ModelRecordColumns
    ensures !VerifyDatabase(Some(columns))
  {
    assert RequiredRecordColumns[8].0 == "hidden_from_caller";
    assert "hidden_from_caller" !in ModelRecordColumns;
  }
}
