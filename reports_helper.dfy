/** The reports of modules/reports_helper.py over the stored validation results.

    Every report starts from the table of result rows. The discrepancy report
    keeps the rows that did not pass and masks LUT data; the action,
    category and scoring reports optionally reduce the table to the worst
    row per (action, tag, patient, study, series) and then count Blank, Fail
    and Pass per key. `check_category` assigns each row its category and
    subcategory from a fixed table with a priority fall-through for the two
    text checks. */
module ReportsHelper {

  import opened Wrappers
  import TextMatcher
  import CurationValidator

  /** A row of `validation_results` as the reports read it back: the stored
      verdict (1, 0 or NULL), the columns the reports use, and the category
      columns of the answer key (NULL when empty). The reports assume these
      category columns; the table `log_error` writes does not have them,
      which the section on stored columns below makes precise. */
  datatype ReportRow = ReportRow(
    checkPassed: Option<bool>,
    action: string,
    actionText: Option<string>,
    fileValue: Option<string>,
    answerValue: Option<string>,
    tagDs: string,
    tagName: string,
    patient: Option<string>,
    study: Option<string>,
    series: Option<string>,
    dicomIod: Option<string>,
    hipaaM: Option<string>,
    hipaaZ: Option<string>,
    tciaP15: Option<string>,
    tciaPtkb: Option<string>,
    tciaRev: Option<string>)

  // ---------------------------------------------------------------------
  // check_category
  // ---------------------------------------------------------------------

  datatype Category = Category(category: string, subcategory: Option<string>)

  /** What `check_category` returns: a pair, Python `None` (a text check
      with no category column set), or `0` (an action it does not know). */
  datatype Categorised = Tuple(value: Category) | NoneReturned | ZeroReturned

  /** `check_category(row)`, branch for branch. */
  function CheckCategory(row: ReportRow): Categorised {
    var a := row.action;
    if a == "<tag_retained>" || a == "<text_notnull>" then Tuple(Category("dicom", row.dicomIod))
    else if a == "<date_shifted>" then Tuple(Category("hipaa", Some("HIPAA-C")))
    else if a == "<uid_changed>" then Tuple(Category("hipaa", Some("HIPAA-R")))
    else if a == "<pixels_hidden>" then Tuple(Category("hipaa", Some("HIPAA-A")))
    else if a == "<patid_consistent>" then Tuple(Category("dicom", Some("DICOM-P15-BASIC-C")))
    else if a == "<uid_consistent>" then Tuple(Category("dicom", Some("DICOM-P15-BASIC-U")))
    else if a == "<pixels_retained>" then Tuple(Category("tcia", Some("TCIA-P15-PIX-K")))
    else if a == "<text_removed>" then (
      if Truthy(row.hipaaM) then Tuple(Category("hipaa", row.hipaaM))
      else if Truthy(row.hipaaZ) then Tuple(Category("hipaa", row.hipaaZ))
      else if Truthy(row.tciaP15) then Tuple(Category("tcia", row.tciaP15))
      else if Truthy(row.tciaPtkb) then Tuple(Category("tcia", row.tciaPtkb))
      else if Truthy(row.tciaRev) then Tuple(Category("tcia", row.tciaRev))
      else NoneReturned)
    else if a == "<text_retained>" then (
      if Truthy(row.tciaP15) then Tuple(Category("tcia", row.tciaP15))
      else if Truthy(row.tciaPtkb) then Tuple(Category("tcia", row.tciaPtkb))
      else if Truthy(row.tciaRev) then Tuple(Category("tcia", row.tciaRev))
      else NoneReturned)
    else ZeroReturned
  }

  /** A priority list of (category, column): the first column that is set
      names the subcategory. */
  function FirstTruthy(candidates: seq<(string, Option<string>)>): Categorised {
    if candidates == [] then NoneReturned
    else if Truthy(candidates[0].1) then Tuple(Category(candidates[0].0, candidates[0].1))
    else FirstTruthy(candidates[1..])
  }

  function RemovedPriority(row: ReportRow): seq<(string, Option<string>)> {
    [("hipaa", row.hipaaM), ("hipaa", row.hipaaZ), ("tcia", row.tciaP15), ("tcia", row.tciaPtkb), ("tcia", row.tciaRev)]
  }

  function RetainedPriority(row: ReportRow): seq<(string, Option<string>)> {
    [("tcia", row.tciaP15), ("tcia", row.tciaPtkb), ("tcia", row.tciaRev)]
  }

  const CategorisedActions: set<string> := {
    "<tag_retained>", "<text_notnull>", "<date_shifted>", "<uid_changed>", "<pixels_hidden>",
    "<patid_consistent>", "<uid_consistent>", "<pixels_retained>", "<text_removed>", "<text_retained>"}

  /** The fixed part of the table. */
  lemma FixedCategories(row: ReportRow)
    ensures row.action in {"<tag_retained>", "<text_notnull>"} ==> CheckCategory(row) == Tuple(Category("dicom", row.dicomIod))
    ensures row.action == "<date_shifted>" ==> CheckCategory(row) == Tuple(Category("hipaa", Some("HIPAA-C")))
    ensures row.action == "<uid_changed>" ==> CheckCategory(row) == Tuple(Category("hipaa", Some("HIPAA-R")))
    ensures row.action == "<pixels_hidden>" ==> CheckCategory(row) == Tuple(Category("hipaa", Some("HIPAA-A")))
    ensures row.action == "<patid_consistent>" ==> CheckCategory(row) == Tuple(Category("dicom", Some("DICOM-P15-BASIC-C")))
    ensures row.action == "<uid_consistent>" ==> CheckCategory(row) == Tuple(Category("dicom", Some("DICOM-P15-BASIC-U")))
    ensures row.action == "<pixels_retained>" ==> CheckCategory(row) == Tuple(Category("tcia", Some("TCIA-P15-PIX-K")))
  {
  }

  /** The two text checks fall through their priority lists. */
  lemma PriorityFallThrough(row: ReportRow)
    ensures row.action == "<text_removed>" ==> CheckCategory(row) == FirstTruthy(RemovedPriority(row))
    ensures row.action == "<text_retained>" ==> CheckCategory(row) == FirstTruthy(RetainedPriority(row))
  {
    var rev := [("tcia", row.tciaRev)];
    var ptkb := [("tcia", row.tciaPtkb)] + rev;
    var p15 := [("tcia", row.tciaP15)] + ptkb;
    var z := [("hipaa", row.hipaaZ)] + p15;
    var m := [("hipaa", row.hipaaM)] + z;
    FirstTruthyCons(("tcia", row.tciaRev), []);
    assert rev == [("tcia", row.tciaRev)] + [];
    FirstTruthyCons(("tcia", row.tciaPtkb), rev);
    FirstTruthyCons(("tcia", row.tciaP15), ptkb);
    FirstTruthyCons(("hipaa", row.hipaaZ), p15);
    FirstTruthyCons(("hipaa", row.hipaaM), z);
    assert RetainedPriority(row) == p15;
    assert RemovedPriority(row) == m;
  }

  lemma FirstTruthyCons(head: (string, Option<string>), rest: seq<(string, Option<string>)>)
    ensures FirstTruthy([head] + rest) == if Truthy(head.1) then Tuple(Category(head.0, head.1)) else FirstTruthy(rest)
  {
    assert ([head] + rest)[1..] == rest;
  }

  /** `0` comes back exactly for the actions outside the table, `None`
      exactly for a text check none of whose columns is set. */
  lemma CategoryOutcomes(row: ReportRow)
    ensures CheckCategory(row).ZeroReturned? <==> row.action !in CategorisedActions
    ensures CheckCategory(row).NoneReturned? <==>
      || (row.action == "<text_removed>" && !Truthy(row.hipaaM) && !Truthy(row.hipaaZ)
          && !Truthy(row.tciaP15) && !Truthy(row.tciaPtkb) && !Truthy(row.tciaRev))
      || (row.action == "<text_retained>" && !Truthy(row.tciaP15) && !Truthy(row.tciaPtkb) && !Truthy(row.tciaRev))
    ensures CheckCategory(row).Tuple? ==> CheckCategory(row).value.category in {"dicom", "hipaa", "tcia"}
  {
  }

  // ---------------------------------------------------------------------
  // From check_category to the category columns
  // ---------------------------------------------------------------------

  /** The exception subscripting `None` raises. */
  datatype Raised = TypeError

  const Unknown: Category := Category("unknown", Some("unknown"))

  /** `x[0] if x != 0 else 'unknown'` (and `x[1]` likewise), as written:
      `None != 0`, so a `None` result is subscripted and raises. */
  function CategoryColumns(x: Categorised): Result<Category, Raised> {
    match x
    case ZeroReturned => Ok(Unknown)
    case Tuple(c) => Ok(c)
    case NoneReturned => Err(TypeError)
  }

  /** The two `apply` calls over a whole table, as written: one row whose
      category comes back `None` makes the whole assignment raise. */
  function AssignCategories(rows: seq<ReportRow>): (r: Result<seq<Category>, Raised>)
    ensures r.Ok? ==> |r.value| == |rows|
  {
    if rows == [] then Ok([])
    else
      var init := AssignCategories(rows[..|rows| - 1]);
      var last := CategoryColumns(CheckCategory(rows[|rows| - 1]));
      if init.Err? then init
      else if last.Err? then Err(last.error)
      else Ok(init.value + [last.value])
  }

  /** The assignment raises exactly when some row's category is `None`. */
  lemma {:induction false} AssignmentRaises(rows: seq<ReportRow>)
    ensures AssignCategories(rows).Err? <==> exists i :: 0 <= i < |rows| && CheckCategory(rows[i]).NoneReturned?
  {
    if rows != [] {
      var init := rows[..|rows| - 1];
      AssignmentRaises(init);
      if AssignCategories(init).Err? {
        var i :| 0 <= i < |init| && CheckCategory(init[i]).NoneReturned?;
        assert rows[i] == init[i];
      } else if !CheckCategory(rows[|rows| - 1]).NoneReturned? {
        forall i | 0 <= i < |rows| ensures !CheckCategory(rows[i]).NoneReturned? {
          if i < |init| {
            assert rows[i] == init[i];
          }
        }
      }
    }
  }

  /** A text_retained row none of whose TCIA columns is set is such a row. */
  lemma TextRetainedWithoutColumnRaises(row: ReportRow)
    requires row.action == "<text_retained>"
    requires !Truthy(row.tciaP15) && !Truthy(row.tciaPtkb) && !Truthy(row.tciaRev)
    ensures AssignCategories([row]) == Err(TypeError)
  {
    assert [row][..0] == [];
  }

  /** The category columns with a `None` result read as 'unknown', like `0`. */
  function CategoryOf(row: ReportRow): (c: Category)
    ensures CategoryColumns(CheckCategory(row)).Ok? ==> c == CategoryColumns(CheckCategory(row)).value
    ensures c.category in {"dicom", "hipaa", "tcia", "unknown"}
  {
    match CheckCategory(row)
    case Tuple(c) => c
    case _ => Unknown
  }

  // ---------------------------------------------------------------------
  // The stored columns: what check_category reads from validation_results
  // ---------------------------------------------------------------------

  /** The answer key's category columns `check_category` reads. */
  const CategoryColumnNames: set<string> := {"dicom_iod", "hipaa_m", "hipaa_z", "tcia_p15", "tcia_ptkb", "tcia_rev"}

  /** The actions whose branch of `check_category` reads a category column. */
  const ColumnReadingActions: set<string> := {"<tag_retained>", "<text_notnull>", "<text_removed>", "<text_retained>"}

  /** `row['c']` for a column the table does not have. */
  datatype KeyError = KeyError(column: string)

  /** A priority list of (category, column name, cell), read column by column
      as the `if`/`elif` chain does: the first missing column raises. */
  function FirstTruthyStored(columns: set<string>, candidates: seq<(string, string, Option<string>)>): Result<Categorised, KeyError> {
    if candidates == [] then Ok(NoneReturned)
    else if candidates[0].1 !in columns then Err(KeyError(candidates[0].1))
    else if Truthy(candidates[0].2) then Ok(Tuple(Category(candidates[0].0, candidates[0].2)))
    else FirstTruthyStored(columns, candidates[1..])
  }

  /** `check_category(row)` on a table whose columns are `columns`. */
  function StoredCheckCategory(columns: set<string>, row: ReportRow): Result<Categorised, KeyError> {
    var a := row.action;
    if a == "<tag_retained>" || a == "<text_notnull>" then
      (if "dicom_iod" in columns then Ok(Tuple(Category("dicom", row.dicomIod))) else Err(KeyError("dicom_iod")))
    else if a == "<text_removed>" then
      FirstTruthyStored(columns, [("hipaa", "hipaa_m", row.hipaaM), ("hipaa", "hipaa_z", row.hipaaZ),
        ("tcia", "tcia_p15", row.tciaP15), ("tcia", "tcia_ptkb", row.tciaPtkb), ("tcia", "tcia_rev", row.tciaRev)])
    else if a == "<text_retained>" then
      FirstTruthyStored(columns, [("tcia", "tcia_p15", row.tciaP15), ("tcia", "tcia_ptkb", row.tciaPtkb),
        ("tcia", "tcia_rev", row.tciaRev)])
    else Ok(CheckCategory(row))
  }

  /** With every category column present, the read never raises and gives
      what `check_category` gives on a row that carries the columns. */
  lemma StoredCategoryAgrees(columns: set<string>, row: ReportRow)
    requires CategoryColumnNames <= columns
    ensures StoredCheckCategory(columns, row) == Ok(CheckCategory(row))
  {
    PriorityFallThrough(row);
    StoredWithColumns(columns, [("hipaa", "hipaa_m", row.hipaaM), ("hipaa", "hipaa_z", row.hipaaZ),
      ("tcia", "tcia_p15", row.tciaP15), ("tcia", "tcia_ptkb", row.tciaPtkb), ("tcia", "tcia_rev", row.tciaRev)]);
    StoredWithColumns(columns, [("tcia", "tcia_p15", row.tciaP15), ("tcia", "tcia_ptkb", row.tciaPtkb),
      ("tcia", "tcia_rev", row.tciaRev)]);
    assert Unnamed([("hipaa", "hipaa_m", row.hipaaM), ("hipaa", "hipaa_z", row.hipaaZ),
      ("tcia", "tcia_p15", row.tciaP15), ("tcia", "tcia_ptkb", row.tciaPtkb), ("tcia", "tcia_rev", row.tciaRev)])
      == RemovedPriority(row);
    assert Unnamed([("tcia", "tcia_p15", row.tciaP15), ("tcia", "tcia_ptkb", row.tciaPtkb),
      ("tcia", "tcia_rev", row.tciaRev)]) == RetainedPriority(row);
  }

  /** The priority list without its column names. */
  function Unnamed(candidates: seq<(string, string, Option<string>)>): (r: seq<(string, Option<string>)>)
    ensures |r| == |candidates|
    ensures forall i :: 0 <= i < |r| ==> r[i] == (candidates[i].0, candidates[i].2)
  {
    if candidates == [] then [] else [(candidates[0].0, candidates[0].2)] + Unnamed(candidates[1..])
  }

  lemma {:induction false} StoredWithColumns(columns: set<string>, candidates: seq<(string, string, Option<string>)>)
    requires forall i :: 0 <= i < |candidates| ==> candidates[i].1 in columns
    ensures FirstTruthyStored(columns, candidates) == Ok(FirstTruthy(Unnamed(candidates)))
  {
    if candidates != [] {
      StoredWithColumns(columns, candidates[1..]);
      assert Unnamed(candidates)[1..] == Unnamed(candidates[1..]);
    }
  }

  /** As written: on the table `log_error` writes, `check_category` raises
      KeyError exactly for the tag and text checks, at the first column its
      branch reads. */
  lemma StoredCategoryRaises(row: ReportRow)
    ensures StoredCheckCategory(CurationValidator.LoggedColumns, row).Err? <==> row.action in ColumnReadingActions
    ensures row.action in {"<tag_retained>", "<text_notnull>"} ==>
      StoredCheckCategory(CurationValidator.LoggedColumns, row) == Err(KeyError("dicom_iod"))
    ensures row.action == "<text_removed>" ==>
      StoredCheckCategory(CurationValidator.LoggedColumns, row) == Err(KeyError("hipaa_m"))
    ensures row.action == "<text_retained>" ==>
      StoredCheckCategory(CurationValidator.LoggedColumns, row) == Err(KeyError("tcia_p15"))
  {
    CategoryColumnsNotLogged();
  }

  /** `apply(check_category)` over a stored table: the first row that raises
      ends the whole assignment. */
  function StoredCategories(columns: set<string>, rows: seq<ReportRow>): (r: Result<seq<Categorised>, KeyError>)
    ensures r.Ok? ==> |r.value| == |rows|
  {
    if rows == [] then Ok([])
    else
      var init := StoredCategories(columns, rows[..|rows| - 1]);
      var last := StoredCheckCategory(columns, rows[|rows| - 1]);
      if init.Err? then init
      else if last.Err? then Err(last.error)
      else Ok(init.value + [last.value])
  }

  /** As written, categorising a stored table raises exactly when it holds a
      tag or text check; this happens in both the discrepancy report and the
      category report. */
  lemma {:induction false} StoredCategoriesRaise(rows: seq<ReportRow>)
    ensures StoredCategories(CurationValidator.LoggedColumns, rows).Err? <==>
      exists i :: 0 <= i < |rows| && rows[i].action in ColumnReadingActions
  {
    if rows != [] {
      var init := rows[..|rows| - 1];
      StoredCategoriesRaise(init);
      StoredCategoryRaises(rows[|rows| - 1]);
      if StoredCategories(CurationValidator.LoggedColumns, init).Err? {
        var i :| 0 <= i < |init| && init[i].action in ColumnReadingActions;
        assert rows[i] == init[i];
      } else if rows[|rows| - 1].action !in ColumnReadingActions {
        forall i | 0 <= i < |rows| ensures rows[i].action !in ColumnReadingActions {
          if i < |init| {
            assert rows[i] == init[i];
          }
        }
      }
    }
  }

  /** The columns the discrepancy report selects for its internal table. */
  const InternalColumns: seq<string> := [
    "check_passed", "check_score", "tag_ds", "tag_name", "file_value", "answer_value", "action", "action_text",
    "category", "subcategory", "hipaa_z", "hipaa_m", "dicom_p15", "dicom_iod", "dicom_safe", "tcia_ptkb",
    "tcia_p15", "tcia_rev", "prev_cat", "modality", "class", "patient", "study", "series", "instance",
    "file_name", "file_path"]

  /** The columns it selects for the participants' table. */
  const ParticipantColumns: seq<string> := [
    "check_passed", "check_score", "tag_ds", "tag_name", "file_value", "answer_value", "action", "action_text",
    "category", "subcategory", "modality", "class", "patient", "study", "series", "instance", "file_name"]

  /** The columns a result table has once the discrepancy report has added
      the two category columns. */
  const CategorisedColumns: set<string> := CurationValidator.LoggedColumns + {"category", "subcategory"}

  /** As written: the internal selection names every category column of the
      answer key, none of which the table has, whatever the rows, so the
      selection raises KeyError. */
  lemma InternalSelectionRaises()
    ensures forall c :: c in CategoryColumnNames ==> c in InternalColumns && c !in CategorisedColumns
  {
    CategoryColumnsNotLogged();
    assert InternalColumns[10] == "hipaa_z" && InternalColumns[11] == "hipaa_m" && InternalColumns[13] == "dicom_iod";
    assert InternalColumns[15] == "tcia_ptkb" && InternalColumns[16] == "tcia_p15" && InternalColumns[17] == "tcia_rev";
  }

  /** The participants' selection names only columns the table has. */
  lemma ParticipantSelectionSucceeds()
    ensures forall i :: 0 <= i < |ParticipantColumns| ==> ParticipantColumns[i] in CategorisedColumns
  {
  }

  /** No category column is among the columns `log_error` writes. */
  lemma CategoryColumnsNotLogged()
    ensures CategoryColumnNames !! CurationValidator.LoggedColumns
  {
  }

  // ---------------------------------------------------------------------
  // Counting by verdict
  // ---------------------------------------------------------------------

  /** The Blank (`-1` after `fillna`), Fail (`0`) and Pass (`1`) columns of a pivot row. */
  datatype Counts = Counts(blank: nat, fail: nat, pass: nat)

  const NoCounts: Counts := Counts(0, 0, 0)

  /** The `Total` column: the sum of a row's counts. */
  function Total(c: Counts): nat {
    c.blank + c.fail + c.pass
  }

  /** One more row with the given verdict. */
  function Add(c: Counts, passed: Option<bool>): Counts {
    match passed
    case None => c.(blank := c.blank + 1)
    case Some(false) => c.(fail := c.fail + 1)
    case Some(true) => c.(pass := c.pass + 1)
  }

  /** One (index value, verdict) pair handed to `pivot_table`. */
  datatype Entry<K> = Entry(key: K, passed: Option<bool>)

  /** The counts of a list of entries, whatever their keys. */
  function Tally<K>(entries: seq<Entry<K>>): Counts {
    if entries == [] then NoCounts else Add(Tally(entries[..|entries| - 1]), entries[|entries| - 1].passed)
  }

  /** Every entry is counted once, in the column of its verdict. */
  lemma {:induction false} TallyTotal<K>(entries: seq<Entry<K>>)
    ensures Total(Tally(entries)) == |entries|
  {
    if entries != [] {
      TallyTotal(entries[..|entries| - 1]);
    }
  }

  lemma TallySnoc<K>(entries: seq<Entry<K>>, e: Entry<K>)
    ensures Tally(entries + [e]) == Add(Tally(entries), e.passed)
  {
    assert (entries + [e])[..|entries|] == entries;
  }

  /** The entries with one key. */
  function WithKey<K(==)>(entries: seq<Entry<K>>, k: K): (r: seq<Entry<K>>)
    ensures |r| <= |entries|
  {
    if entries == [] then []
    else (WithKey(entries[..|entries| - 1], k)
      + (if entries[|entries| - 1].key == k then [entries[|entries| - 1]] else []))
  }

  // ---------------------------------------------------------------------
  // pivot_table(..., aggfunc=len, fill_value=0)
  // ---------------------------------------------------------------------

  datatype PivotRow<K> = PivotRow(key: K, counts: Counts)

  /** Count one entry into a pivot: its key's row, or a new row. */
  function Insert<K(==)>(pivot: seq<PivotRow<K>>, e: Entry<K>): seq<PivotRow<K>> {
    if pivot == [] then [PivotRow(e.key, Add(NoCounts, e.passed))]
    else if pivot[0].key == e.key then [pivot[0].(counts := Add(pivot[0].counts, e.passed))] + pivot[1..]
    else [pivot[0]] + Insert(pivot[1..], e)
  }

  /** The pivot of a list of entries: one row per key, in order of first
      appearance. */
  function PivotOf<K(==)>(entries: seq<Entry<K>>): seq<PivotRow<K>> {
    if entries == [] then [] else Insert(PivotOf(entries[..|entries| - 1]), entries[|entries| - 1])
  }

  /** The `Total` row: the column sums of a pivot. */
  function ColumnSums<K>(pivot: seq<PivotRow<K>>): Counts {
    if pivot == [] then NoCounts
    else
      var rest := ColumnSums(pivot[1..]);
      Counts(pivot[0].counts.blank + rest.blank, pivot[0].counts.fail + rest.fail, pivot[0].counts.pass + rest.pass)
  }

  /** The counts under a key, zero when the pivot has no row for it. */
  function Find<K(==)>(pivot: seq<PivotRow<K>>, k: K): Counts {
    if pivot == [] then NoCounts else if pivot[0].key == k then pivot[0].counts else Find(pivot[1..], k)
  }

  /** The keys of a pivot's rows. */
  function PivotKeys<K>(pivot: seq<PivotRow<K>>): set<K> {
    if pivot == [] then {} else {pivot[0].key} + PivotKeys(pivot[1..])
  }

  /** No key has two rows. */
  predicate DistinctKeys<K(==)>(pivot: seq<PivotRow<K>>) {
    pivot == [] || (pivot[0].key !in PivotKeys(pivot[1..]) && DistinctKeys(pivot[1..]))
  }

  /** The keys of a list of entries. */
  function EntryKeys<K>(entries: seq<Entry<K>>): set<K> {
    if entries == [] then {} else EntryKeys(entries[..|entries| - 1]) + {entries[|entries| - 1].key}
  }

  lemma {:induction false} InsertSums<K>(pivot: seq<PivotRow<K>>, e: Entry<K>)
    ensures ColumnSums(Insert(pivot, e)) == Add(ColumnSums(pivot), e.passed)
  {
    if pivot != [] && pivot[0].key != e.key {
      InsertSums(pivot[1..], e);
      assert ([pivot[0]] + Insert(pivot[1..], e))[1..] == Insert(pivot[1..], e);
    } else if pivot != [] {
      assert ([pivot[0].(counts := Add(pivot[0].counts, e.passed))] + pivot[1..])[1..] == pivot[1..];
    }
  }

  lemma {:induction false} InsertFind<K>(pivot: seq<PivotRow<K>>, e: Entry<K>, k: K)
    ensures Find(Insert(pivot, e), k) == if k == e.key then Add(Find(pivot, k), e.passed) else Find(pivot, k)
  {
    if pivot != [] && pivot[0].key != e.key {
      InsertFind(pivot[1..], e, k);
      assert ([pivot[0]] + Insert(pivot[1..], e))[1..] == Insert(pivot[1..], e);
    } else if pivot != [] {
      assert ([pivot[0].(counts := Add(pivot[0].counts, e.passed))] + pivot[1..])[1..] == pivot[1..];
    }
  }

  lemma {:induction false} InsertKeys<K>(pivot: seq<PivotRow<K>>, e: Entry<K>)
    requires DistinctKeys(pivot)
    ensures DistinctKeys(Insert(pivot, e))
    ensures PivotKeys(Insert(pivot, e)) == PivotKeys(pivot) + {e.key}
  {
    if pivot == [] {
      assert Insert(pivot, e)[1..] == [];
    } else if pivot[0].key == e.key {
      assert Insert(pivot, e)[1..] == pivot[1..];
    } else {
      InsertKeys(pivot[1..], e);
      assert Insert(pivot, e)[1..] == Insert(pivot[1..], e);
    }
  }

  /** The Total row of a pivot counts every entry: its columns are the counts
      of all entries, and its Total is their number. */
  lemma PivotTotals<K>(entries: seq<Entry<K>>)
    ensures ColumnSums(PivotOf(entries)) == Tally(entries)
    ensures Total(ColumnSums(PivotOf(entries))) == |entries|
  {
    PivotSums(entries);
    TallyTotal(entries);
  }

  lemma {:induction false} PivotSums<K>(entries: seq<Entry<K>>)
    ensures ColumnSums(PivotOf(entries)) == Tally(entries)
  {
    if entries != [] {
      var init, e := entries[..|entries| - 1], entries[|entries| - 1];
      PivotSums(init);
      InsertSums(PivotOf(init), e);
    }
  }

  /** A pivot has one row per key of its entries, and the row for a key
      holds the counts of exactly the entries with that key. */
  lemma {:induction false} PivotRows<K>(entries: seq<Entry<K>>)
    ensures DistinctKeys(PivotOf(entries))
    ensures PivotKeys(PivotOf(entries)) == EntryKeys(entries)
    ensures forall k :: Find(PivotOf(entries), k) == Tally(WithKey(entries, k))
  {
    if entries != [] {
      var init, e := entries[..|entries| - 1], entries[|entries| - 1];
      PivotRows(init);
      assert PivotOf(entries) == Insert(PivotOf(init), e);
      InsertKeys(PivotOf(init), e);
      forall k ensures Find(PivotOf(entries), k) == Tally(WithKey(entries, k)) {
        InsertFind(PivotOf(init), e, k);
        if e.key == k {
          assert WithKey(entries, k) == WithKey(init, k) + [e];
          TallySnoc(WithKey(init, k), e);
        } else {
          assert WithKey(entries, k) == WithKey(init, k);
        }
      }
    }
  }

  /** Every row of a pivot carries the counts of its key's entries. */
  lemma PivotRowCounts<K>(entries: seq<Entry<K>>, i: nat)
    requires i < |PivotOf(entries)|
    ensures PivotOf(entries)[i].counts == Tally(WithKey(entries, PivotOf(entries)[i].key))
  {
    var pivot := PivotOf(entries);
    PivotRows(entries);
    FindDistinct(pivot, i);
    assert Find(pivot, pivot[i].key) == Tally(WithKey(entries, pivot[i].key));
  }

  lemma {:induction false} FindDistinct<K>(pivot: seq<PivotRow<K>>, i: nat)
    requires DistinctKeys(pivot) && i < |pivot|
    ensures Find(pivot, pivot[i].key) == pivot[i].counts
  {
    if i > 0 {
      assert pivot[1..][i - 1] == pivot[i];
      KeyOfRow(pivot[1..], i - 1);
      FindDistinct(pivot[1..], i - 1);
    }
  }

  lemma {:induction false} KeyOfRow<K>(pivot: seq<PivotRow<K>>, i: nat)
    requires i < |pivot|
    ensures pivot[i].key in PivotKeys(pivot)
  {
    if i > 0 {
      assert pivot[1..][i - 1] == pivot[i];
      KeyOfRow(pivot[1..], i - 1);
    }
  }

  /** Entries that all share one key pivot into that key's single row. */
  lemma {:induction false} SingleKeyPivot<K>(entries: seq<Entry<K>>, k: K)
    requires entries != []
    requires forall i :: 0 <= i < |entries| ==> entries[i].key == k
    ensures PivotOf(entries) == [PivotRow(k, Tally(entries))]
  {
    var init := entries[..|entries| - 1];
    if init != [] {
      SingleKeyPivot(init, k);
    }
  }

  // ---------------------------------------------------------------------
  // The discrepancy report
  // ---------------------------------------------------------------------

  /** `check_passed.isin([0, np.nan])`: the row failed or has no verdict. */
  predicate Discrepant(row: ReportRow) {
    row.checkPassed != Some(true)
  }

  /** The rows that did not pass, in table order. */
  function Discrepancies(rows: seq<ReportRow>): (r: seq<ReportRow>)
    ensures |r| <= |rows|
  {
    if rows == [] then []
    else (Discrepancies(rows[..|rows| - 1])
      + (if Discrepant(rows[|rows| - 1]) then [rows[|rows| - 1]] else []))
  }

  const LutData: string := "<LUT Data>"
  const Removed: string := "<Removed>"

  /** The three `.loc` assignments on LUT Data rows. */
  function Masked(row: ReportRow): ReportRow {
    if row.tagName == LutData then row.(fileValue := Some(Removed), answerValue := Some(Removed), actionText := Some(Removed))
    else row
  }

  /** A row of the internal discrepancy report: the masked row with its
      category and subcategory columns. */
  datatype InternalRow = InternalRow(row: ReportRow, category: string, subcategory: Option<string>)

  /** The internal report: every discrepant row, masked and categorised. */
  function DiscrepancyRows(rows: seq<ReportRow>): (r: seq<InternalRow>)
    ensures |r| == |Discrepancies(rows)|
  {
    var d := Discrepancies(rows);
    seq(|d|, i requires 0 <= i < |d| => InternalRow(Masked(d[i]), CategoryOf(d[i]).category, CategoryOf(d[i]).subcategory))
  }

  /** The kept rows are exactly the rows that did not pass. */
  lemma {:induction false} DiscrepanciesAreFailures(rows: seq<ReportRow>)
    ensures forall x :: x in Discrepancies(rows) <==> x in rows && Discrepant(x)
  {
    if rows != [] {
      var init := rows[..|rows| - 1];
      DiscrepanciesAreFailures(init);
      assert rows == init + [rows[|rows| - 1]];
    }
  }

  /** Their number is the Blank and Fail counts of the table. */
  lemma {:induction false} DiscrepancyCount(rows: seq<ReportRow>)
    ensures |Discrepancies(rows)| == Tally(ActionEntries(rows)).blank + Tally(ActionEntries(rows)).fail
  {
    if rows != [] {
      var init := rows[..|rows| - 1];
      DiscrepancyCount(init);
      assert ActionEntries(rows)[..|rows| - 1] == ActionEntries(init);
    }
  }

  /** Masking hides the three value columns of LUT Data rows and touches
      nothing else. */
  lemma MaskingPolicy(row: ReportRow)
    ensures row.tagName == LutData ==>
      Masked(row).fileValue == Masked(row).answerValue == Masked(row).actionText == Some(Removed)
    ensures row.tagName != LutData ==> Masked(row) == row
    ensures Masked(row).(fileValue := row.fileValue, answerValue := row.answerValue, actionText := row.actionText) == row
  {
  }

  /** Masking happens before categorisation, and does not change a row's category. */
  lemma MaskKeepsCategory(row: ReportRow)
    ensures CategoryOf(Masked(row)) == CategoryOf(row)
  {
    var m := Masked(row);
    assert m.action == row.action && m.dicomIod == row.dicomIod;
    assert m.hipaaM == row.hipaaM && m.hipaaZ == row.hipaaZ;
    assert m.tciaP15 == row.tciaP15 && m.tciaPtkb == row.tciaPtkb && m.tciaRev == row.tciaRev;
    assert CheckCategory(m) == CheckCategory(row);
  }

  /** `discrepancy_report`, building the internal table; the participant
      table is a column selection of it. */
  method DiscrepancyReport(validationDf: seq<ReportRow>) returns (internalDf: seq<InternalRow>)
    ensures internalDf == DiscrepancyRows(validationDf)
  {
    var totalDf: seq<ReportRow> := [];
    for i := 0 to |validationDf|
      invariant totalDf == Discrepancies(validationDf[..i])
    {
      assert validationDf[..i + 1][..i] == validationDf[..i];
      if validationDf[i].checkPassed != Some(true) {
        totalDf := totalDf + [validationDf[i]];
      }
    }
    assert validationDf[..|validationDf|] == validationDf;
    ghost var kept := totalDf;
    for j := 0 to |totalDf|
      invariant |totalDf| == |kept|
      invariant forall k :: 0 <= k < j ==> totalDf[k] == Masked(kept[k])
      invariant forall k :: j <= k < |totalDf| ==> totalDf[k] == kept[k]
    {
      if totalDf[j].tagName == LutData {
        var row := totalDf[j];
        row := row.(fileValue := Some(Removed));
        row := row.(answerValue := Some(Removed));
        row := row.(actionText := Some(Removed));
        totalDf := totalDf[j := row];
      }
    }
    internalDf := [];
    for k := 0 to |totalDf|
      invariant |internalDf| == k
      invariant forall n :: 0 <= n < k ==>
        internalDf[n] == InternalRow(Masked(kept[n]), CategoryOf(kept[n]).category, CategoryOf(kept[n]).subcategory)
    {
      var c := CategoryOf(totalDf[k]);
      MaskKeepsCategory(kept[k]);
      internalDf := internalDf + [InternalRow(totalDf[k], c.category, c.subcategory)];
    }
  }

  // ---------------------------------------------------------------------
  // Series mode: the worst row per series
  // ---------------------------------------------------------------------

  /** The `drop_duplicates` subset. */
  datatype GroupKey = GroupKey(action: string, tagDs: string, patient: Option<string>, study: Option<string>, series: Option<string>)

  function Key(row: ReportRow): GroupKey {
    GroupKey(row.action, row.tagDs, row.patient, row.study, row.series)
  }

  /** The position `sort_values('check_passed')` gives a verdict: 0, then 1,
      then missing values last. */
  function Rank(passed: Option<bool>): nat {
    match passed
    case Some(false) => 0
    case Some(true) => 1
    case None => 2
  }

  /** The rows of one rank, in table order. */
  function WithRank(rows: seq<ReportRow>, k: nat): (r: seq<ReportRow>)
    ensures |r| <= |rows|
  {
    if rows == [] then []
    else (WithRank(rows[..|rows| - 1], k)
      + (if Rank(rows[|rows| - 1].checkPassed) == k then [rows[|rows| - 1]] else []))
  }

  /** The table sorted by verdict, rows of equal verdict in table order. */
  function SortedByPassed(rows: seq<ReportRow>): seq<ReportRow> {
    WithRank(rows, 0) + WithRank(rows, 1) + WithRank(rows, 2)
  }

  predicate SortedByRank(rows: seq<ReportRow>) {
    forall i, j :: 0 <= i < j < |rows| ==> Rank(rows[i].checkPassed) <= Rank(rows[j].checkPassed)
  }

  /** The keys of the table's rows. */
  function KeySet(rows: seq<ReportRow>): set<GroupKey> {
    if rows == [] then {} else KeySet(rows[..|rows| - 1]) + {Key(rows[|rows| - 1])}
  }

  lemma {:induction false} KeySetImage(rows: seq<ReportRow>)
    ensures KeySet(rows) == set x | x in rows :: Key(x)
  {
    if rows != [] {
      var init, last := rows[..|rows| - 1], rows[|rows| - 1];
      KeySetImage(init);
      assert rows == init + [last];
      assert (set x | x in rows :: Key(x)) == (set x | x in init :: Key(x)) + {Key(last)};
    }
  }

  /** `drop_duplicates(keep='first')`: a row is kept when no earlier row has its key. */
  function Dedup(rows: seq<ReportRow>): (r: seq<ReportRow>)
    ensures |r| <= |rows|
  {
    if rows == [] then []
    else
      var init := rows[..|rows| - 1];
      if Key(rows[|rows| - 1]) in KeySet(init) then Dedup(init) else Dedup(init) + [rows[|rows| - 1]]
  }

  /** The table a pivot report counts. */
  function SeriesRows(rows: seq<ReportRow>, seriesBased: bool): seq<ReportRow> {
    if seriesBased then Dedup(SortedByPassed(rows)) else rows
  }

  lemma {:induction false} KeySetMember(rows: seq<ReportRow>, x: ReportRow)
    requires x in rows
    ensures Key(x) in KeySet(rows)
  {
    var init, last := rows[..|rows| - 1], rows[|rows| - 1];
    if x != last {
      assert rows == init + [last];
      KeySetMember(init, x);
    }
  }

  lemma {:induction false} WithRankFacts(rows: seq<ReportRow>, k: nat)
    ensures forall x :: x in WithRank(rows, k) ==> x in rows && Rank(x.checkPassed) == k
  {
    if rows != [] {
      WithRankFacts(rows[..|rows| - 1], k);
    }
  }

  lemma {:induction false} WithRankSplit(rows: seq<ReportRow>)
    ensures multiset(WithRank(rows, 0)) + multiset(WithRank(rows, 1)) + multiset(WithRank(rows, 2)) == multiset(rows)
  {
    if rows != [] {
      var init, last := rows[..|rows| - 1], rows[|rows| - 1];
      WithRankSplit(init);
      assert rows == init + [last];
      WithRankStep(rows, 0);
      WithRankStep(rows, 1);
      WithRankStep(rows, 2);
      assert multiset(rows) == multiset(init) + multiset{last};
    }
  }

  lemma WithRankStep(rows: seq<ReportRow>, k: nat)
    requires rows != []
    ensures multiset(WithRank(rows, k)) == multiset(WithRank(rows[..|rows| - 1], k))
      + if Rank(rows[|rows| - 1].checkPassed) == k then multiset{rows[|rows| - 1]} else multiset{}
  {
  }

  /** The sort is a permutation of the table. */
  lemma SortIsPermutation(rows: seq<ReportRow>)
    ensures multiset(SortedByPassed(rows)) == multiset(rows)
  {
    WithRankSplit(rows);
  }

  /** The sort puts the verdicts in order: failures, passes, then blanks. */
  lemma SortIsOrdered(rows: seq<ReportRow>)
    ensures SortedByRank(SortedByPassed(rows))
  {
    var a, b, c := WithRank(rows, 0), WithRank(rows, 1), WithRank(rows, 2);
    WithRankFacts(rows, 0);
    WithRankFacts(rows, 1);
    WithRankFacts(rows, 2);
    var s := a + b + c;
    forall i | 0 <= i < |s|
      ensures Rank(s[i].checkPassed) == if i < |a| then 0 else if i < |a| + |b| then 1 else 2
    {
      if i < |a| {
        assert s[i] == a[i];
      } else if i < |a| + |b| {
        assert s[i] == b[i - |a|];
      } else {
        assert s[i] == c[i - |a| - |b|];
      }
    }
  }

  /** Deduplication keeps only rows of the table. */
  lemma {:induction false} KeptIsRow(rows: seq<ReportRow>, y: ReportRow)
    requires y in Dedup(rows)
    ensures y in rows
  {
    var init, last := rows[..|rows| - 1], rows[|rows| - 1];
    if y != last {
      KeptIsRow(init, y);
      assert rows == init + [last];
    }
  }

  /** Deduplication loses no key. */
  lemma {:induction false} DedupKeys(rows: seq<ReportRow>)
    ensures KeySet(Dedup(rows)) == KeySet(rows)
  {
    if rows != [] {
      var init, last := rows[..|rows| - 1], rows[|rows| - 1];
      DedupKeys(init);
      if Key(last) !in KeySet(init) {
        var r := Dedup(init) + [last];
        assert r[..|r| - 1] == Dedup(init);
      }
    }
  }

  /** Deduplication keeps one row per key. */
  lemma {:induction false} DedupDistinct(rows: seq<ReportRow>)
    ensures forall i, j :: 0 <= i < j < |Dedup(rows)| ==> Key(Dedup(rows)[i]) != Key(Dedup(rows)[j])
  {
    if rows != [] {
      var init, last := rows[..|rows| - 1], rows[|rows| - 1];
      DedupDistinct(init);
      if Key(last) !in KeySet(init) {
        var d := Dedup(init);
        var r := d + [last];
        DedupKeys(init);
        forall i, j | 0 <= i < j < |r| ensures Key(r[i]) != Key(r[j]) {
          assert r[i] == d[i];
          if j < |d| {
            assert r[j] == d[j];
          } else {
            KeySetMember(d, d[i]);
          }
        }
      }
    }
  }

  /** On a table sorted by verdict, the row kept for a key has the lowest
      rank among that key's rows. */
  lemma {:induction false} DedupKeepsFirstRank(rows: seq<ReportRow>, y: ReportRow, x: ReportRow)
    requires SortedByRank(rows)
    requires y in Dedup(rows) && x in rows && Key(x) == Key(y)
    ensures Rank(y.checkPassed) <= Rank(x.checkPassed)
  {
    var init, last := rows[..|rows| - 1], rows[|rows| - 1];
    assert rows == init + [last];
    assert SortedByRank(init);
    if Key(last) in KeySet(init) {
      KeptIsRow(init, y);
      if x == last {
        LastRankBound(rows, y);
      } else {
        DedupKeepsFirstRank(init, y, x);
      }
    } else if y == last {
      if x != last {
        KeySetMember(init, x);
      }
    } else {
      DedupKeys(init);
      KeySetMember(Dedup(init), y);
      DedupKeepsFirstRank(init, y, x);
    }
  }

  /** On a table sorted by verdict, no row outranks the last one. */
  lemma LastRankBound(rows: seq<ReportRow>, x: ReportRow)
    requires SortedByRank(rows) && rows != []
    requires x in rows
    ensures Rank(x.checkPassed) <= Rank(rows[|rows| - 1].checkPassed)
  {
    var i :| 0 <= i < |rows| && rows[i] == x;
  }

  /** Tables with the same rows have the same keys. */
  lemma SameRowsSameKeys(a: seq<ReportRow>, b: seq<ReportRow>)
    requires multiset(a) == multiset(b)
    ensures KeySet(a) == KeySet(b)
  {
    KeySetImage(a);
    KeySetImage(b);
    forall g | g in KeySet(a) ensures g in KeySet(b) {
      var x :| x in a && Key(x) == g;
      assert x in multiset(a);
      KeySetMember(b, x);
    }
    forall g | g in KeySet(b) ensures g in KeySet(a) {
      var x :| x in b && Key(x) == g;
      assert x in multiset(b);
      KeySetMember(a, x);
    }
  }

  /** Series mode keeps rows of the table, one per key, and loses no key. */
  lemma SeriesKeepsKeys(rows: seq<ReportRow>)
    ensures forall y :: y in SeriesRows(rows, true) ==> y in rows
    ensures KeySet(SeriesRows(rows, true)) == KeySet(rows)
    ensures forall i, j :: 0 <= i < j < |SeriesRows(rows, true)| ==> Key(SeriesRows(rows, true)[i]) != Key(SeriesRows(rows, true)[j])
  {
    var s := SortedByPassed(rows);
    SortIsPermutation(rows);
    forall y | y in Dedup(s) ensures y in rows {
      KeptIsRow(s, y);
      assert y in multiset(s);
    }
    DedupKeys(s);
    DedupDistinct(s);
    SameRowsSameKeys(s, rows);
  }

  /** The row series mode keeps for a key is the worst of its group: a
      failing row whenever the group has one, and a blank one only when all
      are blank. */
  lemma SeriesKeepsWorst(rows: seq<ReportRow>)
    ensures forall y, x :: y in SeriesRows(rows, true) && x in rows && Key(x) == Key(y) ==>
      Rank(y.checkPassed) <= Rank(x.checkPassed)
  {
    var s := SortedByPassed(rows);
    SortIsPermutation(rows);
    SortIsOrdered(rows);
    forall y, x | y in Dedup(s) && x in rows && Key(x) == Key(y)
      ensures Rank(y.checkPassed) <= Rank(x.checkPassed)
    {
      assert x in multiset(rows);
      DedupKeepsFirstRank(s, y, x);
    }
  }

  /** The report's working copy of the table, which the series-mode
      operations change in place. */
  class Frame {
    var rows: seq<ReportRow>

    constructor (init: seq<ReportRow>)
      ensures rows == init
    {
      rows := init;
    }

    /** `sort_values('check_passed', inplace=True)`, as a stable sort. */
    method SortByPassed()
      modifies this
      ensures rows == SortedByPassed(old(rows))
    {
      var fails, passes, blanks := [], [], [];
      var i := 0;
      while i < |rows|
        invariant 0 <= i <= |rows|
        invariant fails == WithRank(rows[..i], 0)
        invariant passes == WithRank(rows[..i], 1)
        invariant blanks == WithRank(rows[..i], 2)
      {
        assert rows[..i + 1][..i] == rows[..i];
        var row := rows[i];
        if row.checkPassed == Some(false) {
          fails := fails + [row];
        } else if row.checkPassed == Some(true) {
          passes := passes + [row];
        } else {
          blanks := blanks + [row];
        }
        i := i + 1;
      }
      assert rows[..i] == rows;
      rows := fails + passes + blanks;
    }

    /** `drop_duplicates(subset=[...], keep='first', inplace=True)`. */
    method DropDuplicates()
      modifies this
      ensures rows == Dedup(old(rows))
    {
      var seen: set<GroupKey> := {};
      var kept: seq<ReportRow> := [];
      var i := 0;
      while i < |rows|
        invariant 0 <= i <= |rows|
        invariant kept == Dedup(rows[..i])
        invariant seen == KeySet(rows[..i])
      {
        assert rows[..i + 1][..i] == rows[..i];
        if Key(rows[i]) !in seen {
          kept := kept + [rows[i]];
          seen := seen + {Key(rows[i])};
        }
        i := i + 1;
      }
      assert rows[..i] == rows;
      rows := kept;
    }
  }

  /** The copy of the table a pivot report starts from: sorted and
      deduplicated in series mode, unchanged otherwise. */
  method SeriesView(validationDf: seq<ReportRow>, seriesBased: bool) returns (df: seq<ReportRow>)
    ensures df == SeriesRows(validationDf, seriesBased)
    ensures |df| <= |validationDf|
  {
    var frame := new Frame(validationDf);
    if seriesBased {
      frame.SortByPassed();
      frame.DropDuplicates();
      SortIsPermutation(validationDf);
      assert |SortedByPassed(validationDf)| == |validationDf| by {
        assert |multiset(SortedByPassed(validationDf))| == |multiset(validationDf)|;
      }
    }
    df := frame.rows;
  }

  // ---------------------------------------------------------------------
  // The pivot reports
  // ---------------------------------------------------------------------

  /** `action_df[['action', 'check_passed']]`. */
  function ActionEntries(rows: seq<ReportRow>): (r: seq<Entry<string>>)
    ensures |r| == |rows|
  {
    seq(|rows|, i requires 0 <= i < |rows| => Entry(rows[i].action, rows[i].checkPassed))
  }

  /** `action_report`: one pivot row per action, then the Total row. */
  method ActionReport(validationDf: seq<ReportRow>, seriesBased: bool)
    returns (actionPivot: seq<PivotRow<string>>, totalRow: Counts)
    ensures actionPivot == PivotOf(ActionEntries(SeriesRows(validationDf, seriesBased)))
    ensures totalRow == Tally(ActionEntries(SeriesRows(validationDf, seriesBased)))
    ensures Total(totalRow) == |SeriesRows(validationDf, seriesBased)| <= |validationDf|
  {
    var actionDf := SeriesView(validationDf, seriesBased);
    var entries := ActionEntries(actionDf);
    actionPivot := PivotOf(entries);
    totalRow := ColumnSums(actionPivot);
    PivotTotals(entries);
  }

  /** The category pivot's index values; rows whose subcategory is null have
      none and drop out of the pivot. */
  function CategoryEntries(rows: seq<ReportRow>): (r: seq<Entry<(string, string)>>)
    ensures |r| <= |rows|
  {
    if rows == [] then []
    else
      var row := rows[|rows| - 1];
      var c := CategoryOf(row);
      (CategoryEntries(rows[..|rows| - 1])
        + (if c.subcategory.Some? then [Entry((c.category, c.subcategory.value), row.checkPassed)] else []))
  }

  /** `category_report`: one pivot row per (category, subcategory), then the
      Total row, which counts the rows with a subcategory. */
  method CategoryReport(validationDf: seq<ReportRow>, seriesBased: bool)
    returns (categoryPivot: seq<PivotRow<(string, string)>>, totalRow: Counts)
    ensures categoryPivot == PivotOf(CategoryEntries(SeriesRows(validationDf, seriesBased)))
    ensures totalRow == Tally(CategoryEntries(SeriesRows(validationDf, seriesBased)))
    ensures Total(totalRow) <= |SeriesRows(validationDf, seriesBased)| <= |validationDf|
  {
    var totalDf := SeriesView(validationDf, seriesBased);
    var entries := CategoryEntries(totalDf);
    categoryPivot := PivotOf(entries);
    totalRow := ColumnSums(categoryPivot);
    PivotTotals(entries);
  }

  /** A row of the scoring table: its category, its counts and its score
      (null before the scoring loop reaches it). */
  datatype ScoringRow = ScoringRow(category: string, counts: Counts, score: Option<TextMatcher.Ratio>)

  /** `passed / total`; with no rows numpy yields NaN, modelled as no score. */
  function ScoreOf(c: Counts): Option<TextMatcher.Ratio> {
    if Total(c) == 0 then None else Some(TextMatcher.Ratio(c.pass, Total(c)))
  }

  /** The score is a proportion, and it is one exactly when every counted
      row passed. */
  lemma ScoreMeaning(c: Counts)
    ensures ScoreOf(c).Some? <==> Total(c) > 0
    ensures ScoreOf(c).Some? ==> TextMatcher.ValidScore(ScoreOf(c).value)
    ensures ScoreOf(c).Some? ==> (ScoreOf(c).value.num == ScoreOf(c).value.den <==> c.blank == 0 && c.fail == 0)
    ensures ScoreOf(c).Some? ==> (ScoreOf(c).value.num == 0 <==> c.pass == 0)
  {
  }

  function ScoringEntries(rows: seq<ReportRow>): (r: seq<Entry<string>>)
    ensures |r| == |rows|
  {
    seq(|rows|, i requires 0 <= i < |rows| => Entry("All", rows[i].checkPassed))
  }

  /** The scoring pivot has the single row "All" when there are rows, and
      it counts every row. */
  lemma ScoringPivotShape(rows: seq<ReportRow>)
    ensures PivotOf(ScoringEntries(rows)) ==
      if rows == [] then [] else [PivotRow("All", Tally(ScoringEntries(rows)))]
    ensures Total(Tally(ScoringEntries(rows))) == |rows|
  {
    var entries := ScoringEntries(rows);
    TallyTotal(entries);
    if rows != [] {
      SingleKeyPivot(entries, "All");
    }
  }

  /** `scoring_report`: every row in category "All", one pivot row and the
      Total row, the loop writing each row's score, then the Total row
      dropped. What is left is the "All" row, whose score is the share of
      rows that passed. */
  method ScoringReport(validationDf: seq<ReportRow>, seriesBased: bool) returns (scoringPivot: seq<ScoringRow>)
    ensures var rows := SeriesRows(validationDf, seriesBased);
      var counts := Tally(ScoringEntries(rows));
      scoringPivot == if rows == [] then []
                      else [ScoringRow("All", counts, Some(TextMatcher.Ratio(counts.pass, |rows|)))]
  {
    var scoringDf := SeriesView(validationDf, seriesBased);
    var entries := ScoringEntries(scoringDf);
    var pivot := PivotOf(entries);
    var table: seq<ScoringRow> := [];
    for i := 0 to |pivot|
      invariant |table| == i
      invariant forall n :: 0 <= n < i ==> table[n] == ScoringRow(pivot[n].key, pivot[n].counts, None)
    {
      table := table + [ScoringRow(pivot[i].key, pivot[i].counts, None)];
    }
    table := table + [ScoringRow("Total", ColumnSums(pivot), None)];
    for index := 0 to |table|
      invariant |table| == |pivot| + 1
      invariant forall n :: 0 <= n < |pivot| ==> table[n].category == pivot[n].key && table[n].counts == pivot[n].counts
      invariant forall n :: 0 <= n < index ==> table[n].score == ScoreOf(table[n].counts)
    {
      var row := table[index];
      var passed := row.counts.pass;
      var total := Total(row.counts);
      var catScore := if total == 0 then None else Some(TextMatcher.Ratio(passed, total));
      table := table[index := row.(score := catScore)];
    }
    scoringPivot := table[..|table| - 1];
    ScoringPivotShape(scoringDf);
    if scoringDf != [] {
      assert scoringPivot == [table[0]];
    }
  }
}
