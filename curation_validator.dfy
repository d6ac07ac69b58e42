/** The check engine: which answer-key checks apply to an indexed file, how
    each of the seven check kinds judges the file's value, and the
    append-only result dictionary the checks write into. */
module CurationValidator {

  import opened Wrappers
  import opened Text
  import opened TextMatcher
  import opened AnswerPreparer
  import FileIndexer

  // ---------------------------------------------------------------------
  // The file table
  // ---------------------------------------------------------------------

  /** A row of the batch's file table. The table is built from one
      dictionary per file, so its columns are the union of the keys of all
      files in the batch; a column this file has no entry for is a null cell. */
  datatype FileRow = FileRow(columns: set<string>, cells: map<string, string>)

  /** The union of the keys of the batch's rows. */
  function Columns(rows: seq<map<string, string>>): set<string> {
    if rows == [] then {} else rows[0].Keys + Columns(rows[1..])
  }

  /** `pd.DataFrame.from_dict(table_dict, 'index')`. */
  function FileTable(rows: seq<map<string, string>>): (t: seq<FileRow>)
    ensures |t| == |rows|
  {
    seq(|rows|, i requires 0 <= i < |rows| => FileRow(Columns(rows), rows[i]))
  }

  /** Every file of the batch sees every other file's keys as columns. */
  lemma {:induction false} TableColumns(rows: seq<map<string, string>>)
    ensures forall i, j :: 0 <= i < |rows| && 0 <= j < |rows| ==>
      FileTable(rows)[i].columns == FileTable(rows)[j].columns && rows[j].Keys <= FileTable(rows)[i].columns
  {
    ColumnsCover(rows);
  }

  lemma {:induction false} ColumnsCover(rows: seq<map<string, string>>)
    ensures forall j :: 0 <= j < |rows| ==> rows[j].Keys <= Columns(rows)
  {
    if rows != [] {
      ColumnsCover(rows[1..]);
      assert forall j :: 1 <= j < |rows| ==> rows[j] == rows[1..][j - 1];
    }
  }

  /** The cell in a column, or null. */
  function CellValue(f: FileRow, column: string): Option<string> {
    if column in f.cells then Some(f.cells[column]) else None
  }

  // ---------------------------------------------------------------------
  // Scope: which answer rows apply to a file
  // ---------------------------------------------------------------------

  /** The scope rule. With a `scope` column a row applies through the UID of
      its scope level; without one, only through the instance UID. A null
      identity cell equals nothing. */
  predicate Applies(p: PreparedRow, f: FileRow, hasScope: bool) {
    if hasScope then
      || (p.original.scope == Some("<Instance>") && Some(p.newInstance) == CellValue(f, "instance"))
      || (p.original.scope == Some("<Series>") && Some(p.newSeries) == CellValue(f, "series"))
      || ((p.original.scope == Some("<Study>") || p.original.scope == Some("<Patient>"))
          && Some(p.newStudy) == CellValue(f, "study"))
    else
      Some(p.newInstance) == CellValue(f, "instance")
  }

  /** The boolean-mask selection of the applicable answer rows, in order. */
  function FileAnswerData(answers: seq<PreparedRow>, f: FileRow, hasScope: bool): (r: seq<PreparedRow>)
    ensures |r| <= |answers|
  {
    if answers == [] then []
    else (FileAnswerData(answers[..|answers| - 1], f, hasScope)
      + (if Applies(answers[|answers| - 1], f, hasScope) then [answers[|answers| - 1]] else []))
  }

  /** The selection keeps exactly the rows the scope rule admits. */
  lemma {:induction false} ScopeFilter(answers: seq<PreparedRow>, f: FileRow, hasScope: bool)
    ensures forall p :: p in FileAnswerData(answers, f, hasScope) <==> p in answers && Applies(p, f, hasScope)
  {
    if answers != [] {
      var init := answers[..|answers| - 1];
      ScopeFilter(init, f, hasScope);
      assert answers == init + [answers[|answers| - 1]];
    }
  }

  /** A row scoped to its series applies to every file of that series and
      a row scoped to its study or patient to every file of that study,
      whatever the instance; without a scope column the instance decides. */
  lemma ScopeLevels(p: PreparedRow, f: FileRow, hasScope: bool)
    ensures hasScope && p.original.scope == Some("<Instance>") ==>
      (Applies(p, f, hasScope) <==> Some(p.newInstance) == CellValue(f, "instance"))
    ensures hasScope && p.original.scope == Some("<Series>") ==>
      (Applies(p, f, hasScope) <==> Some(p.newSeries) == CellValue(f, "series"))
    ensures hasScope && p.original.scope in {Some("<Study>"), Some("<Patient>")} ==>
      (Applies(p, f, hasScope) <==> Some(p.newStudy) == CellValue(f, "study"))
    ensures hasScope && p.original.scope !in {Some("<Instance>"), Some("<Series>"), Some("<Study>"), Some("<Patient>")} ==>
      !Applies(p, f, hasScope)
    ensures !hasScope ==> (Applies(p, f, hasScope) <==> Some(p.newInstance) == CellValue(f, "instance"))
  {
  }

  /** `flatten_answer_data`: the decoded checks of the applicable rows, row
      after row. */
  function AnswerChecks(rows: seq<PreparedRow>): seq<Check> {
    if rows == [] then [] else AnswerChecks(rows[..|rows| - 1]) + rows[|rows| - 1].original.checks
  }

  // ---------------------------------------------------------------------
  // The seven check kinds
  // ---------------------------------------------------------------------

  datatype Kind = TagRetained | TextNotNull | TextRetained | TextRemoved | DateShifted | UidChanged | PixelsHidden

  /** The `action` value that selects each kind. */
  function ActionOf(k: Kind): string {
    match k
    case TagRetained => "<tag_retained>"
    case TextNotNull => "<text_notnull>"
    case TextRetained => "<text_retained>"
    case TextRemoved => "<text_removed>"
    case DateShifted => "<date_shifted>"
    case UidChanged => "<uid_changed>"
    case PixelsHidden => "<pixels_hidden>"
  }

  const KnownActions: set<string> := {
    "<tag_retained>", "<text_notnull>", "<text_retained>", "<text_removed>",
    "<date_shifted>", "<uid_changed>", "<pixels_hidden>"}

  /** `answer_df[answer_df.action == ...]`. */
  function Selected(checks: seq<Check>, k: Kind): (r: seq<Check>)
    ensures |r| <= |checks|
  {
    if checks == [] then []
    else (Selected(checks[..|checks| - 1], k)
      + (if checks[|checks| - 1].action == ActionOf(k) then [checks[|checks| - 1]] else []))
  }

  /** What a check leaves for `log_error`: the file value it read and its
      verdict, each null when never set. */
  datatype Outcome = Outcome(fileValue: Option<string>, passed: Option<bool>, score: Option<Ratio>)

  const Failed: Outcome := Outcome(None, Some(false), Some(Zero))
  const Passed: Outcome := Outcome(None, Some(true), Some(One))

  /** The outcome of a text comparison; an exception leaves the verdict null
      and the file value as already read. */
  function FromMatch(fileValue: Option<string>, r: Result<Verdict, Raised>): Outcome {
    if r.Ok? then Outcome(fileValue, Some(r.value.passed), Some(r.value.score))
    else Outcome(fileValue, None, None)
  }

  /** The test `date_shifted` and `uid_changed` share: the expected value,
      without brackets, must no longer occur in the file value, backslashes
      ignored on both sides. */
  predicate StillPresent(fileValue: string, expected: string) {
    Contains(RemoveAll(fileValue, '\\'), RemoveAll(RemoveAll(RemoveAll(expected, '<'), '>'), '\\'))
  }

  /** The outcome of one check of kind `k` against a file row. */
  function Evaluate(k: Kind, c: Check, f: FileRow, m: Matcher): Outcome {
    var present := c.tagDs in f.columns;
    var cell := CellValue(f, c.tagDs);
    match k
    case TagRetained =>
      if present then Outcome(cell, Some(true), Some(One)) else Failed
    case TextNotNull =>
      if !present then Failed
      else if cell == Some("<>") then Outcome(cell, Some(false), Some(Zero))
      else Outcome(cell, Some(true), Some(One))
    case TextRetained =>
      if !present then Failed
      else if Truthy(cell) then FromMatch(cell, MatchText(cell.value, c.actionText, Retain, m))
      else Outcome(cell, Some(false), Some(Zero))
    case TextRemoved =>
      if !present then Passed
      else
        var v := if cell == Some(FileIndexer.Elided) then Some("<>") else cell;
        if Truthy(v) then FromMatch(v, MatchText(v.value, c.actionText, Remove, m))
        else Outcome(v, Some(true), Some(One))
    case DateShifted => Changed(c, f)
    case UidChanged => Changed(c, f)
    case PixelsHidden => Outcome(None, None, None)
  }

  function Changed(c: Check, f: FileRow): Outcome {
    if c.tagDs !in f.columns then Passed
    else
      var v := if c.tagDs in f.cells then f.cells[c.tagDs] else "";
      if c.value.None? then Outcome(Some(v), None, None)
      else if StillPresent(v, c.value.value) then Outcome(Some(v), Some(false), Some(Zero))
      else Outcome(Some(v), Some(true), Some(One))
  }

  // ---------------------------------------------------------------------
  // Check policies
  // ---------------------------------------------------------------------

  /** A tag that is not a column of the file table: the retaining checks
      fail, the removing and changing checks pass, and `pixels_hidden`
      records no verdict. */
  lemma AbsentTag(k: Kind, c: Check, f: FileRow, m: Matcher)
    requires c.tagDs !in f.columns
    ensures k in {TagRetained, TextNotNull, TextRetained} ==> Evaluate(k, c, f, m) == Failed
    ensures k in {TextRemoved, DateShifted, UidChanged} ==> Evaluate(k, c, f, m) == Passed
    ensures k == PixelsHidden ==> Evaluate(k, c, f, m) == Outcome(None, None, None)
  {
  }

  /** `tag_retained` passes exactly when the tag is a column, even when this
      file's cell is null; `text_notnull` passes exactly when the tag is a
      column whose cell is not the empty marker `<>`. */
  lemma PresenceChecks(c: Check, f: FileRow, m: Matcher)
    ensures Evaluate(TagRetained, c, f, m).passed == Some(c.tagDs in f.columns)
    ensures Evaluate(TagRetained, c, f, m).score == Some(if c.tagDs in f.columns then One else Zero)
    ensures Evaluate(TextNotNull, c, f, m).passed == Some(c.tagDs in f.columns && CellValue(f, c.tagDs) != Some("<>"))
    ensures Evaluate(TextNotNull, c, f, m).score == Some(if Evaluate(TextNotNull, c, f, m).passed == Some(true) then One else Zero)
  {
  }

  /** The two text checks read a missing or null value in opposite ways. */
  lemma MissingTextValue(c: Check, f: FileRow, m: Matcher)
    requires c.tagDs !in f.cells
    ensures Evaluate(TextRetained, c, f, m).passed == Some(false)
    ensures Evaluate(TextRetained, c, f, m).score == Some(Zero)
    ensures Evaluate(TextRemoved, c, f, m).passed == Some(true)
    ensures Evaluate(TextRemoved, c, f, m).score == Some(One)
  {
  }

  /** A present text value is compared with the expected text; for
      `text_removed` the elided marker first becomes `<>`. */
  lemma PresentTextValue(c: Check, f: FileRow, m: Matcher)
    requires c.tagDs in f.columns && c.tagDs in f.cells && f.cells[c.tagDs] != ""
    ensures Evaluate(TextRetained, c, f, m) ==
      FromMatch(Some(f.cells[c.tagDs]), MatchText(f.cells[c.tagDs], c.actionText, Retain, m))
    ensures f.cells[c.tagDs] == "<REMOVED>" ==>
      Evaluate(TextRemoved, c, f, m) == FromMatch(Some("<>"), MatchText("<>", c.actionText, Remove, m))
    ensures f.cells[c.tagDs] != "<REMOVED>" ==>
      Evaluate(TextRemoved, c, f, m) == FromMatch(Some(f.cells[c.tagDs]), MatchText(f.cells[c.tagDs], c.actionText, Remove, m))
  {
  }

  /** `date_shifted` and `uid_changed` judge alike: they fail exactly when
      the expected value survives in the file value, pass when the tag is
      not a column, and record no verdict when the expected value is null. */
  lemma ChangePolicy(c: Check, f: FileRow, m: Matcher)
    ensures Evaluate(DateShifted, c, f, m) == Evaluate(UidChanged, c, f, m)
    ensures c.tagDs in f.columns && c.value.Some? ==>
      Evaluate(DateShifted, c, f, m).passed == Some(!StillPresent(if c.tagDs in f.cells then f.cells[c.tagDs] else "", c.value.value))
    ensures c.tagDs in f.columns && c.value.None? ==> Evaluate(DateShifted, c, f, m).passed.None?
    ensures c.tagDs !in f.columns ==> Evaluate(DateShifted, c, f, m) == Passed
  {
  }

  /** A verdict is recorded with a score in [0, 1], and a null verdict with
      a null score. */
  lemma OutcomeShape(k: Kind, c: Check, f: FileRow, m: Matcher)
    ensures Evaluate(k, c, f, m).passed.Some? <==> Evaluate(k, c, f, m).score.Some?
    ensures Evaluate(k, c, f, m).score.Some? ==> ValidScore(Evaluate(k, c, f, m).score.value)
  {
    if k in {TextRetained, TextRemoved} {
      if c.tagDs in f.cells {
        ScoresInRange(f.cells[c.tagDs], c.actionText, Retain, m);
        ScoresInRange(f.cells[c.tagDs], c.actionText, Remove, m);
      }
      ScoresInRange("<>", c.actionText, Remove, m);
    }
  }

  // ---------------------------------------------------------------------
  // Result rows and the result dictionary
  // ---------------------------------------------------------------------

  /** One entry of the result dictionary. */
  datatype ResultRow = ResultRow(
    fileIndex: nat,
    checkIndex: string,
    checkPassed: Option<bool>,
    checkScore: Option<Ratio>,
    action: string,
    actionText: Option<string>,
    answerCategory: string,
    fileValue: Option<string>,
    answerValue: Option<string>,
    tag: string,
    tagDs: string,
    tagName: string,
    modality: Option<string>,
    sopClass: Option<string>,
    patient: Option<string>,
    study: Option<string>,
    series: Option<string>,
    instance: Option<string>,
    fileName: Option<string>,
    filePath: Option<string>)

  /** The column names `log_error` gives a result row, one per field of
      `ResultRow`: every column the stored results table has. */
  const LoggedColumns: set<string> := {
    "file_index", "check_index", "check_passed", "check_score", "action", "action_text",
    "answer_category", "file_value", "answer_value", "tag", "tag_ds", "tag_name",
    "modality", "class", "patient", "study", "series", "instance", "file_name", "file_path"}

  /** The entry `log_error` writes: fields copied from the check and the file
      row, the category wrapped in angle brackets. */
  function LogRow(fileIndex: nat, f: FileRow, c: Check, o: Outcome): ResultRow {
    ResultRow(fileIndex, c.key, o.passed, o.score, c.action, c.actionText, "<" + c.answerCategory + ">",
      o.fileValue, c.value, c.tag, c.tagDs, c.tagName,
      CellValue(f, "modality"), CellValue(f, "class"), CellValue(f, "patient"), CellValue(f, "study"),
      CellValue(f, "series"), CellValue(f, "instance"), CellValue(f, "file_name"), CellValue(f, "file_path"))
  }

  /** The rows one `validate_*` loop logs for its selected checks: one per
      check, in order. */
  function KindRows(k: Kind, checks: seq<Check>, fileIndex: nat, f: FileRow, m: Matcher): (r: seq<ResultRow>)
    ensures |r| == |checks|
    decreases |checks|
  {
    if checks == [] then []
    else (KindRows(k, checks[..|checks| - 1], fileIndex, f, m)
      + [LogRow(fileIndex, f, checks[|checks| - 1], Evaluate(k, checks[|checks| - 1], f, m))])
  }

  /** The rows one file yields: the seven kinds in dispatch order. */
  function FileResults(fileIndex: nat, f: FileRow, answers: seq<PreparedRow>, hasScope: bool, m: Matcher): seq<ResultRow> {
    var applicable := FileAnswerData(answers, f, hasScope);
    if applicable == [] then []
    else Dispatch(AnswerChecks(applicable), fileIndex, f, m)
  }

  function Dispatch(answerDf: seq<Check>, fileIndex: nat, f: FileRow, m: Matcher): seq<ResultRow> {
    KindRows(TagRetained, Selected(answerDf, TagRetained), fileIndex, f, m)
    + KindRows(TextNotNull, Selected(answerDf, TextNotNull), fileIndex, f, m)
    + KindRows(TextRetained, Selected(answerDf, TextRetained), fileIndex, f, m)
    + KindRows(TextRemoved, Selected(answerDf, TextRemoved), fileIndex, f, m)
    + KindRows(DateShifted, Selected(answerDf, DateShifted), fileIndex, f, m)
    + KindRows(UidChanged, Selected(answerDf, UidChanged), fileIndex, f, m)
    + KindRows(PixelsHidden, Selected(answerDf, PixelsHidden), fileIndex, f, m)
  }

  /** The checks whose action is one of the seven kinds, in order. */
  function Evaluated(checks: seq<Check>): (r: seq<Check>)
    ensures |r| <= |checks|
  {
    if checks == [] then []
    else (Evaluated(checks[..|checks| - 1])
      + (if checks[|checks| - 1].action in KnownActions then [checks[|checks| - 1]] else []))
  }

  /** Only the seven kinds are evaluated: a check with any other action
      (`<uid_consistent>`, say) yields no row, so a file's rows number its
      checks of the seven kinds, and every row carries one of their actions. */
  lemma OnlySevenKinds(answerDf: seq<Check>, fileIndex: nat, f: FileRow, m: Matcher)
    ensures |Dispatch(answerDf, fileIndex, f, m)| == |Evaluated(answerDf)|
    ensures forall r :: r in Dispatch(answerDf, fileIndex, f, m) ==> r.action in KnownActions
  {
    SelectedCounts(answerDf);
    KindRowsAction(TagRetained, answerDf, fileIndex, f, m);
    KindRowsAction(TextNotNull, answerDf, fileIndex, f, m);
    KindRowsAction(TextRetained, answerDf, fileIndex, f, m);
    KindRowsAction(TextRemoved, answerDf, fileIndex, f, m);
    KindRowsAction(DateShifted, answerDf, fileIndex, f, m);
    KindRowsAction(UidChanged, answerDf, fileIndex, f, m);
    KindRowsAction(PixelsHidden, answerDf, fileIndex, f, m);
  }

  /** The seven selections together hold each evaluated check once. */
  lemma {:induction false} SelectedCounts(checks: seq<Check>)
    ensures |Selected(checks, TagRetained)| + |Selected(checks, TextNotNull)| + |Selected(checks, TextRetained)|
      + |Selected(checks, TextRemoved)| + |Selected(checks, DateShifted)| + |Selected(checks, UidChanged)|
      + |Selected(checks, PixelsHidden)| == |Evaluated(checks)|
  {
    if checks != [] {
      var init, last := checks[..|checks| - 1], checks[|checks| - 1];
      SelectedCounts(init);
      SelectedLength(checks, TagRetained);
      SelectedLength(checks, TextNotNull);
      SelectedLength(checks, TextRetained);
      SelectedLength(checks, TextRemoved);
      SelectedLength(checks, DateShifted);
      SelectedLength(checks, UidChanged);
      SelectedLength(checks, PixelsHidden);
      assert |Evaluated(checks)| == |Evaluated(init)| + (if last.action in KnownActions then 1 else 0);
    }
  }

  lemma SelectedLength(checks: seq<Check>, k: Kind)
    requires checks != []
    ensures |Selected(checks, k)| == |Selected(checks[..|checks| - 1], k)| + (if checks[|checks| - 1].action == ActionOf(k) then 1 else 0)
  {
  }

  /** The rows logged for a selection carry the action of its kind. */
  lemma {:induction false} KindRowsAction(k: Kind, checks: seq<Check>, fileIndex: nat, f: FileRow, m: Matcher)
    ensures forall r :: r in KindRows(k, Selected(checks, k), fileIndex, f, m) ==> r.action == ActionOf(k)
  {
    SelectedAction(checks, k);
    RowsKeepAction(k, Selected(checks, k), fileIndex, f, m);
  }

  lemma {:induction false} SelectedAction(checks: seq<Check>, k: Kind)
    ensures forall c :: c in Selected(checks, k) ==> c.action == ActionOf(k)
  {
    if checks != [] {
      SelectedAction(checks[..|checks| - 1], k);
    }
  }

  lemma {:induction false} RowsKeepAction(k: Kind, cs: seq<Check>, fileIndex: nat, f: FileRow, m: Matcher)
    requires forall c :: c in cs ==> c.action == ActionOf(k)
    ensures forall r :: r in KindRows(k, cs, fileIndex, f, m) ==> r.action == ActionOf(k)
    decreases |cs|
  {
    if cs != [] {
      var init := cs[..|cs| - 1];
      assert forall c :: c in init ==> c in cs;
      RowsKeepAction(k, init, fileIndex, f, m);
      assert cs[|cs| - 1] in cs;
    }
  }

  /** The rows of the first `n` files, file after file. */
  function Results(files: seq<FileRow>, n: nat, answers: seq<PreparedRow>, hasScope: bool, m: Matcher): seq<ResultRow>
    requires n <= |files|
  {
    if n == 0 then [] else Results(files, n - 1, answers, hasScope, m) + FileResults(n - 1, files[n - 1], answers, hasScope, m)
  }

  /** The dictionary after writing `rows` at consecutive keys from `i`. */
  function Extend(d: map<nat, ResultRow>, i: nat, rows: seq<ResultRow>): map<nat, ResultRow>
    decreases |rows|
  {
    if rows == [] then d else Extend(d, i, rows[..|rows| - 1])[i + |rows| - 1 := rows[|rows| - 1]]
  }

  /** Writing at consecutive keys adds exactly those keys, puts row `j` at
      key `i + j`, and leaves every other entry as it was. */
  lemma {:induction false} ExtendFacts(d: map<nat, ResultRow>, i: nat, rows: seq<ResultRow>)
    ensures forall k :: k in Extend(d, i, rows) <==> k in d || i <= k < i + |rows|
    ensures forall j :: 0 <= j < |rows| ==> Extend(d, i, rows)[i + j] == rows[j]
    ensures forall k :: k in d && !(i <= k < i + |rows|) ==> Extend(d, i, rows)[k] == d[k]
    decreases |rows|
  {
    if rows != [] {
      var init := rows[..|rows| - 1];
      ExtendFacts(d, i, init);
      assert forall j :: 0 <= j < |init| ==> init[j] == rows[j];
    }
  }

  /** Writing two runs one after the other is writing their concatenation. */
  lemma {:induction false} ExtendAppend(d: map<nat, ResultRow>, i: nat, a: seq<ResultRow>, b: seq<ResultRow>)
    ensures Extend(Extend(d, i, a), i + |a|, b) == Extend(d, i, a + b)
    decreases |b|
  {
    if b == [] {
      assert a + b == a;
    } else {
      var init := b[..|b| - 1];
      ExtendAppend(d, i, a, init);
      assert (a + b)[..|a + b| - 1] == a + init;
    }
  }

  /** The dictionary `validate_files` returns: key `k` holds the `k`-th row. */
  lemma Numbered(rows: seq<ResultRow>)
    ensures forall k: nat :: k in Extend(map[], 0, rows) <==> k < |rows|
    ensures forall k: nat :: k < |rows| ==> Extend(map[], 0, rows)[k] == rows[k]
  {
    ExtendFacts(map[], 0, rows);
    assert forall k: nat :: k < |rows| ==> Extend(map[], 0, rows)[0 + k] == rows[k];
  }

  /** `error_dict`: the results, keyed by the running counter. */
  class ErrorDict {
    var entries: map<nat, ResultRow>

    constructor ()
      ensures entries == map[]
    {
      entries := map[];
    }

    /** `log_error`: write one entry at `errorIter` and return the next key. */
    method LogError(errorIter: nat, fileIndex: nat, fileRow: FileRow, checkRow: Check,
                    fileValue: Option<string>, passed: Option<bool>, score: Option<Ratio>) returns (next: nat)
      modifies this
      ensures entries == old(entries)[errorIter := LogRow(fileIndex, fileRow, checkRow, Outcome(fileValue, passed, score))]
      ensures next == errorIter + 1
    {
      var row := ResultRow(fileIndex, checkRow.key, passed, score, checkRow.action, checkRow.actionText,
        "<" + checkRow.answerCategory + ">", fileValue, checkRow.value, checkRow.tag, checkRow.tagDs, checkRow.tagName,
        CellValue(fileRow, "modality"), CellValue(fileRow, "class"), CellValue(fileRow, "patient"),
        CellValue(fileRow, "study"), CellValue(fileRow, "series"), CellValue(fileRow, "instance"),
        CellValue(fileRow, "file_name"), CellValue(fileRow, "file_path"));
      entries := entries[errorIter := row];
      next := errorIter + 1;
    }
  }

  // ---------------------------------------------------------------------
  // The checks, as the source performs them
  // ---------------------------------------------------------------------

  /** The body of one `validate_*` iteration: read the file value, then
      judge it; a caught exception leaves the verdict null. */
  method EvaluateCheck(k: Kind, checkRow: Check, fileRow: FileRow, m: Matcher) returns (o: Outcome)
    ensures o == Evaluate(k, checkRow, fileRow, m)
  {
    var fileValue: Option<string> := None;
    var checkPass: Option<bool> := None;
    var checkScore: Option<Ratio> := None;
    var present := checkRow.tagDs in fileRow.columns;
    match k {
      case TagRetained =>
        if present {
          fileValue := CellValue(fileRow, checkRow.tagDs);
          checkPass, checkScore := Some(true), Some(One);
        } else {
          checkPass, checkScore := Some(false), Some(Zero);
        }
      case TextNotNull =>
        if present {
          fileValue := CellValue(fileRow, checkRow.tagDs);
          if fileValue == Some("<>") {
            checkPass, checkScore := Some(false), Some(Zero);
          } else {
            checkPass, checkScore := Some(true), Some(One);
          }
        } else {
          checkPass, checkScore := Some(false), Some(Zero);
        }
      case TextRetained =>
        if present {
          fileValue := CellValue(fileRow, checkRow.tagDs);
          if Truthy(fileValue) {
            var r := ValidateText(fileValue.value, checkRow.actionText, Retain, m);
            if r.Ok? {
              checkPass, checkScore := Some(r.value.passed), Some(r.value.score);
            }
          } else {
            checkPass, checkScore := Some(false), Some(Zero);
          }
        } else {
          checkPass, checkScore := Some(false), Some(Zero);
        }
      case TextRemoved =>
        if present {
          fileValue := CellValue(fileRow, checkRow.tagDs);
          fileValue := if fileValue == Some(FileIndexer.Elided) then Some("<>") else fileValue;
          if Truthy(fileValue) {
            var r := ValidateText(fileValue.value, checkRow.actionText, Remove, m);
            if r.Ok? {
              checkPass, checkScore := Some(r.value.passed), Some(r.value.score);
            }
          } else {
            checkPass, checkScore := Some(true), Some(One);
          }
        } else {
          checkPass, checkScore := Some(true), Some(One);
        }
      case DateShifted =>
        fileValue, checkPass, checkScore := ValidateChanged(checkRow, fileRow);
      case UidChanged =>
        fileValue, checkPass, checkScore := ValidateChanged(checkRow, fileRow);
      case PixelsHidden =>
    }
    o := Outcome(fileValue, checkPass, checkScore);
  }

  /** The shared body of `validate_date_shifted` and `validate_uid_changed`. */
  method ValidateChanged(checkRow: Check, fileRow: FileRow) returns (fileValue: Option<string>, checkPass: Option<bool>, checkScore: Option<Ratio>)
    ensures Outcome(fileValue, checkPass, checkScore) == Changed(checkRow, fileRow)
  {
    fileValue, checkPass, checkScore := None, None, None;
    if checkRow.tagDs in fileRow.columns {
      var v := if checkRow.tagDs in fileRow.cells then fileRow.cells[checkRow.tagDs] else "";
      fileValue := Some(v);
      if checkRow.value.Some? {
        var checkValue := RemoveAll(RemoveAll(checkRow.value.value, '<'), '>');
        if Contains(RemoveAll(v, '\\'), RemoveAll(checkValue, '\\')) {
          checkPass, checkScore := Some(false), Some(Zero);
        } else {
          checkPass, checkScore := Some(true), Some(One);
        }
      }
    } else {
      checkPass, checkScore := Some(true), Some(One);
    }
  }

  /** One iteration of a `validate_*` loop: judge the check, then log it
      whatever happened. */
  method CheckAndLog(k: Kind, checkRow: Check, fileIndex: nat, fileRow: FileRow,
                     errorDict: ErrorDict, errorIter: nat, m: Matcher) returns (next: nat)
    modifies errorDict
    ensures errorDict.entries == old(errorDict.entries)[errorIter := LogRow(fileIndex, fileRow, checkRow, Evaluate(k, checkRow, fileRow, m))]
    ensures next == errorIter + 1
  {
    var o := EvaluateCheck(k, checkRow, fileRow, m);
    next := errorDict.LogError(errorIter, fileIndex, fileRow, checkRow, o.fileValue, o.passed, o.score);
  }

  /** One `validate_*` method: every selected check logs exactly one entry. */
  method ValidateKind(k: Kind, dataCheck: seq<Check>, fileIndex: nat, fileRow: FileRow,
                      errorDict: ErrorDict, errorIter: nat, m: Matcher) returns (next: nat)
    modifies errorDict
    ensures errorDict.entries == Extend(old(errorDict.entries), errorIter, KindRows(k, dataCheck, fileIndex, fileRow, m))
    ensures next == errorIter + |dataCheck|
  {
    ghost var start := errorDict.entries;
    ghost var done: seq<ResultRow> := [];
    next := errorIter;
    var j := 0;
    while j < |dataCheck|
      invariant 0 <= j <= |dataCheck|
      invariant next == errorIter + j == errorIter + |done|
      invariant done == KindRows(k, dataCheck[..j], fileIndex, fileRow, m)
      invariant errorDict.entries == Extend(start, errorIter, done)
    {
      var checkRow := dataCheck[j];
      ghost var row := LogRow(fileIndex, fileRow, checkRow, Evaluate(k, checkRow, fileRow, m));
      KindRowsStep(k, dataCheck, j, fileIndex, fileRow, m);
      ExtendSnoc(start, errorIter, done, row);
      next := CheckAndLog(k, checkRow, fileIndex, fileRow, errorDict, next, m);
      done := done + [row];
      j := j + 1;
    }
    assert dataCheck[..j] == dataCheck;
  }

  lemma KindRowsStep(k: Kind, cs: seq<Check>, j: nat, fileIndex: nat, f: FileRow, m: Matcher)
    requires j < |cs|
    ensures KindRows(k, cs[..j + 1], fileIndex, f, m)
      == KindRows(k, cs[..j], fileIndex, f, m) + [LogRow(fileIndex, f, cs[j], Evaluate(k, cs[j], f, m))]
  {
    assert cs[..j + 1][..j] == cs[..j];
  }

  lemma ExtendSnoc(d: map<nat, ResultRow>, i: nat, done: seq<ResultRow>, row: ResultRow)
    ensures Extend(d, i, done + [row]) == Extend(d, i, done)[i + |done| := row]
  {
    assert (done + [row])[..|done|] == done;
  }

  /** The seven selections and `validate_*` calls for one file. */
  method DispatchChecks(answerDf: seq<Check>, fileIndex: nat, fileRow: FileRow,
                        errorDict: ErrorDict, errorIter: nat, m: Matcher) returns (next: nat)
    modifies errorDict
    ensures errorDict.entries == Extend(old(errorDict.entries), errorIter, Dispatch(answerDf, fileIndex, fileRow, m))
    ensures next == errorIter + |Dispatch(answerDf, fileIndex, fileRow, m)|
  {
    ghost var e0 := errorDict.entries;
    next := errorIter;

    // tag_retained
    var tagRetainCheck := Selected(answerDf, TagRetained);
    ghost var r0 := KindRows(TagRetained, tagRetainCheck, fileIndex, fileRow, m);
    ghost var i0 := next;
    next := ValidateKind(TagRetained, tagRetainCheck, fileIndex, fileRow, errorDict, next, m);
    ghost var e1 := errorDict.entries;
    assert e1 == Extend(e0, i0, r0) && next == i0 + |r0|;

    // text_notnull
    var textNotnullCheck := Selected(answerDf, TextNotNull);
    ghost var r1 := KindRows(TextNotNull, textNotnullCheck, fileIndex, fileRow, m);
    ghost var i1 := next;
    next := ValidateKind(TextNotNull, textNotnullCheck, fileIndex, fileRow, errorDict, next, m);
    ghost var e2 := errorDict.entries;
    assert e2 == Extend(e1, i1, r1) && next == i1 + |r1|;

    // text_retained
    var textRetainedCheck := Selected(answerDf, TextRetained);
    ghost var r2 := KindRows(TextRetained, textRetainedCheck, fileIndex, fileRow, m);
    ghost var i2 := next;
    next := ValidateKind(TextRetained, textRetainedCheck, fileIndex, fileRow, errorDict, next, m);
    ghost var e3 := errorDict.entries;
    assert e3 == Extend(e2, i2, r2) && next == i2 + |r2|;

    // text_removed
    var textRemovedCheck := Selected(answerDf, TextRemoved);
    ghost var r3 := KindRows(TextRemoved, textRemovedCheck, fileIndex, fileRow, m);
    ghost var i3 := next;
    next := ValidateKind(TextRemoved, textRemovedCheck, fileIndex, fileRow, errorDict, next, m);
    ghost var e4 := errorDict.entries;
    assert e4 == Extend(e3, i3, r3) && next == i3 + |r3|;

    // date_shifted
    var dateShiftedCheck := Selected(answerDf, DateShifted);
    ghost var r4 := KindRows(DateShifted, dateShiftedCheck, fileIndex, fileRow, m);
    ghost var i4 := next;
    next := ValidateKind(DateShifted, dateShiftedCheck, fileIndex, fileRow, errorDict, next, m);
    ghost var e5 := errorDict.entries;
    assert e5 == Extend(e4, i4, r4) && next == i4 + |r4|;

    // uid_changed
    var uidChangedCheck := Selected(answerDf, UidChanged);
    ghost var r5 := KindRows(UidChanged, uidChangedCheck, fileIndex, fileRow, m);
    ghost var i5 := next;
    next := ValidateKind(UidChanged, uidChangedCheck, fileIndex, fileRow, errorDict, next, m);
    ghost var e6 := errorDict.entries;
    assert e6 == Extend(e5, i5, r5) && next == i5 + |r5|;

    // pixels_hidden
    var pixelsHiddenCheck := Selected(answerDf, PixelsHidden);
    ghost var r6 := KindRows(PixelsHidden, pixelsHiddenCheck, fileIndex, fileRow, m);
    ghost var i6 := next;
    next := ValidateKind(PixelsHidden, pixelsHiddenCheck, fileIndex, fileRow, errorDict, next, m);
    ghost var e7 := errorDict.entries;
    assert e7 == Extend(e6, i6, r6) && next == i6 + |r6|;

    ExtendSeven(e0, e1, e2, e3, e4, e5, e6, e7, i0, i1, i2, i3, i4, i5, i6, r0, r1, r2, r3, r4, r5, r6);
  }

  /** Seven consecutive runs of writes are one run of their concatenation. */
  lemma ExtendSeven(e0: map<nat, ResultRow>, e1: map<nat, ResultRow>, e2: map<nat, ResultRow>, e3: map<nat, ResultRow>,
                    e4: map<nat, ResultRow>, e5: map<nat, ResultRow>, e6: map<nat, ResultRow>, e7: map<nat, ResultRow>,
                    i0: nat, i1: nat, i2: nat, i3: nat, i4: nat, i5: nat, i6: nat,
                    r0: seq<ResultRow>, r1: seq<ResultRow>, r2: seq<ResultRow>, r3: seq<ResultRow>,
                    r4: seq<ResultRow>, r5: seq<ResultRow>, r6: seq<ResultRow>)
    requires e1 == Extend(e0, i0, r0) && i1 == i0 + |r0|
    requires e2 == Extend(e1, i1, r1) && i2 == i1 + |r1|
    requires e3 == Extend(e2, i2, r2) && i3 == i2 + |r2|
    requires e4 == Extend(e3, i3, r3) && i4 == i3 + |r3|
    requires e5 == Extend(e4, i4, r4) && i5 == i4 + |r4|
    requires e6 == Extend(e5, i5, r5) && i6 == i5 + |r5|
    requires e7 == Extend(e6, i6, r6)
    ensures e7 == Extend(e0, i0, r0 + r1 + r2 + r3 + r4 + r5 + r6)
  {
    ExtendThen(e0, e1, e2, i0, i1, r0, r1);
    ExtendThen(e0, e2, e3, i0, i2, r0 + r1, r2);
    ExtendThen(e0, e3, e4, i0, i3, r0 + r1 + r2, r3);
    ExtendThen(e0, e4, e5, i0, i4, r0 + r1 + r2 + r3, r4);
    ExtendThen(e0, e5, e6, i0, i5, r0 + r1 + r2 + r3 + r4, r5);
    ExtendThen(e0, e6, e7, i0, i6, r0 + r1 + r2 + r3 + r4 + r5, r6);
  }

  /** Two consecutive runs of writes are one run of their concatenation. */
  lemma ExtendThen(e0: map<nat, ResultRow>, e1: map<nat, ResultRow>, e2: map<nat, ResultRow>,
                   i0: nat, i1: nat, r0: seq<ResultRow>, r1: seq<ResultRow>)
    requires e1 == Extend(e0, i0, r0) && i1 == i0 + |r0|
    requires e2 == Extend(e1, i1, r1)
    ensures e2 == Extend(e0, i0, r0 + r1)
  {
    ExtendAppend(e0, i0, r0, r1);
  }

  /** `validate_files`: for each file of the batch, select the applicable
      answer rows and run the seven kinds of check on their decoded checks. */
  method ValidateFiles(fileList: seq<FileRow>, answerData: seq<PreparedRow>, hasScope: bool, m: Matcher)
    returns (errorDict: ErrorDict)
    ensures fresh(errorDict)
    ensures errorDict.entries == Extend(map[], 0, Results(fileList, |fileList|, answerData, hasScope, m))
  {
    errorDict := new ErrorDict();
    var errorIter := 0;
    var fileIndex := 0;
    while fileIndex < |fileList|
      invariant 0 <= fileIndex <= |fileList|
      invariant errorDict.entries == Extend(map[], 0, Results(fileList, fileIndex, answerData, hasScope, m))
      invariant errorIter == |Results(fileList, fileIndex, answerData, hasScope, m)|
    {
      var fileRow := fileList[fileIndex];
      ghost var before := Results(fileList, fileIndex, answerData, hasScope, m);
      ghost var rows := FileResults(fileIndex, fileRow, answerData, hasScope, m);
      ghost var e0 := errorDict.entries;
      ghost var i0 := errorIter;
      var fileAnswerData := FileAnswerData(answerData, fileRow, hasScope);
      if fileAnswerData != [] {
        var answerDf := AnswerChecks(fileAnswerData);
        errorIter := DispatchChecks(answerDf, fileIndex, fileRow, errorDict, errorIter, m);
      }
      assert errorDict.entries == Extend(e0, i0, rows) && errorIter == i0 + |rows|;
      ExtendThen(map[], e0, errorDict.entries, 0, i0, before, rows);
      assert Results(fileList, fileIndex + 1, answerData, hasScope, m) == before + rows;
      fileIndex := fileIndex + 1;
    }
  }
}
