/** The answer key and its UID remapping.

    An answer-key row names one original record by its study, series and
    instance UIDs and carries the checks to run against the de-identified
    copy of that record. Before validation, `convert_ids` looks the original
    UIDs up in the old-to-new UID map and records the de-identified UIDs in
    three new columns, so that each row can be matched against the indexed
    output files. */
module AnswerPreparer {

  import opened Wrappers

  /** One entry of a row's decoded `AnswerData`: the check to run on one tag.
      `key` is the entry's key in the JSON object, which becomes its index. */
  datatype Check = Check(
    key: string,
    action: string,
    actionText: Option<string>,
    answerCategory: string,
    value: Option<string>,
    tag: string,
    tagDs: string,
    tagName: string)

  /** A row of the answer table. UID cells may be SQL NULL; `scope` is null
      when the column exists but the cell is empty. */
  datatype AnswerRow = AnswerRow(
    studyUid: Option<string>,
    seriesUid: Option<string>,
    instanceUid: Option<string>,
    scope: Option<string>,
    checks: seq<Check>)

  /** A row of the prepared table: the original row with the three added
      columns `new_study`, `new_series` and `new_instance`. */
  datatype PreparedRow = PreparedRow(
    original: AnswerRow,
    newStudy: string,
    newSeries: string,
    newInstance: string)

  // ---------------------------------------------------------------------
  // Specification
  // ---------------------------------------------------------------------

  /** `f'{uid}'`: a NULL cell reads back as Python `None`. */
  function Rendered(uid: Option<string>): string {
    if uid.Some? then uid.value else "None"
  }

  /** The key a UID is looked up under: the UID wrapped in angle brackets. */
  function MapKey(uid: Option<string>): (k: string)
    ensures |k| >= 2 && k[0] == '<' && k[|k| - 1] == '>'
  {
    "<" + Rendered(uid) + ">"
  }

  /** The value a `new_*` cell ends with. The guard on the key's truthiness
      is the source's; a bracketed key is never empty, so it always holds. */
  function NewUid(uids: map<string, string>, uid: Option<string>): string {
    var key := MapKey(uid);
    if key in uids then (if key != "" then uids[key] else "") else ""
  }

  /** A row after conversion. */
  function Convert(row: AnswerRow, uids: map<string, string>): PreparedRow {
    PreparedRow(row, NewUid(uids, row.studyUid), NewUid(uids, row.seriesUid), NewUid(uids, row.instanceUid))
  }

  /** The table after conversion, row by row. */
  function ConvertAll(rows: seq<AnswerRow>, uids: map<string, string>): (r: seq<PreparedRow>)
    ensures |r| == |rows|
  {
    seq(|rows|, i requires 0 <= i < |rows| => Convert(rows[i], uids))
  }

  /** `pd.concat` of a list of tables. */
  function Concat(tables: seq<seq<PreparedRow>>): seq<PreparedRow> {
    if tables == [] then [] else tables[0] + Concat(tables[1..])
  }

  // ---------------------------------------------------------------------
  // Properties
  // ---------------------------------------------------------------------

  /** Conversion keeps every row, keeps the original columns, and fills each
      new column with the mapped UID when the bracketed original is a key of
      the map and with `''` otherwise. */
  lemma ConvertedRows(rows: seq<AnswerRow>, uids: map<string, string>)
    ensures |ConvertAll(rows, uids)| == |rows|
    ensures forall i :: 0 <= i < |rows| ==>
      var p := ConvertAll(rows, uids)[i];
      && p.original == rows[i]
      && p.newStudy == (if MapKey(rows[i].studyUid) in uids then uids[MapKey(rows[i].studyUid)] else "")
      && p.newSeries == (if MapKey(rows[i].seriesUid) in uids then uids[MapKey(rows[i].seriesUid)] else "")
      && p.newInstance == (if MapKey(rows[i].instanceUid) in uids then uids[MapKey(rows[i].instanceUid)] else "")
  {
  }

  /** Conversion is row-local: converting two parts of a table separately
      and concatenating the results gives the converted table. */
  lemma {:induction false} ConvertSplits(a: seq<AnswerRow>, b: seq<AnswerRow>, uids: map<string, string>)
    ensures ConvertAll(a + b, uids) == ConvertAll(a, uids) + ConvertAll(b, uids)
  {
    if a == [] {
      assert a + b == b;
    } else {
      assert (a + b)[1..] == a[1..] + b;
      ConvertSplits(a[1..], b, uids);
    }
  }

  /** Hence any partition of the table into consecutive chunks, converted
      chunk by chunk and concatenated in chunk order, gives the same table. */
  lemma {:induction false} ConvertChunks(chunks: seq<seq<AnswerRow>>, uids: map<string, string>)
    ensures Concat(ConvertEach(chunks, uids)) == ConvertAll(Flat(chunks), uids)
  {
    if chunks != [] {
      ConvertChunks(chunks[1..], uids);
      ConvertSplits(chunks[0], Flat(chunks[1..]), uids);
    }
  }

  function Flat(chunks: seq<seq<AnswerRow>>): seq<AnswerRow> {
    if chunks == [] then [] else chunks[0] + Flat(chunks[1..])
  }

  function ConvertEach(chunks: seq<seq<AnswerRow>>, uids: map<string, string>): (r: seq<seq<PreparedRow>>)
    ensures |r| == |chunks|
  {
    if chunks == [] then [] else [ConvertAll(chunks[0], uids)] + ConvertEach(chunks[1..], uids)
  }

  // ---------------------------------------------------------------------
  // The table transform
  // ---------------------------------------------------------------------

  /** The copy of the table with the three new columns set to `''`. */
  function Initialised(answerData: seq<AnswerRow>): (r: seq<PreparedRow>)
    ensures |r| == |answerData|
    ensures forall i :: 0 <= i < |r| ==> r[i] == PreparedRow(answerData[i], "", "", "")
  {
    seq(|answerData|, i requires 0 <= i < |answerData| => PreparedRow(answerData[i], "", "", ""))
  }

  /** `convert_ids`: copy the table, add the new columns, then write each
      row's new UIDs cell by cell. */
  method ConvertIds(answerData: seq<AnswerRow>, uids: map<string, string>) returns (returnData: seq<PreparedRow>)
    ensures returnData == ConvertAll(answerData, uids)
  {
    returnData := Initialised(answerData);
    var index := 0;
    while index < |returnData|
      invariant 0 <= index <= |returnData| == |answerData|
      invariant forall k :: 0 <= k < index ==> returnData[k] == Convert(answerData[k], uids)
      invariant forall k :: index <= k < |returnData| ==> returnData[k] == PreparedRow(answerData[k], "", "", "")
    {
      var row := returnData[index].original;
      var prepared := returnData[index];
      var studyUid := MapKey(row.studyUid);
      if studyUid in uids {
        prepared := prepared.(newStudy := if studyUid != "" then uids[studyUid] else "");
      }
      var seriesUid := MapKey(row.seriesUid);
      if seriesUid in uids {
        prepared := prepared.(newSeries := if seriesUid != "" then uids[seriesUid] else "");
      }
      var instanceUid := MapKey(row.instanceUid);
      if instanceUid in uids {
        prepared := prepared.(newInstance := if instanceUid != "" then uids[instanceUid] else "");
      }
      returnData := returnData[index := prepared];
      index := index + 1;
    }
  }

  /** `prepare_answer_data`: logging set-up, then `convert_ids`. */
  method PrepareAnswerData(answerData: seq<AnswerRow>, uids: map<string, string>) returns (convertedData: seq<PreparedRow>)
    ensures convertedData == ConvertAll(answerData, uids)
  {
    convertedData := ConvertIds(answerData, uids);
  }

  /** The sequential path of `get_prepared_data`: one prepared table, which
      the final concatenation returns unchanged. */
  method GetPreparedData(answerData: seq<AnswerRow>, uids: map<string, string>) returns (returnDf: seq<PreparedRow>)
    ensures returnDf == ConvertAll(answerData, uids)
  {
    var returnFiles: seq<seq<PreparedRow>> := [];
    var result := PrepareAnswerData(answerData, uids);
    returnFiles := returnFiles + [result];
    returnDf := Concat(returnFiles);
    assert Concat(returnFiles[1..]) == [];
  }
}
