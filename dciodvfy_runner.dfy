// The dciodvfy front end: parsing the validator's stderr into keyed error
// rows for one DICOM file, and listing the files of a directory walk.

module DciodvfyRunner {
  import opened Wrappers
  import opened Text

  // ---------------------------------------------------------------------
  // File paths
  // ---------------------------------------------------------------------

  /** `os.path.join(root, file)` on POSIX. */
  function PathJoin(root: string, file: string): (p: string)
    ensures |file| <= |p| && p[|p| - |file|..] == file
    ensures (|file| == 0 || file[0] != '/') ==> root <= p
  {
    if |file| > 0 && file[0] == '/' then file
    else if root == [] || root[|root| - 1] == '/' then root + file
    else root + "/" + file
  }

  /** `f'<{s}>'`. */
  function Wrap(s: string): string {
    "<" + s + ">"
  }

  // ---------------------------------------------------------------------
  // The three regular expressions of a stderr line
  // ---------------------------------------------------------------------

  /** `re.search('^Error|Warning', line)` succeeds: the line starts with
      "Error" or holds "Warning" anywhere. */
  predicate IsReported(line: string) {
    "Error" <= line || Contains(line, "Warning")
  }

  /** Where the pattern `^Error|Warning` matches, position by position. */
  predicate TypeMatchAt(line: string, p: int) {
    (p == 0 && "Error" <= line) || OccursAt(line, "Warning", p)
  }

  /** The text of the match, in angle brackets: `<Error>` only for a line
      that starts with "Error". */
  function MessageType(line: string): string {
    if "Error" <= line then Wrap("Error")
    else if Contains(line, "Warning") then Wrap("Warning")
    else line
  }

  /** A match of `(?<=\<)(.*?)(?=\>)` spanning `line[p..q]`: a `<` just
      before, a `>` just after, and no `>` in between (the shortest one). */
  predicate TagMatch(line: string, p: int, q: int) {
    && 1 <= p <= q < |line| && line[p - 1] == '<' && line[q] == '>'
    && forall k :: p <= k < q ==> line[k] != '>'
  }

  /** Where `re.search` finds the tag: after the first `<`, up to the next `>`. */
  function TagSpan(line: string): Option<(nat, nat)> {
    match FindChar(line, '<', 0)
    case None => None
    case Some(i) =>
      match FindChar(line, '>', i + 1)
      case None => None
      case Some(j) => Some((i + 1, j))
  }

  function MessageTag(line: string): string {
    match TagSpan(line)
    case Some((p, q)) => Wrap(line[p..q])
    case None => line
  }

  /** A match of `(?<=\> - ).*$` starting at `p`. */
  predicate TextMatch(line: string, p: int) {
    4 <= p <= |line| && line[p - 4..p] == "> - "
  }

  /** Where the message text starts: after the first `"> - "`. */
  function TextStart(line: string): Option<nat> {
    match FindSub(line, "> - ", 0)
    case None => None
    case Some(k) => Some(k + 4)
  }

  function MessageText(line: string): string {
    match TextStart(line)
    case Some(p) => Wrap(line[p..])
    case None => line
  }

  /** A line is reported exactly when the type pattern matches somewhere in
      it, and its type is `<Error>` exactly when it starts with "Error". */
  lemma TypePattern(line: string)
    ensures IsReported(line) <==> exists p :: TypeMatchAt(line, p)
    ensures IsReported(line) ==> (MessageType(line) == "<Error>" <==> "Error" <= line)
    ensures IsReported(line) ==> MessageType(line) in {"<Error>", "<Warning>"}
  {
    if "Error" <= line {
      assert TypeMatchAt(line, 0);
    } else if Contains(line, "Warning") {
      var k := OccurrenceOf(line, "Warning");
      assert TypeMatchAt(line, k);
    }
    forall p | TypeMatchAt(line, p) ensures IsReported(line) {
      if !("Error" <= line) {
        OccurrenceContained(line, "Warning", p);
      }
    }
    assert Wrap("Error") == "<Error>" && Wrap("Warning") == "<Warning>";
    assert "<Warning>"[1] != "<Error>"[1];
  }

  /** `TagSpan` is the match `re.search` returns: the leftmost one, and
      the shortest at that position; absent exactly when nothing matches.
      Stderr lines hold no newline, which `.` would not cross. */
  lemma TagSpanIsLeftmostShortest(line: string)
    ensures TagSpan(line).Some? ==> TagMatch(line, TagSpan(line).value.0, TagSpan(line).value.1)
    ensures TagSpan(line).Some? ==> forall p, q :: TagMatch(line, p, q) ==>
      TagSpan(line).value.0 < p || (TagSpan(line).value.0 == p && TagSpan(line).value.1 <= q)
    ensures TagSpan(line).None? ==> forall p, q :: !TagMatch(line, p, q)
  {
    match FindChar(line, '<', 0)
    case None =>
      forall p, q | 1 <= p <= q < |line| ensures !TagMatch(line, p, q) {
        assert line[p - 1] != '<';
      }
    case Some(i) =>
      match FindChar(line, '>', i + 1)
      case None =>
        forall p, q | 1 <= p <= q < |line| && line[p - 1] == '<' ensures !TagMatch(line, p, q) {
          assert i <= p - 1;
          assert line[q] != '>';
        }
      case Some(j) =>
        forall p, q | TagMatch(line, p, q) ensures i + 1 < p || (i + 1 == p && j <= q) {
          assert i <= p - 1;
        }
    }

  /** `TextStart` is where the leftmost match of the message pattern starts;
      absent exactly when nothing matches. */
  lemma TextStartIsLeftmost(line: string)
    ensures TextStart(line).Some? ==> TextMatch(line, TextStart(line).value)
    ensures TextStart(line).Some? ==> forall p :: TextMatch(line, p) ==> TextStart(line).value <= p
    ensures TextStart(line).None? ==> forall p :: !TextMatch(line, p)
  {
    forall p | TextMatch(line, p) ensures OccursAt(line, "> - ", p - 4) {
    }
  }

  // ---------------------------------------------------------------------
  // check_file
  // ---------------------------------------------------------------------

  /** The six header attributes `check_file` reads; absent ones are `None`. */
  datatype Header = Header(
    modality: Option<string>,
    sopClass: Option<string>,
    patient: Option<string>,
    study: Option<string>,
    series: Option<string>,
    instance: Option<string>)

  /** One entry of the error dictionary. */
  datatype ErrorRow = ErrorRow(
    kind: string,
    tag: string,
    message: string,
    modality: string,
    sopClass: string,
    patient: string,
    study: string,
    series: string,
    instance: string,
    fileName: string,
    filePath: string)

  /** `'<' + None + '>'` raises. */
  datatype Raised = TypeError

  predicate HasAllAttributes(h: Header) {
    h.modality.Some? && h.sopClass.Some? && h.patient.Some? && h.study.Some? && h.series.Some? && h.instance.Some?
  }

  /** The row written for a reported line. */
  function RowFor(line: string, h: Header, file: string, filePath: string): ErrorRow
    requires HasAllAttributes(h)
  {
    ErrorRow(MessageType(line), MessageTag(line), MessageText(line),
      Wrap(h.modality.value), Wrap(h.sopClass.value), Wrap(h.patient.value),
      Wrap(h.study.value), Wrap(h.series.value), Wrap(h.instance.value),
      Wrap(file), Wrap(filePath))
  }

  /** The reported lines, in order. */
  function ReportedLines(lines: seq<string>): (r: seq<string>)
    ensures |r| <= |lines|
  {
    if lines == [] then []
    else (ReportedLines(lines[..|lines| - 1])
      + (if IsReported(lines[|lines| - 1]) then [lines[|lines| - 1]] else []))
  }

  /** A dictionary keyed 0, 1, ... in sequence order. */
  function Keyed(rows: seq<ErrorRow>): map<int, ErrorRow> {
    map i | 0 <= i < |rows| :: rows[i]
  }

  function RowsFor(lines: seq<string>, h: Header, file: string, filePath: string): (r: seq<ErrorRow>)
    requires HasAllAttributes(h)
    ensures |r| == |lines|
  {
    seq(|lines|, k requires 0 <= k < |lines| => RowFor(lines[k], h, file, filePath))
  }

  /** The rows for a file's stderr lines, or the exception the first
      reported line raises when an attribute is missing. */
  function CollectedErrors(lines: seq<string>, h: Header, file: string, filePath: string): Result<map<int, ErrorRow>, Raised> {
    var reported := ReportedLines(lines);
    if reported == [] then Ok(map[])
    else if !HasAllAttributes(h) then Err(TypeError)
    else Ok(Keyed(RowsFor(reported, h, file, filePath)))
  }

  /** What `check_file` returns for a file, or the exception it raises. */
  function FileErrors(root: string, file: string, dataset: Option<Header>, stderr: string): Result<map<int, ErrorRow>, Raised> {
    match dataset
    case None => Ok(map[])
    case Some(h) => CollectedErrors(Split(stderr, '\n'), h, file, PathJoin(root, file))
  }

  /** `check_file`: the validator's stderr (the output of running dciodvfy
      on the file) is split into lines, and each reported line gets the next
      key. An unreadable or empty dataset gives no rows; a reported line on
      a file lacking one of the six attributes raises. */
  method CheckFile(root: string, file: string, dataset: Option<Header>, stderr: string)
    returns (errors: Result<map<int, ErrorRow>, Raised>)
    ensures errors == FileErrors(root, file, dataset, stderr)
  {
    var filePath := PathJoin(root, file);
    if dataset.Some? {
      var allMessages := Split(stderr, '\n');
      errors := CollectErrors(allMessages, dataset.value, file, filePath);
    } else {
      errors := Ok(map[]);
    }
  }

  /** The loop of `check_file` over the stderr lines. */
  method CollectErrors(allMessages: seq<string>, h: Header, file: string, filePath: string)
    returns (errors: Result<map<int, ErrorRow>, Raised>)
    ensures errors == CollectedErrors(allMessages, h, file, filePath)
  {
    var found: map<int, ErrorRow> := map[];
    var errorIter := 0;
    ghost var rows: seq<ErrorRow> := [];
    for n := 0 to |allMessages|
      invariant ReportedLines(allMessages[..n]) == [] || HasAllAttributes(h)
      invariant errorIter == |rows| == |ReportedLines(allMessages[..n])|
      invariant found == Keyed(rows)
      invariant HasAllAttributes(h) ==> rows == RowsFor(ReportedLines(allMessages[..n]), h, file, filePath)
    {
      var message := allMessages[n];
      ReportedStep(allMessages, n);
      if IsReported(message) {
        if !HasAllAttributes(h) {
          ReportedPrefix(allMessages, n + 1);
          return Err(TypeError);
        }
        var row := RowFor(message, h, file, filePath);
        RowsForSnoc(ReportedLines(allMessages[..n]), message, h, file, filePath);
        KeyedSnoc(rows, row);
        found := found[errorIter := row];
        rows := rows + [row];
        errorIter := errorIter + 1;
      }
    }
    assert allMessages[..|allMessages|] == allMessages;
    if rows == [] {
      assert found == map[];
    }
    errors := Ok(found);
  }

  lemma ReportedStep(lines: seq<string>, n: nat)
    requires n < |lines|
    ensures ReportedLines(lines[..n + 1]) == ReportedLines(lines[..n]) + (if IsReported(lines[n]) then [lines[n]] else [])
  {
    assert lines[..n + 1][..n] == lines[..n];
  }

  lemma RowsForSnoc(lines: seq<string>, line: string, h: Header, file: string, filePath: string)
    requires HasAllAttributes(h)
    ensures RowsFor(lines + [line], h, file, filePath) == RowsFor(lines, h, file, filePath) + [RowFor(line, h, file, filePath)]
  {
  }

  /** A reported line in a prefix is reported in the whole. */
  lemma {:induction false} ReportedPrefix(lines: seq<string>, n: nat)
    requires n <= |lines| && ReportedLines(lines[..n]) != []
    ensures ReportedLines(lines) != []
  {
    if n < |lines| {
      var init := lines[..|lines| - 1];
      assert init[..n] == lines[..n];
      ReportedPrefix(init, n);
    } else {
      assert lines[..n] == lines;
    }
  }

  lemma KeyedSnoc(rows: seq<ErrorRow>, row: ErrorRow)
    ensures Keyed(rows + [row]) == Keyed(rows)[|rows| := row]
  {
  }

  /** The rows are keyed 0..k-1 for the k reported lines, in line order,
      and row n describes the n-th reported line; a line is reported exactly
      when it is a line of the output that the type pattern matches. */
  lemma FileErrorsShape(root: string, file: string, h: Header, stderr: string)
    requires HasAllAttributes(h)
    ensures var reported := ReportedLines(Split(stderr, '\n'));
      && FileErrors(root, file, Some(h), stderr).Ok?
      && (forall n :: n in FileErrors(root, file, Some(h), stderr).value <==> 0 <= n < |reported|)
      && forall n :: 0 <= n < |reported| ==>
           && FileErrors(root, file, Some(h), stderr).value[n].kind == MessageType(reported[n])
           && FileErrors(root, file, Some(h), stderr).value[n].tag == MessageTag(reported[n])
           && FileErrors(root, file, Some(h), stderr).value[n].message == MessageText(reported[n])
           && FileErrors(root, file, Some(h), stderr).value[n].filePath == Wrap(PathJoin(root, file))
  {
    var reported := ReportedLines(Split(stderr, '\n'));
    if reported == [] {
      assert FileErrors(root, file, Some(h), stderr).value == map[];
    }
  }

  /** The reported lines are exactly the lines the type pattern matches. */
  lemma {:induction false} ReportedLinesAreMatches(lines: seq<string>)
    ensures forall x :: x in ReportedLines(lines) <==> x in lines && IsReported(x)
  {
    if lines != [] {
      ReportedLinesAreMatches(lines[..|lines| - 1]);
      assert lines == lines[..|lines| - 1] + [lines[|lines| - 1]];
    }
  }

  // ---------------------------------------------------------------------
  // index_path
  // ---------------------------------------------------------------------

  /** One step of `os.walk`: a directory, its subdirectories and its files. */
  datatype WalkStep = WalkStep(root: string, dirs: seq<string>, files: seq<string>)

  /** `[root, files]`. */
  datatype IndexEntry = IndexEntry(root: string, files: seq<string>)

  /** Index type 1: one entry per file. */
  function FileEntries(walk: seq<WalkStep>): seq<IndexEntry> {
    if walk == [] then []
    else
      var last := walk[|walk| - 1];
      FileEntries(walk[..|walk| - 1]) + Singletons(last.root, last.files)
  }

  function Singletons(root: string, files: seq<string>): (r: seq<IndexEntry>)
    ensures |r| == |files|
  {
    seq(|files|, k requires 0 <= k < |files| => IndexEntry(root, [files[k]]))
  }

  /** Index type 2: one entry per directory that holds files. */
  function DirectoryEntries(walk: seq<WalkStep>): (r: seq<IndexEntry>)
    ensures |r| <= |walk|
  {
    if walk == [] then []
    else
      var last := walk[|walk| - 1];
      DirectoryEntries(walk[..|walk| - 1]) + (if last.files != [] then [IndexEntry(last.root, last.files)] else [])
  }

  /** `index_path` over the walk of `path`. */
  method IndexPath(walk: seq<WalkStep>, indexType: int) returns (indexList: seq<IndexEntry>)
    ensures indexType == 1 ==> indexList == FileEntries(walk)
    ensures indexType == 2 ==> indexList == DirectoryEntries(walk)
    ensures indexType != 1 && indexType != 2 ==> indexList == []
  {
    indexList := [];
    if indexType == 1 {
      for w := 0 to |walk|
        invariant indexList == FileEntries(walk[..w])
      {
        var step := walk[w];
        assert walk[..w + 1][..w] == walk[..w];
        ghost var before := indexList;
        for f := 0 to |step.files|
          invariant indexList == before + Singletons(step.root, step.files[..f])
        {
          assert Singletons(step.root, step.files[..f + 1]) == Singletons(step.root, step.files[..f]) + [IndexEntry(step.root, [step.files[f]])];
          indexList := indexList + [IndexEntry(step.root, [step.files[f]])];
        }
        assert step.files[..|step.files|] == step.files;
      }
      assert walk[..|walk|] == walk;
    } else if indexType == 2 {
      for w := 0 to |walk|
        invariant indexList == DirectoryEntries(walk[..w])
      {
        var step := walk[w];
        assert walk[..w + 1][..w] == walk[..w];
        if step.files != [] {
          indexList := indexList + [IndexEntry(step.root, step.files)];
        }
      }
      assert walk[..|walk|] == walk;
    }
  }

  /** The (directory, file) pairs an index lists, in order. */
  function Listed(entries: seq<IndexEntry>): seq<(string, string)> {
    if entries == [] then []
    else
      var last := entries[|entries| - 1];
      Listed(entries[..|entries| - 1]) + Pairs(last.root, last.files)
  }

  function Pairs(root: string, files: seq<string>): (r: seq<(string, string)>)
    ensures |r| == |files|
  {
    seq(|files|, k requires 0 <= k < |files| => (root, files[k]))
  }

  /** Every file of the walk, in walk order. */
  function WalkFiles(walk: seq<WalkStep>): seq<(string, string)> {
    if walk == [] then []
    else
      var last := walk[|walk| - 1];
      WalkFiles(walk[..|walk| - 1]) + Pairs(last.root, last.files)
  }

  lemma {:induction false} ListedAppend(a: seq<IndexEntry>, b: seq<IndexEntry>)
    ensures Listed(a + b) == Listed(a) + Listed(b)
    decreases |b|
  {
    if b != [] {
      var init := b[..|b| - 1];
      assert (a + b)[..|a + b| - 1] == a + init;
      assert (a + b)[|a + b| - 1] == b[|b| - 1];
      ListedAppend(a, init);
      assert Listed(a + b) == Listed(a + init) + Pairs(b[|b| - 1].root, b[|b| - 1].files);
    } else {
      assert a + b == a;
    }
  }

  lemma {:induction false} ListedSingletons(root: string, files: seq<string>)
    ensures Listed(Singletons(root, files)) == Pairs(root, files)
  {
    if files != [] {
      var init := files[..|files| - 1];
      ListedSingletons(root, init);
      assert Singletons(root, files)[..|files| - 1] == Singletons(root, init);
      assert Pairs(root, files) == Pairs(root, init) + [(root, files[|files| - 1])];
    }
  }

  /** Both index types list every file of the walk once, in walk order:
      type 1 one file per entry, type 2 one non-empty directory per entry. */
  lemma {:induction false} IndexTypesAgree(walk: seq<WalkStep>)
    ensures Listed(FileEntries(walk)) == WalkFiles(walk)
    ensures Listed(DirectoryEntries(walk)) == WalkFiles(walk)
  {
    if walk != [] {
      var init, last := walk[..|walk| - 1], walk[|walk| - 1];
      IndexTypesAgree(init);
      ListedAppend(FileEntries(init), Singletons(last.root, last.files));
      ListedSingletons(last.root, last.files);
      var extra := if last.files != [] then [IndexEntry(last.root, last.files)] else [];
      ListedAppend(DirectoryEntries(init), extra);
      if last.files != [] {
        assert extra[..0] == [];
      }
    }
  }

  /** The shape of each entry. */
  lemma {:induction false} EntryShapes(walk: seq<WalkStep>)
    ensures forall e :: e in FileEntries(walk) ==> |e.files| == 1
    ensures forall e :: e in DirectoryEntries(walk) ==> e.files != []
  {
    if walk != [] {
      EntryShapes(walk[..|walk| - 1]);
    }
  }

  predicate DistinctRoots(entries: seq<IndexEntry>) {
    forall i, j :: 0 <= i < j < |entries| ==> entries[i].root != entries[j].root
  }

  /** The walk visits every directory once, so type 2 names each directory once. */
  lemma {:induction false} DirectoriesOnce(walk: seq<WalkStep>)
    requires forall i, j :: 0 <= i < j < |walk| ==> walk[i].root != walk[j].root
    ensures DistinctRoots(DirectoryEntries(walk))
    ensures forall e :: e in DirectoryEntries(walk) ==> exists i :: 0 <= i < |walk| && walk[i].root == e.root
  {
    if walk != [] {
      var init, last := walk[..|walk| - 1], walk[|walk| - 1];
      DirectoriesOnce(init);
      var d := DirectoryEntries(init);
      forall e | e in d ensures e.root != last.root {
        var i :| 0 <= i < |init| && init[i].root == e.root;
        assert walk[i] == init[i];
      }
      forall e | e in d ensures exists i :: 0 <= i < |walk| && walk[i].root == e.root {
        var i :| 0 <= i < |init| && init[i].root == e.root;
        assert walk[i] == init[i];
      }
      if last.files != [] {
        var r := d + [IndexEntry(last.root, last.files)];
        forall i, j | 0 <= i < j < |r| ensures r[i].root != r[j].root {
          assert r[i] == d[i];
          if j < |d| {
            assert r[j] == d[j];
          } else {
            assert d[i] in d;
          }
        }
        assert walk[|walk| - 1].root == last.root;
      }
    }
  }
}
