/** The record flattener of modules/file_indexer.py.

    `index_file_elements` walks a decoded DICOM data set depth first and
    writes, into one shared dictionary, a key per element: its tag path
    (`<label>` at the top level, `parent[<NNNN>]<label>` inside item NNNN of
    a sequence) mapped to its bracket-wrapped value. Private elements with a
    creator are relabelled by creator name, bulk elements are elided, and
    `index_files` builds one such dictionary per file, keyed 0..n-1. */
module FileIndexer {

  import opened Wrappers
  import opened Text

  // ---------------------------------------------------------------------
  // Decoded records (what pydicom's dcmread yields)
  // ---------------------------------------------------------------------

  type Word = n: nat | n < 0x1_0000

  datatype Tag = Tag(group: Word, element: Word)

  /** One data element: its tag, its private creator (None when pydicom has
      none), its name (`tag.name`), its VR, `str(tag.value)` (None when the
      value is None) and, for an SQ element, its items. */
  datatype Element = Element(
    tag: Tag,
    privateCreator: Option<string>,
    name: string,
    vr: string,
    value: Option<string>,
    items: seq<Dataset>)

  /** A data set, with its elements in iteration order. */
  datatype Dataset = Dataset(elements: seq<Element>)

  /** pydicom's `is_private`: the group number is odd. */
  predicate IsPrivate(t: Tag) {
    t.group % 2 == 1
  }

  // ---------------------------------------------------------------------
  // Tag labels
  // ---------------------------------------------------------------------

  /** `str(tag.tag)`: "(GGGG, EEEE)" in upper-case hexadecimal. */
  function TagString(t: Tag): string {
    "(" + Hex(t.group, 4) + ", " + Hex(t.element, 4) + ")"
  }

  /** Python's slice `s[i:j]`, clamped to the string. */
  function Slice(s: string, i: nat, j: nat): string {
    if i >= |s| || j <= i then "" else s[i..if j <= |s| then j else |s|]
  }

  /** `str(tag.tag).strip().replace(', ', ',')`. */
  function RawLabel(t: Tag): string {
    ReplaceAll(Strip(TagString(t)), ", ", ",")
  }

  /** "(GGGG,EEEE)": the value the raw label always takes (RawLabelForm). */
  function CompactTag(t: Tag): string {
    "(" + Hex(t.group, 4) + "," + Hex(t.element, 4) + ")"
  }

  /** The label an element gets in its path (file_indexer.py lines 75-93),
      with the raw label written in the closed form RawLabelForm proves. */
  function TagLabel(e: Element): string {
    var raw := CompactTag(e.tag);
    if IsPrivate(e.tag) && Truthy(e.privateCreator) then
      "(" + Slice(raw, 1, 5) + ",\"" + Upper(e.privateCreator.value) + "\"," + Slice(raw, 8, 10) + ")"
    else
      raw
  }

  /** Stripping the tag string changes nothing: it starts with `(` and ends with `)`. */
  lemma StripTagString(t: Tag)
    ensures Strip(TagString(t)) == TagString(t)
  {
    var s := TagString(t);
    assert s[0] == '(' && s[|s| - 1] == ')';
    StripNoEdges(s);
  }

  /** Replacing ", " by "," only touches the one separator of the tag string. */
  lemma ReplaceTagString(t: Tag)
    ensures ReplaceAll(TagString(t), ", ", ",") == CompactTag(t)
  {
    var g, e := Hex(t.group, 4), Hex(t.element, 4);
    var tail := ", " + e + ")";
    assert TagString(t) == ("(" + g) + tail;
    assert ',' !in "(" + g by {
      assert forall i :: 0 <= i < |g| ==> IsHexChar(g[i]);
    }
    ReplaceSkips("(" + g, tail, ", ", ",");
    assert ", " <= tail;
    assert tail[2..] == e + ")";
    assert ReplaceAll(tail, ", ", ",") == "," + ReplaceAll(e + ")", ", ", ",");
    assert ',' !in e + ")" by {
      assert forall i :: 0 <= i < |e| ==> IsHexChar(e[i]);
    }
    ReplaceSkips(e + ")", [], ", ", ",");
    assert e + ")" + [] == e + ")";
  }

  /** The raw label is the tag string with the space after the comma removed. */
  lemma RawLabelForm(t: Tag)
    ensures RawLabel(t) == CompactTag(t)
  {
    StripTagString(t);
    ReplaceTagString(t);
  }

  /** A private element with a creator is labelled (gggg,"CREATOR",ee): the
      group, the creator in upper case and the low byte of the element number. */
  lemma PrivateLabelForm(e: Element)
    requires IsPrivate(e.tag) && Truthy(e.privateCreator)
    ensures TagLabel(e) == "(" + Hex(e.tag.group, 4) + ",\"" + Upper(e.privateCreator.value) + "\"," + Hex(e.tag.element % 256, 2) + ")"
  {
    var raw := CompactTag(e.tag);
    var g, x := Hex(e.tag.group, 4), Hex(e.tag.element, 4);
    assert |raw| == 11;
    assert Slice(raw, 1, 5) == raw[1..5] == g;
    assert Slice(raw, 8, 10) == raw[8..10] == x[2..];
    LowByteDigits(e.tag.element);
  }

  /** Any other element keeps the raw tag string, "(GGGG,EEEE)". */
  lemma PlainLabelForm(e: Element)
    requires !IsPrivate(e.tag) || !Truthy(e.privateCreator)
    ensures TagLabel(e) == RawLabel(e.tag) == "(" + Hex(e.tag.group, 4) + "," + Hex(e.tag.element, 4) + ")"
  {
    RawLabelForm(e.tag);
  }

  /** Private-creator relabelling ignores the block byte: the same creator and
      offset in different private blocks of a group give the same label. */
  lemma PrivateLabelIgnoresBlock(a: Element, b: Element)
    requires IsPrivate(a.tag) && Truthy(a.privateCreator)
    requires IsPrivate(b.tag) && Truthy(b.privateCreator)
    requires a.tag.group == b.tag.group && a.tag.element % 256 == b.tag.element % 256
    requires Upper(a.privateCreator.value) == Upper(b.privateCreator.value)
    ensures TagLabel(a) == TagLabel(b)
  {
    PrivateLabelForm(a);
    PrivateLabelForm(b);
  }

  lemma Pow16Four()
    ensures Pow16(4) == 0x1_0000
  {
    assert Pow16(1) == 16;
    assert Pow16(2) == 256;
    assert Pow16(3) == 4096;
  }

  /** Non-relabelled elements with different tags get different labels. */
  lemma PlainLabelsDistinct(a: Element, b: Element)
    requires !IsPrivate(a.tag) || !Truthy(a.privateCreator)
    requires !IsPrivate(b.tag) || !Truthy(b.privateCreator)
    requires a.tag != b.tag
    ensures TagLabel(a) != TagLabel(b)
  {
    Pow16Four();
    CompactTagParts(a.tag);
    CompactTagParts(b.tag);
    if a.tag.group != b.tag.group {
      HexDistinct(a.tag.group, b.tag.group, 4);
    } else {
      HexDistinct(a.tag.element, b.tag.element, 4);
    }
  }

  /** The two numbers can be read back off the compact form. */
  lemma CompactTagParts(t: Tag)
    ensures |CompactTag(t)| == 11
    ensures CompactTag(t)[1..5] == Hex(t.group, 4)
    ensures CompactTag(t)[6..10] == Hex(t.element, 4)
  {
  }

  lemma HexDistinct(a: nat, b: nat, width: nat)
    requires a < Pow16(width) && b < Pow16(width) && a != b
    ensures Hex(a, width) != Hex(b, width)
  {
    if Hex(a, width) == Hex(b, width) {
      HexInjective(a, b, width);
    }
  }

  // ---------------------------------------------------------------------
  // Paths and values
  // ---------------------------------------------------------------------

  /** The item segment appended inside a sequence (lines 97-100). */
  function ItemSegment(count: nat): string {
    if count != 0 then "[<" + ZFill(NatToString(count), 4) + ">]" else "[<0000>]"
  }

  /** The path of an element at the given depth, item ordinal and parent path. */
  function TagPath(e: Element, depth: nat, count: nat, parent: string): string {
    if depth == 0 then "<" + TagLabel(e) + ">"
    else parent + ItemSegment(count) + "<" + TagLabel(e) + ">"
  }

  /** Element names whose value is never materialised. */
  const IgnoreValue: set<string> := {"Pixel Data", "Overlay Data", "File Meta Information Version"}

  const Elided: string := "<REMOVED>"

  /** The value stored for an element (lines 117-126). */
  function EncodedValue(e: Element): string {
    if e.name in IgnoreValue then Elided
    else match e.value
      case None => "<>"
      case Some(v) => "<" + Strip(v) + ">"
  }

  /** Value policy: bulk elements are always elided, whether or not they hold
      a value; a None value becomes `<>`; anything else is the stripped string
      between brackets, so an empty or blank string also becomes `<>`. */
  lemma ValuePolicy(e: Element)
    ensures e.name in IgnoreValue ==> EncodedValue(e) == "<REMOVED>"
    ensures e.name !in IgnoreValue && e.value.None? ==> EncodedValue(e) == "<>"
    ensures e.name !in IgnoreValue && e.value.Some? && IsBlank(e.value.value) ==> EncodedValue(e) == "<>"
    ensures e.name !in IgnoreValue && e.value.Some? ==> EncodedValue(e) == "<" + Strip(e.value.value) + ">"
  {
  }

  /** Ordinal 0 takes the other branch of line 97 but gives the same segment:
      every item segment is the four-digit zero-filled ordinal. */
  lemma ItemSegmentUniform(count: nat)
    ensures ItemSegment(count) == "[<" + ZFill(NatToString(count), 4) + ">]"
  {
    if count == 0 {
      assert NatToString(0) == "0";
      assert ZFill("0", 4) == Zeros(3) + "0" == "0000";
    }
  }

  lemma {:induction false} DigitRunsDiffer(d1: string, d2: string, s1: string, s2: string)
    requires AllDigits(d1) && AllDigits(d2) && d1 != d2
    ensures d1 + ">" + s1 != d2 + ">" + s2
  {
    var x, y := d1 + ">" + s1, d2 + ">" + s2;
    if d1 == [] {
      assert x[0] == '>' && y[0] == d2[0];
    } else if d2 == [] {
      assert y[0] == '>' && x[0] == d1[0];
    } else if d1[0] != d2[0] {
      assert x[0] == d1[0] && y[0] == d2[0];
    } else {
      DigitRunsDiffer(d1[1..], d2[1..], s1, s2);
      assert x[1..] == d1[1..] + ">" + s1;
      assert y[1..] == d2[1..] + ">" + s2;
    }
  }

  /** Paths below two different items of one sequence never collide: they
      differ in the item segment whatever follows it. */
  lemma ItemPathsDistinct(parent: string, i: nat, j: nat, s1: string, s2: string)
    requires i != j
    ensures parent + ItemSegment(i) + s1 != parent + ItemSegment(j) + s2
  {
    ItemSegmentUniform(i);
    ItemSegmentUniform(j);
    var d1, d2 := ZFill(NatToString(i), 4), ZFill(NatToString(j), 4);
    ZFillNatDistinct(i, j, 4);
    ZFillDigits(NatToString(i), 4);
    ZFillDigits(NatToString(j), 4);
    DigitRunsDiffer(d1, d2, "]" + s1, "]" + s2);
    var x := parent + ItemSegment(i) + s1;
    var y := parent + ItemSegment(j) + s2;
    var n := |parent| + 2;
    assert x[n..] == d1 + ">" + ("]" + s1);
    assert y[n..] == d2 + ">" + ("]" + s2);
  }

  lemma ZFillNatDistinct(a: nat, b: nat, width: nat)
    requires a != b
    ensures ZFill(NatToString(a), width) != ZFill(NatToString(b), width)
  {
    if ZFill(NatToString(a), width) == ZFill(NatToString(b), width) {
      ZFillNatInjective(a, b, width);
    }
  }

  // ---------------------------------------------------------------------
  // Flattening: the sequence of writes, as pure functions
  // ---------------------------------------------------------------------

  /** `index_file_elements(ds, acc, depth, count, label)` as a value: the
      dictionary `acc` after every element of `ds` has been written. */
  function Flatten(ds: Dataset, depth: nat, count: nat, parent: string,
                   acc: map<string, string>): map<string, string>
    decreases ds, 1
  {
    FlattenFrom(ds, 0, depth, count, parent, acc)
  }

  /** The dictionary after elements `i..` of `ds` have been written into `acc`, in order. */
  function FlattenFrom(ds: Dataset, i: nat, depth: nat, count: nat, parent: string,
                       acc: map<string, string>): map<string, string>
    requires i <= |ds.elements|
    decreases ds, 0, |ds.elements| - i
  {
    if i == |ds.elements| then acc
    else FlattenFrom(ds, i + 1, depth, count, parent, Visit(ds.elements[i], depth, count, parent, acc))
  }

  /** Write one element under its path. */
  function Visit(e: Element, depth: nat, count: nat, parent: string,
                 acc: map<string, string>): map<string, string>
    decreases e, 2
  {
    WriteAt(e, TagPath(e, depth, count, parent), depth, acc)
  }

  /** Write `e`'s value under `path`, then (for SQ) flatten its items, one
      level deeper, with `path` as their parent. */
  function WriteAt(e: Element, path: string, depth: nat, acc: map<string, string>): map<string, string>
    decreases e, 1
  {
    var written := acc[path := EncodedValue(e)];
    if e.vr == "SQ" then ItemsFrom(e, 0, depth + 1, path, written) else written
  }

  /** The dictionary after items `j..` of SQ element `e` have been flattened,
      item `j` with ordinal `j`. */
  function ItemsFrom(e: Element, j: nat, depth: nat, parent: string,
                     acc: map<string, string>): map<string, string>
    requires j <= |e.items|
    decreases e, 0, |e.items| - j
  {
    if j == |e.items| then acc
    else ItemsFrom(e, j + 1, depth, parent, Flatten(e.items[j], depth, j, parent, acc))
  }

  // ---------------------------------------------------------------------
  // What a flattening may change
  // ---------------------------------------------------------------------

  /** Going from `acc` to `r`, no key is removed and every key whose value
      changes begins with `prefix`. */
  ghost predicate ChangesUnder(r: map<string, string>, acc: map<string, string>, prefix: string) {
    && acc.Keys <= r.Keys
    && forall k :: k in r && (k !in acc || r[k] != acc[k]) ==> prefix <= k
  }

  /** Where the writes of one call may land: anywhere under `<` at the top
      level, under `parent[<NNNN>]` inside item NNNN. */
  function Scope(depth: nat, count: nat, parent: string): string {
    if depth == 0 then "<" else parent + ItemSegment(count)
  }

  predicate StartsAngle(k: string) {
    |k| > 0 && k[0] == '<'
  }

  lemma ChangesTrans(a: map<string, string>, b: map<string, string>, c: map<string, string>, prefix: string)
    requires ChangesUnder(b, a, prefix) && ChangesUnder(c, b, prefix)
    ensures ChangesUnder(c, a, prefix)
  {
    forall k | k in c && (k !in a || c[k] != a[k]) ensures prefix <= k {
      if k in b && (k !in a || b[k] != a[k]) {
      } else {
        assert k in b ==> c[k] != b[k];
      }
    }
  }

  lemma ChangesWeaken(r: map<string, string>, acc: map<string, string>, p: string, q: string)
    requires ChangesUnder(r, acc, p) && q <= p
    ensures ChangesUnder(r, acc, q)
  {
    forall k | k in r && (k !in acc || r[k] != acc[k]) ensures q <= k {
      assert p == k[..|p|];
      assert q == p[..|q|] == k[..|q|];
    }
  }

  lemma ScopeOfPath(e: Element, depth: nat, count: nat, parent: string)
    ensures Scope(depth, count, parent) <= TagPath(e, depth, count, parent)
  {
    var l := TagLabel(e);
    if depth == 0 {
      assert TagPath(e, depth, count, parent) == "<" + (l + ">");
      PrefixOfAppend("<", l + ">");
    } else {
      var q := parent + ItemSegment(count);
      assert TagPath(e, depth, count, parent) == q + ("<" + l + ">");
      PrefixOfAppend(q, "<" + l + ">");
    }
  }

  lemma PrefixOfAppend(a: string, b: string)
    ensures a <= a + b
  {
    assert (a + b)[..|a|] == a;
  }

  lemma SegmentOpens(parent: string, count: nat)
    ensures parent + "[<" <= parent + ItemSegment(count)
  {
    ItemSegmentUniform(count);
    assert parent + ItemSegment(count) == (parent + "[<") + (ZFill(NatToString(count), 4) + ">]");
  }

  /** Flattening elements `i..` changes only keys in the call's scope. */
  lemma {:induction false} FlattenFromFrame(ds: Dataset, i: nat, depth: nat, count: nat, parent: string,
                                            acc: map<string, string>)
    requires i <= |ds.elements|
    ensures ChangesUnder(FlattenFrom(ds, i, depth, count, parent, acc), acc, Scope(depth, count, parent))
    decreases ds, 0, |ds.elements| - i
  {
    if i < |ds.elements| {
      var mid := Visit(ds.elements[i], depth, count, parent, acc);
      var r := FlattenFrom(ds, i + 1, depth, count, parent, mid);
      FlattenFromStep(ds, i, depth, count, parent, acc);
      VisitFrame(ds.elements[i], depth, count, parent, acc);
      FlattenFromFrame(ds, i + 1, depth, count, parent, mid);
      ChangesTrans(acc, mid, r, Scope(depth, count, parent));
    }
  }

  /** Writing an element records it under its own path and changes nothing
      outside the call's scope. */
  lemma {:induction false} VisitFrame(e: Element, depth: nat, count: nat, parent: string,
                                      acc: map<string, string>)
    ensures ChangesUnder(Visit(e, depth, count, parent, acc), acc, Scope(depth, count, parent))
    ensures TagPath(e, depth, count, parent) in Visit(e, depth, count, parent, acc)
    ensures Visit(e, depth, count, parent, acc)[TagPath(e, depth, count, parent)] == EncodedValue(e)
    decreases e, 2
  {
    var path := TagPath(e, depth, count, parent);
    assert Visit(e, depth, count, parent, acc) == WriteAt(e, path, depth, acc);
    WriteAtFrame(e, path, depth, acc);
    ScopeOfPath(e, depth, count, parent);
    ChangesWeaken(WriteAt(e, path, depth, acc), acc, path, Scope(depth, count, parent));
  }

  /** An element's own entry survives the flattening of its items: those
      write only keys that extend `path[<`. */
  lemma {:induction false} WriteAtFrame(e: Element, path: string, depth: nat, acc: map<string, string>)
    ensures ChangesUnder(WriteAt(e, path, depth, acc), acc, path)
    ensures path in WriteAt(e, path, depth, acc)
    ensures WriteAt(e, path, depth, acc)[path] == EncodedValue(e)
    decreases e, 1
  {
    var written := acc[path := EncodedValue(e)];
    assert ChangesUnder(written, acc, path);
    if e.vr == "SQ" {
      var r := ItemsFrom(e, 0, depth + 1, path, written);
      assert WriteAt(e, path, depth, acc) == r;
      ItemsFrame(e, 0, depth + 1, path, written);
      assert !(path + "[<" <= path);
      ChangesWeaken(r, written, path + "[<", path);
      ChangesTrans(acc, written, r, path);
    }
  }

  /** Flattening items `j..` of a sequence changes only keys under `parent[<`. */
  lemma {:induction false} ItemsFrame(e: Element, j: nat, depth: nat, parent: string,
                                      acc: map<string, string>)
    requires j <= |e.items| && depth > 0
    ensures ChangesUnder(ItemsFrom(e, j, depth, parent, acc), acc, parent + "[<")
    decreases e, 0, |e.items| - j
  {
    if j < |e.items| {
      var mid := Flatten(e.items[j], depth, j, parent, acc);
      var r := ItemsFrom(e, j + 1, depth, parent, mid);
      ItemsFromStep(e, j, depth, parent, acc);
      assert mid == FlattenFrom(e.items[j], 0, depth, j, parent, acc);
      FlattenFromFrame(e.items[j], 0, depth, j, parent, acc);
      assert Scope(depth, j, parent) == parent + ItemSegment(j);
      SegmentOpens(parent, j);
      ChangesWeaken(mid, acc, parent + ItemSegment(j), parent + "[<");
      ItemsFrame(e, j + 1, depth, parent, mid);
      ChangesTrans(acc, mid, r, parent + "[<");
    }
  }

  /** Flattening a whole data set from the top level changes only keys that
      begin with `<`; every other key of the dictionary passed in keeps its
      value. */
  lemma FlattenPreservesOtherKeys(ds: Dataset, acc: map<string, string>)
    ensures var r := Flatten(ds, 0, 0, "", acc);
      && acc.Keys <= r.Keys
      && (forall k :: k in r && !StartsAngle(k) ==> k in acc && r[k] == acc[k])
  {
    FlattenFromFrame(ds, 0, 0, 0, "", acc);
  }

  /** Every element of the data set has an entry under its path. */
  lemma ElementsRecorded(ds: Dataset, depth: nat, count: nat, parent: string, acc: map<string, string>)
    ensures forall i :: 0 <= i < |ds.elements| ==>
      TagPath(ds.elements[i], depth, count, parent) in Flatten(ds, depth, count, parent, acc)
  {
    RecordedFrom(ds, 0, depth, count, parent, acc);
  }

  lemma {:induction false} RecordedFrom(ds: Dataset, i: nat, depth: nat, count: nat, parent: string,
                                        acc: map<string, string>)
    requires i <= |ds.elements|
    ensures forall k :: i <= k < |ds.elements| ==>
      TagPath(ds.elements[k], depth, count, parent) in FlattenFrom(ds, i, depth, count, parent, acc)
    decreases |ds.elements| - i
  {
    if i < |ds.elements| {
      var mid := Visit(ds.elements[i], depth, count, parent, acc);
      var r := FlattenFrom(ds, i + 1, depth, count, parent, mid);
      FlattenFromStep(ds, i, depth, count, parent, acc);
      VisitFrame(ds.elements[i], depth, count, parent, acc);
      FlattenFromFrame(ds, i + 1, depth, count, parent, mid);
      RecordedFrom(ds, i + 1, depth, count, parent, mid);
      forall k | i <= k < |ds.elements|
        ensures TagPath(ds.elements[k], depth, count, parent) in r
      {
        if k == i {
          assert TagPath(ds.elements[i], depth, count, parent) in mid;
        }
      }
    }
  }

  lemma FlattenFromStep(ds: Dataset, i: nat, depth: nat, count: nat, parent: string, acc: map<string, string>)
    requires i < |ds.elements|
    ensures FlattenFrom(ds, i, depth, count, parent, acc)
      == FlattenFrom(ds, i + 1, depth, count, parent, Visit(ds.elements[i], depth, count, parent, acc))
  {
  }

  lemma ItemsFromStep(e: Element, j: nat, depth: nat, parent: string, acc: map<string, string>)
    requires j < |e.items|
    ensures ItemsFrom(e, j, depth, parent, acc)
      == ItemsFrom(e, j + 1, depth, parent, Flatten(e.items[j], depth, j, parent, acc))
  {
  }

  /** Items of one sequence are flattened with their ordinal: a key written
      while flattening item `i` extends `path[<iiii>]`, so keys coming from two
      different items are different strings. */
  lemma ItemKeysSeparated(e: Element, path: string, depth: nat, i: nat, j: nat, acc: map<string, string>,
                          ki: string, kj: string)
    requires i < |e.items| && j < |e.items| && i != j && depth > 0
    requires var r := Flatten(e.items[i], depth, i, path, acc); ki in r && (ki !in acc || r[ki] != acc[ki])
    requires var r := Flatten(e.items[j], depth, j, path, acc); kj in r && (kj !in acc || r[kj] != acc[kj])
    ensures ki != kj
  {
    FlattenFromFrame(e.items[i], 0, depth, i, path, acc);
    FlattenFromFrame(e.items[j], 0, depth, j, path, acc);
    var pi, pj := path + ItemSegment(i), path + ItemSegment(j);
    assert pi <= ki && pj <= kj;
    ItemPathsDistinct(path, i, j, ki[|pi|..], kj[|pj|..]);
    assert ki == path + ItemSegment(i) + ki[|pi|..];
    assert kj == path + ItemSegment(j) + kj[|pj|..];
  }

  // ---------------------------------------------------------------------
  // The in-place walk (index_file_elements) and the per-file table (index_files)
  // ---------------------------------------------------------------------

  /** The dictionary one file's entries are written into. */
  class TagDict {
    var entries: map<string, string>

    constructor (init: map<string, string>)
      ensures entries == init
    {
      entries := init;
    }

    /** index_file_elements: write every element of `ds`, recursing into SQ items. */
    method IndexFileElements(ds: Dataset, depth: nat, count: nat, parent: string)
      modifies this
      ensures entries == Flatten(ds, depth, count, parent, old(entries))
      decreases ds, 1
    {
      var i := 0;
      while i < |ds.elements|
        invariant 0 <= i <= |ds.elements|
        invariant FlattenFrom(ds, i, depth, count, parent, entries) == Flatten(ds, depth, count, parent, old(entries))
      {
        ghost var before := entries;
        var e := ds.elements[i];
        WriteElement(e, depth, count, parent);
        FlattenFromStep(ds, i, depth, count, parent, before);
        i := i + 1;
      }
    }

    /** One pass of that loop: record the element, then flatten its items. */
    method WriteElement(e: Element, depth: nat, count: nat, parent: string)
      modifies this
      ensures entries == Visit(e, depth, count, parent, old(entries))
      decreases e, 2
    {
      var path := TagPath(e, depth, count, parent);
      entries := entries[path := EncodedValue(e)];
      if e.vr == "SQ" {
        IndexItems(e, depth + 1, path);
      }
    }

    /** The loop over a sequence's items, each flattened with its ordinal. */
    method IndexItems(e: Element, depth: nat, path: string)
      modifies this
      ensures entries == ItemsFrom(e, 0, depth, path, old(entries))
      decreases e, 1
    {
      var j := 0;
      while j < |e.items|
        invariant 0 <= j <= |e.items|
        invariant ItemsFrom(e, j, depth, path, entries) == ItemsFrom(e, 0, depth, path, old(entries))
      {
        ghost var before := entries;
        var item := e.items[j];
        IndexFileElements(item, depth, j, path);
        ItemsFromStep(e, j, depth, path, before);
        j := j + 1;
      }
    }
  }

  /** A decoded file: its six identity attributes, `None` where the data set
      lacks the element (reading it then raises AttributeError), and its data
      set. */
  datatype Record = Record(
    modality: Option<string>, sopClassUid: Option<string>, patientId: Option<string>,
    studyUid: Option<string>, seriesUid: Option<string>, sopInstanceUid: Option<string>,
    dataset: Dataset)

  /** The six attribute reads of lines 158-163 all succeed. */
  predicate HasIdentity(r: Record) {
    && r.modality.Some? && r.sopClassUid.Some? && r.patientId.Some?
    && r.studyUid.Some? && r.seriesUid.Some? && r.sopInstanceUid.Some?
  }

  /** One row of the directory listing, with the record read from its path. */
  datatype Listing = Listing(fileName: string, filePath: string, fileDigest: string, record: Record)

  /** What `dataset.Modality` and the other reads raise for a missing element. */
  datatype Raised = AttributeError

  const IdentityKeys: set<string> :=
    {"file_name", "file_path", "file_digest", "modality", "class", "patient", "study", "series", "instance"}

  /** The identity entries written before the walk (lines 149-165). */
  function IdentityFields(l: Listing): map<string, string>
    requires HasIdentity(l.record)
  {
    map[
      "file_name" := "<" + l.fileName + ">",
      "file_path" := "<" + l.filePath + ">",
      "file_digest" := "<" + l.fileDigest + ">",
      "modality" := "<" + l.record.modality.value + ">",
      "class" := "<" + l.record.sopClassUid.value + ">",
      "patient" := "<" + l.record.patientId.value + ">",
      "study" := "<" + l.record.studyUid.value + ">",
      "series" := "<" + l.record.seriesUid.value + ">",
      "instance" := "<" + l.record.sopInstanceUid.value + ">"]
  }

  /** The entry `index_files` produces for one listing row. */
  function IndexedRow(l: Listing): map<string, string>
    requires HasIdentity(l.record)
  {
    Flatten(l.record.dataset, 0, 0, "", IdentityFields(l))
  }

  /** The identity entries survive the walk unchanged, and every other key of
      the row is a tag path. */
  lemma IdentityPreserved(l: Listing)
    requires HasIdentity(l.record)
    ensures IdentityKeys <= IndexedRow(l).Keys
    ensures forall k :: k in IdentityKeys ==> IndexedRow(l)[k] == IdentityFields(l)[k]
    ensures forall k :: k in IndexedRow(l) && k !in IdentityKeys ==> StartsAngle(k)
  {
    FlattenPreservesOtherKeys(l.record.dataset, IdentityFields(l));
    forall k | k in IdentityKeys ensures !StartsAngle(k) {
    }
  }

  /** index_files: one entry per listing row, keyed by its position. A file
      lacking one of the six identity attributes raises out of the loop, and
      the whole listing yields no table. */
  method IndexFiles(listing: seq<Listing>) returns (r: Result<map<nat, map<string, string>>, Raised>)
    ensures r.Err? <==> exists k :: 0 <= k < |listing| && !HasIdentity(listing[k].record)
    ensures r.Ok? ==> forall k: nat :: k in r.value <==> k < |listing|
    ensures r.Ok? ==> forall k :: 0 <= k < |listing| ==> r.value[k] == IndexedRow(listing[k])
  {
    var table: map<nat, map<string, string>> := map[];
    var iter := 0;
    while iter < |listing|
      invariant 0 <= iter <= |listing|
      invariant forall k :: 0 <= k < iter ==> HasIdentity(listing[k].record)
      invariant forall k: nat :: k in table <==> k < iter
      invariant forall k :: 0 <= k < iter ==> table[k] == IndexedRow(listing[k])
    {
      var row := listing[iter];
      if !HasIdentity(row.record) {
        return Err(AttributeError);
      }
      var d := new TagDict(IdentityFields(row));
      d.IndexFileElements(row.record.dataset, 0, 0, "");
      table := table[iter := d.entries];
      iter := iter + 1;
    }
    return Ok(table);
  }
}
