/** `validate_text`: the fuzzy comparison the text checks use.

    Both values lose their angle brackets and are lower-cased. Two numerals
    are compared by value; otherwise an expected value that occurs literally
    in the file value is a full match; otherwise the expected value is cut
    into tokens (stop words and punctuation dropped) and the score is the
    fraction of tokens found (retain mode) or not found (remove mode) in the
    file value. The tokenizer and the excluded words are parameters. */
module TextMatcher {

  import opened Wrappers
  import opened Text

  datatype Mode = Retain | Remove

  /** A score `num / den`; every score the matcher produces has `den > 0`. */
  datatype Ratio = Ratio(num: nat, den: nat)

  const One: Ratio := Ratio(1, 1)
  const Zero: Ratio := Ratio(0, 1)

  datatype Verdict = Verdict(passed: bool, score: Ratio)

  /** The exceptions the comparison can raise; the calling check catches them. */
  datatype Raised =
    | NoneHasNoReplace   // the expected value is null: `None.replace` fails
    | DivisionByZero     // no tokens survive filtering: `retained / 0`

  /** `word_tokenize` and the stop-word and punctuation lists. */
  datatype Matcher = Matcher(tokenize: string -> seq<string>, excluded: set<string>)

  predicate ValidScore(r: Ratio) {
    0 < r.den && r.num <= r.den
  }

  // ---------------------------------------------------------------------
  // Normalisation and numerals
  // ---------------------------------------------------------------------

  /** `v.replace('<','').replace('>','').lower()`. */
  function Normalise(v: string): string {
    Lower(RemoveAll(RemoveAll(v, '<'), '>'))
  }

  /** `v.replace('.', '', 1).isdigit()`. */
  predicate IsNumeral(v: string) {
    IsDigits(RemoveFirst(v, '.'))
  }

  function Pow10(k: nat): (p: nat)
    ensures p >= 1
  {
    if k == 0 then 1 else 10 * Pow10(k - 1)
  }

  /** The digits of a numeral with its point removed. */
  function Mantissa(v: string): nat
    requires IsNumeral(v)
  {
    DigitsValue(RemoveFirst(v, '.'))
  }

  /** How many digits follow the point: the numeral denotes
      `Mantissa(v) / 10^Places(v)`. */
  function Places(v: string): nat {
    match FindChar(v, '.', 0)
    case Some(k) => |v| - 1 - k
    case None => 0
  }

  /** `float(a) == float(b)`, taken as equality of the decimal values. */
  predicate SameNumber(a: string, b: string)
    requires IsNumeral(a) && IsNumeral(b)
  {
    Mantissa(a) * Pow10(Places(b)) == Mantissa(b) * Pow10(Places(a))
  }

  /** `validate_number`. */
  function NumberVerdict(fileValue: string, answerValue: string, mode: Mode): (v: Verdict)
    requires IsNumeral(fileValue) && IsNumeral(answerValue)
    ensures v.passed == (SameNumber(answerValue, fileValue) == (mode == Retain))
    ensures v.score == (if v.passed then One else Zero)
  {
    var retain := mode == Retain;
    if SameNumber(answerValue, fileValue) then
      (if retain then Verdict(true, One) else Verdict(false, Zero))
    else
      (if retain then Verdict(false, Zero) else Verdict(true, One))
  }

  // ---------------------------------------------------------------------
  // Tokens
  // ---------------------------------------------------------------------

  /** The tokens of the expected value that are neither stop words nor
      punctuation, in order. */
  function Kept(tokens: seq<string>, excluded: set<string>): (r: seq<string>)
    ensures |r| <= |tokens|
  {
    if tokens == [] then []
    else (if tokens[0] in excluded then [] else [tokens[0]]) + Kept(tokens[1..], excluded)
  }

  /** Filtering keeps exactly the tokens that are not excluded. */
  lemma {:induction false} KeptMembers(tokens: seq<string>, excluded: set<string>)
    ensures forall t :: t in Kept(tokens, excluded) <==> t in tokens && t !in excluded
  {
    if tokens != [] {
      KeptMembers(tokens[1..], excluded);
      assert tokens == [tokens[0]] + tokens[1..];
    }
  }

  function AnswerTokens(answerValue: string, m: Matcher): seq<string> {
    Kept(m.tokenize(answerValue), m.excluded)
  }

  /** How many of `tokens` occur in the file value. */
  function Found(tokens: seq<string>, fileValue: string): (n: nat)
    ensures n <= |tokens|
  {
    if tokens == [] then 0
    else Found(tokens[..|tokens| - 1], fileValue) + (if Contains(fileValue, tokens[|tokens| - 1]) then 1 else 0)
  }

  /** All tokens are found exactly when the count reaches the total, and
      none is found exactly when the count is zero. */
  lemma {:induction false} FoundBounds(tokens: seq<string>, fileValue: string)
    ensures Found(tokens, fileValue) == |tokens| <==> forall i :: 0 <= i < |tokens| ==> Contains(fileValue, tokens[i])
    ensures Found(tokens, fileValue) == 0 <==> forall i :: 0 <= i < |tokens| ==> !Contains(fileValue, tokens[i])
  {
    if tokens != [] {
      var init := tokens[..|tokens| - 1];
      FoundBounds(init, fileValue);
      assert forall i :: 0 <= i < |init| ==> init[i] == tokens[i];
    }
  }

  /** `tokenize_and_check`: the score is the fraction of kept tokens found
      (retain) or missing (remove); with no kept tokens the division fails. */
  function TokenVerdict(fileValue: string, answerValue: string, mode: Mode, m: Matcher): Result<Verdict, Raised> {
    var tokens := AnswerTokens(answerValue, m);
    var total := |tokens|;
    var retained := Found(tokens, fileValue);
    var removed := total - retained;
    if total == 0 then Err(DivisionByZero)
    else if mode == Retain then Ok(Verdict(retained == total, Ratio(retained, total)))
    else Ok(Verdict(removed == total, Ratio(removed, total)))
  }

  // ---------------------------------------------------------------------
  // validate_text
  // ---------------------------------------------------------------------

  /** `validate_text(file_value, answer_value, method)`. */
  function MatchText(fileValue: string, answerValue: Option<string>, mode: Mode, m: Matcher): Result<Verdict, Raised> {
    if answerValue.None? then Err(NoneHasNoReplace)
    else
      var f := Normalise(fileValue);
      var a := Normalise(answerValue.value);
      if IsNumeral(f) && IsNumeral(a) then Ok(NumberVerdict(f, a, mode))
      else if Contains(f, a) then Ok(if mode == Retain then Verdict(true, One) else Verdict(false, Zero))
      else TokenVerdict(f, a, mode, m)
  }

  /** The three comparison stages, in their order of precedence. */
  predicate NumeralCase(f: string, a: string) {
    IsNumeral(Normalise(f)) && IsNumeral(Normalise(a))
  }

  predicate LiteralCase(f: string, a: string) {
    !NumeralCase(f, a) && Contains(Normalise(f), Normalise(a))
  }

  predicate TokenCase(f: string, a: string) {
    !NumeralCase(f, a) && !Contains(Normalise(f), Normalise(a))
  }

  /** Every score lies in [0, 1]. */
  lemma ScoresInRange(f: string, a: Option<string>, mode: Mode, m: Matcher)
    ensures MatchText(f, a, mode, m).Ok? ==> ValidScore(MatchText(f, a, mode, m).value.score)
  {
  }

  /** The comparison raises only for a null expected value, or when no token
      survives filtering in the token stage. */
  lemma RaisesWhen(f: string, a: Option<string>, mode: Mode, m: Matcher)
    ensures MatchText(f, a, mode, m).Err? <==>
      a.None? || (TokenCase(f, a.value) && AnswerTokens(Normalise(a.value), m) == [])
  {
  }

  /** When retain mode passes. */
  lemma RetainPasses(f: string, a: string, m: Matcher)
    ensures MatchText(f, Some(a), Retain, m).Ok? && MatchText(f, Some(a), Retain, m).value.passed <==>
      || (NumeralCase(f, a) && SameNumber(Normalise(a), Normalise(f)))
      || LiteralCase(f, a)
      || (TokenCase(f, a) && AnswerTokens(Normalise(a), m) != [] &&
          forall t :: t in AnswerTokens(Normalise(a), m) ==> Contains(Normalise(f), t))
  {
    var tokens := AnswerTokens(Normalise(a), m);
    FoundBounds(tokens, Normalise(f));
    assert forall i :: 0 <= i < |tokens| ==> tokens[i] in tokens;
  }

  /** When remove mode passes: unequal numbers, or an expected value none of
      whose tokens appears, and never when it occurs literally. */
  lemma RemovePasses(f: string, a: string, m: Matcher)
    ensures MatchText(f, Some(a), Remove, m).Ok? && MatchText(f, Some(a), Remove, m).value.passed <==>
      || (NumeralCase(f, a) && !SameNumber(Normalise(a), Normalise(f)))
      || (TokenCase(f, a) && AnswerTokens(Normalise(a), m) != [] &&
          forall t :: t in AnswerTokens(Normalise(a), m) ==> !Contains(Normalise(f), t))
  {
    var tokens := AnswerTokens(Normalise(a), m);
    FoundBounds(tokens, Normalise(f));
    assert forall i :: 0 <= i < |tokens| ==> tokens[i] in tokens;
  }

  /** Remove mode is retain mode read the other way: both raise or neither
      does, their scores add up to one, and they never both pass. */
  lemma ModesComplement(f: string, a: Option<string>, m: Matcher)
    ensures MatchText(f, a, Retain, m).Ok? <==> MatchText(f, a, Remove, m).Ok?
    ensures MatchText(f, a, Retain, m).Ok? ==>
      var r := MatchText(f, a, Retain, m).value;
      var s := MatchText(f, a, Remove, m).value;
      && r.score.den == s.score.den
      && r.score.num + s.score.num == r.score.den
      && !(r.passed && s.passed)
  {
  }

  /** Numerals compare by value: an integer retains its `.0` form, so
      `<12>` retains `<12.0>`. */
  lemma IntegerRetainsPointZero(d: string, m: Matcher)
    requires IsDigits(d)
    ensures MatchText("<" + d + ">", Some("<" + d + ".0>"), Retain, m) == Ok(Verdict(true, One))
  {
    var e := d + ".0";
    assert "<" + d + ".0>" == "<" + e + ">";
    assert forall i :: 0 <= i < |d| ==> IsDigitChar(d[i]);
    assert forall i :: 0 <= i < |e| ==> e[i] == '.' || IsDigitChar(e[i]);
    NormaliseFixes("<" + d + ">", d);
    NormaliseFixes("<" + e + ">", e);
    PointZeroSameNumber(d);
  }

  /** `d.0` is a numeral equal to the integer `d`. */
  lemma PointZeroSameNumber(d: string)
    requires IsDigits(d)
    ensures IsNumeral(d) && IsNumeral(d + ".0") && SameNumber(d + ".0", d)
  {
    var e := d + ".0";
    DigitsWithoutPoint(d);
    assert '.' !in d by {
      assert forall i :: 0 <= i < |d| ==> IsDigitChar(d[i]);
    }
    assert RemoveFirst(e, '.') == d + "0" by {
      RemoveFirstAfter(d, ".0", '.');
    }
    assert IsDigits(d + "0");
    assert (d + "0")[..|d|] == d;
    assert DigitsValue(d + "0") == 10 * DigitsValue(d);
    assert e[|d|] == '.';
    assert FindChar(e, '.', 0) == Some(|d|);
    assert Places(e) == 1 && Places(d) == 0;
  }

  lemma DigitsWithoutPoint(d: string)
    requires IsDigits(d)
    ensures RemoveFirst(d, '.') == d
  {
    assert forall i :: 0 <= i < |d| ==> IsDigitChar(d[i]);
  }

  lemma {:induction false} RemoveFirstAfter(a: string, b: string, c: char)
    requires c !in a
    ensures RemoveFirst(a + b, c) == a + RemoveFirst(b, c)
  {
    if a == [] {
      assert a + b == b;
    } else {
      assert (a + b)[0] == a[0] && (a + b)[1..] == a[1..] + b;
      RemoveFirstAfter(a[1..], b, c);
    }
  }

  /** A value without brackets or capitals is its own normal form. */
  lemma NormaliseFixes(v: string, inner: string)
    requires v == "<" + inner + ">"
    requires forall i :: 0 <= i < |inner| ==> inner[i] != '<' && inner[i] != '>' && !('A' <= inner[i] <= 'Z')
    ensures Normalise(v) == inner
  {
    BracketsIgnored(inner);
    RemoveAllFacts(inner, '<');
    RemoveAllFacts(inner, '>');
    CaseMapsPointwise(inner);
  }

  /** Angle brackets around a value make no difference. */
  lemma BracketsIgnored(v: string)
    ensures Normalise("<" + v + ">") == Normalise(v)
  {
    var w := RemoveAll(v, '<');
    assert "<" + v + ">" == "<" + (v + ">");
    RemoveAllAppend("<", v + ">", '<');
    RemoveAllAppend(v, ">", '<');
    assert RemoveAll("<", '<') == [];
    assert RemoveAll(">", '<') == ">";
    assert RemoveAll("<" + v + ">", '<') == w + ">";
    RemoveAllAppend(w, ">", '>');
    assert RemoveAll(">", '>') == [];
    assert RemoveAll(w + ">", '>') == RemoveAll(w, '>');
  }

  // ---------------------------------------------------------------------
  // The computation, as the source performs it
  // ---------------------------------------------------------------------

  /** `tokenize_and_check`: count retained and removed tokens in one pass. */
  method TokenizeAndCheck(fileValue: string, answerValue: string, mode: Mode, m: Matcher) returns (r: Result<Verdict, Raised>)
    ensures r == TokenVerdict(fileValue, answerValue, mode, m)
  {
    var retain := mode == Retain;
    var answerTokens := AnswerTokens(answerValue, m);
    var total := |answerTokens|;
    var retained := 0;
    var removed := 0;
    var i := 0;
    while i < |answerTokens|
      invariant 0 <= i <= |answerTokens|
      invariant retained == Found(answerTokens[..i], fileValue)
      invariant retained + removed == i
    {
      ghost var step := if Contains(fileValue, answerTokens[i]) then 1 else 0;
      assert answerTokens[..i + 1][..i] == answerTokens[..i];
      assert Found(answerTokens[..i + 1], fileValue) == Found(answerTokens[..i], fileValue) + step;
      if Contains(fileValue, answerTokens[i]) {
        retained := retained + 1;
      } else {
        removed := removed + 1;
      }
      i := i + 1;
    }
    assert answerTokens[..i] == answerTokens;
    if total == 0 {
      r := Err(DivisionByZero);
    } else if retain {
      r := Ok(Verdict(retained == total, Ratio(retained, total)));
    } else {
      r := Ok(Verdict(removed == total, Ratio(removed, total)));
    }
  }

  /** `validate_text`. */
  method ValidateText(fileValue: string, answerValue: Option<string>, mode: Mode, m: Matcher) returns (r: Result<Verdict, Raised>)
    ensures r == MatchText(fileValue, answerValue, mode, m)
  {
    if answerValue.None? {
      return Err(NoneHasNoReplace);
    }
    var f := Normalise(fileValue);
    var a := Normalise(answerValue.value);
    if IsNumeral(f) && IsNumeral(a) {
      r := Ok(NumberVerdict(f, a, mode));
    } else if Contains(f, a) {
      if mode == Retain {
        r := Ok(Verdict(true, One));
      } else {
        r := Ok(Verdict(false, Zero));
      }
    } else {
      r := TokenizeAndCheck(f, a, mode, m);
    }
  }
}
