/**
 * The scenarios of test/extract.js and test/quotes.js, worked out on the
 * model. Lines are written as UTF-16 code units, the text in a comment.
 * Where a `>` is met, the outcome depends on `isHTMLTag`, which is a
 * parameter here: those scenarios state what they assume of it.
 *
 * Each extraction scenario comes in two parts: where the scan stops on that
 * line (`...Scan`), and what the extractor then returns. The scans are
 * instances of a few shapes proved once for every line below.
 */
module Examples {
  import opened Wrappers
  import opened Reader
  import opened Abbreviation
  import Quotes
  import Intended

  // ---------------------------------------------------------------------
  // Shapes of a scan, on any line

  /** A character the scan steps over outside braces: an abbreviation character or a `>` that closes no tag. */
  predicate Plain(line: seq<CodeUnit>, isTag: TagTest, k: nat)
    requires k < |line|
  {
    IsAbbreviation(line[k]) || (line[k] == AngleRight && !isTag(line, k + 1))
  }

  /** The scan stops at `p` outside braces: the start of the line, the end of a tag, or a foreign character. */
  predicate StopsBefore(line: seq<CodeUnit>, isTag: TagTest, p: nat)
    requires p <= |line|
  {
    p == 0 ||
    var c := line[p - 1];
    !IsOpenBrace(c) && !IsCloseBrace(c) && if c == AngleRight then isTag(line, p) else !IsAbbreviation(c)
  }

  /** Plain characters are passed without touching the stack. */
  lemma {:induction false} PassPlain(line: seq<CodeUnit>, isTag: TagTest, from: nat, to: nat)
    requires to <= from <= |line|
    requires forall k :: to <= k < from ==> Plain(line, isTag, k)
    ensures Run(line, isTag, from, []) == Run(line, isTag, to, [])
    decreases from
  {
    if to < from {
      assert Plain(line, isTag, from - 1);
      assert Step(line, isTag, from, []) == Advance([]);
      PassPlain(line, isTag, from - 1, to);
    }
  }

  /** Plain characters back to a stop: the scan ends there with nothing pending. */
  lemma ScanPlain(line: seq<CodeUnit>, isTag: TagTest, p: nat, end: nat)
    requires p <= end <= |line|
    requires forall k :: p <= k < end ==> Plain(line, isTag, k)
    requires StopsBefore(line, isTag, p)
    ensures Run(line, isTag, end, []) == Stopped(p, [])
  {
    PassPlain(line, isTag, end, p);
  }

  /** A close brace is pushed and the scan steps left. */
  lemma Pushes(line: seq<CodeUnit>, isTag: TagTest, pos: nat, stack: seq<int>)
    requires 0 < pos <= |line| && IsCloseBrace(line[pos - 1])
    ensures Run(line, isTag, pos, stack) == Run(line, isTag, pos - 1, stack + [line[pos - 1]])
  {
  }

  /** A scan that stops at `p` with an empty stack, before an operator-free character, yields the text from `p`. */
  lemma ExtractsFrom(line: seq<CodeUnit>, caret: Option<int>, lookAhead: LookAhead, isTag: TagTest, end: nat, p: nat)
    requires end == CaretEnd(line, caret, lookAhead)
    requires p < end && !IsOperator(line[p])
    requires Run(line, isTag, end, []) == Stopped(p, [])
    ensures ExtractSpec(line, caret, lookAhead, isTag) == Found(line[p..end], p)
  {
    assert ExtractSpec(line, caret, lookAhead, isTag) == Outcome(line, end, Stopped(p, []));
    FoundSpan(line, end, p, []);
  }

  /** A scan that stops at `p` having passed only operators finds the empty text. */
  lemma OperatorsOnly(line: seq<CodeUnit>, p: nat, end: nat)
    requires p < end <= |line|
    requires forall k :: p <= k < end ==> IsOperator(line[k])
    ensures Outcome(line, end, Stopped(p, [])) == Found([], end)
  {
    AllOperatorsStrip(line[p..end]);
  }

  /** Stripping a text made only of operators leaves nothing. */
  lemma {:induction false} AllOperatorsStrip(s: seq<CodeUnit>)
    requires forall k :: 0 <= k < |s| ==> IsOperator(s[k])
    ensures StripOperators(s) == []
    decreases |s|
  {
    if s != [] {
      AllOperatorsStrip(s[1..]);
    }
  }

  /** `Plain`, for the corrected extractor. */
  predicate PlainIntended(line: seq<CodeUnit>, isTag: TagTest, k: nat)
    requires k < |line|
  {
    Intended.IsAbbreviationIntended(line[k]) || (line[k] == AngleRight && !isTag(line, k + 1))
  }

  /** `StopsBefore`, for the corrected extractor. */
  predicate StopsBeforeIntended(line: seq<CodeUnit>, isTag: TagTest, p: nat)
    requires p <= |line|
  {
    p == 0 ||
    var c := line[p - 1];
    !IsOpenBrace(c) && !IsCloseBrace(c) && if c == AngleRight then isTag(line, p) else !Intended.IsAbbreviationIntended(c)
  }

  /** `PassPlain`, for the corrected extractor. */
  lemma {:induction false} PassPlainIntended(line: seq<CodeUnit>, isTag: TagTest, from: nat, to: nat)
    requires to <= from <= |line|
    requires forall k :: to <= k < from ==> PlainIntended(line, isTag, k)
    ensures Intended.RunIntended(line, isTag, from, []) == Intended.RunIntended(line, isTag, to, [])
    decreases from
  {
    if to < from {
      assert PlainIntended(line, isTag, from - 1);
      assert Intended.StepIntended(line, isTag, from, []) == Advance([]);
      PassPlainIntended(line, isTag, from - 1, to);
    }
  }

  /** `ScanPlain`, for the corrected extractor. */
  lemma ScanPlainIntended(line: seq<CodeUnit>, isTag: TagTest, p: nat, end: nat)
    requires p <= end <= |line|
    requires forall k :: p <= k < end ==> PlainIntended(line, isTag, k)
    requires StopsBeforeIntended(line, isTag, p)
    ensures Intended.RunIntended(line, isTag, end, []) == Stopped(p, [])
  {
    PassPlainIntended(line, isTag, end, p);
  }

  /**
   * The corrected scan over one group in square or curly braces from `o` to
   * `c` with no brace inside: it passes the group and leaves the stack empty.
   */
  lemma GroupIntended(line: seq<CodeUnit>, isTag: TagTest, o: nat, c: nat)
    requires o < c < |line|
    requires line[o] == SquareBraceL || line[o] == CurlyBraceL
    requires line[c] == BracePair(line[o])
    requires forall k :: o < k < c ==> !IsOpenBrace(line[k]) && !IsCloseBrace(line[k])
    ensures Intended.RunIntended(line, isTag, c + 1, []) == Intended.RunIntended(line, isTag, o, [])
  {
    var close := line[c];
    if line[o] == SquareBraceL {
      assert close == SquareBraceR && Has([close], SquareBraceR);
    } else {
      assert close == CurlyBraceR && Has([close], CurlyBraceR);
    }
    OpenGroupIntended(line, isTag, c);
    Intended.RunIntendedInsideZone(line, isTag, c, o + 1, [close]);
    CloseGroupIntended(line, isTag, o, close);
  }

  /** The close brace of a group is pushed on an empty stack. */
  lemma OpenGroupIntended(line: seq<CodeUnit>, isTag: TagTest, c: nat)
    requires c < |line| && IsCloseBrace(line[c])
    ensures Intended.RunIntended(line, isTag, c + 1, []) == Intended.RunIntended(line, isTag, c, [line[c]])
  {
    assert Intended.StepIntended(line, isTag, c + 1, []) == Advance([line[c]]);
  }

  /** The open brace of a group meets its partner alone on the stack. */
  lemma CloseGroupIntended(line: seq<CodeUnit>, isTag: TagTest, o: nat, close: int)
    requires o < |line| && IsOpenBrace(line[o]) && close == BracePair(line[o])
    ensures Intended.RunIntended(line, isTag, o + 1, [close]) == Intended.RunIntended(line, isTag, o, [])
  {
    assert Intended.StepIntended(line, isTag, o + 1, [close]) == Advance([]);
  }

  /**
   * The corrected scan over plain characters `[p, o)`, one group in square
   * or curly braces from `o` to `c` with no brace inside, and plain
   * characters `(c, end)`: it passes them all and stops at `p`.
   */
  lemma ScanBracketIntended(line: seq<CodeUnit>, isTag: TagTest, p: nat, o: nat, c: nat, end: nat)
    requires p <= o < c < end <= |line|
    requires line[o] == SquareBraceL || line[o] == CurlyBraceL
    requires line[c] == BracePair(line[o])
    requires forall k :: o < k < c ==> !IsOpenBrace(line[k]) && !IsCloseBrace(line[k])
    requires forall k :: c < k < end ==> PlainIntended(line, isTag, k)
    requires forall k :: p <= k < o ==> PlainIntended(line, isTag, k)
    requires StopsBeforeIntended(line, isTag, p)
    ensures Intended.RunIntended(line, isTag, end, []) == Stopped(p, [])
  {
    PassPlainIntended(line, isTag, end, c + 1);
    GroupIntended(line, isTag, o, c);
    ScanPlainIntended(line, isTag, p, o);
  }

  /** The same as `ExtractsFrom`, for the corrected extractor. */
  lemma ExtractsIntendedFrom(line: seq<CodeUnit>, caret: Option<int>, lookAhead: LookAhead, isTag: TagTest, end: nat, p: nat)
    requires end == CaretEnd(line, caret, lookAhead)
    requires p < end && !IsOperator(line[p])
    requires Intended.RunIntended(line, isTag, end, []) == Stopped(p, [])
    ensures Intended.ExtractIntended(line, caret, lookAhead, isTag) == Found(line[p..end], p)
  {
    assert Intended.ExtractIntended(line, caret, lookAhead, isTag) == Outcome(line, end, Stopped(p, []));
    FoundSpan(line, end, p, []);
  }

  // ---------------------------------------------------------------------
  // The code as written

  // ".bar" gives ".bar" at 0
  lemma WholeLineScan(line: seq<CodeUnit>, isTag: TagTest)
    requires line == [46, 98, 97, 114]
    ensures Run(line, isTag, 4, []) == Stopped(0, [])
  {
    ScanPlain(line, isTag, 0, 4);
  }

  lemma WholeLine(line: seq<CodeUnit>, isTag: TagTest)
    requires line == [46, 98, 97, 114]
    ensures ExtractSpec(line, None, Absent, isTag) == Found(line, 0)
  {
    assert !IsOperator(line[0]);
    assert CaretEnd(line, None, Absent) == 4;
    WholeLineScan(line, isTag);
    ExtractsFrom(line, None, Absent, isTag, 4, 0);
  }

  // ".foo .bar" gives ".bar" at 5
  lemma SpaceStopsScan(line: seq<CodeUnit>, isTag: TagTest)
    requires line == [46, 102, 111, 111, 32, 46, 98, 97, 114]
    ensures Run(line, isTag, 9, []) == Stopped(5, [])
  {
    ScanPlain(line, isTag, 5, 9);
  }

  lemma SpaceStops(line: seq<CodeUnit>, isTag: TagTest)
    requires line == [46, 102, 111, 111, 32, 46, 98, 97, 114]
    ensures ExtractSpec(line, None, Absent, isTag) == Found(line[5..], 5)
  {
    assert !IsOperator(line[5]);
    assert CaretEnd(line, None, Absent) == 9;
    SpaceStopsScan(line, isTag);
    ExtractsFrom(line, None, Absent, isTag, 9, 5);
  }

  // ".foo @bar" gives "@bar" at 5
  lemma AtSignScan(line: seq<CodeUnit>, isTag: TagTest)
    requires line == [46, 102, 111, 111, 32, 64, 98, 97, 114]
    ensures Run(line, isTag, 9, []) == Stopped(5, [])
  {
    ScanPlain(line, isTag, 5, 9);
  }

  lemma AtSign(line: seq<CodeUnit>, isTag: TagTest)
    requires line == [46, 102, 111, 111, 32, 64, 98, 97, 114]
    ensures ExtractSpec(line, None, Absent, isTag) == Found(line[5..], 5)
  {
    assert !IsOperator(line[5]);
    assert CaretEnd(line, None, Absent) == 9;
    AtSignScan(line, isTag);
    ExtractsFrom(line, None, Absent, isTag, 9, 5);
  }

  // "текстdiv" gives "div" at 5: Cyrillic letters are not abbreviation characters
  lemma NonAsciiStopsScan(line: seq<CodeUnit>, isTag: TagTest)
    requires line == [1090, 1077, 1082, 1089, 1090, 100, 105, 118]
    ensures Run(line, isTag, 8, []) == Stopped(5, [])
  {
    ScanPlain(line, isTag, 5, 8);
  }

  lemma NonAsciiStops(line: seq<CodeUnit>, isTag: TagTest)
    requires line == [1090, 1077, 1082, 1089, 1090, 100, 105, 118]
    ensures ExtractSpec(line, None, Absent, isTag) == Found(line[5..], 5)
  {
    assert !IsOperator(line[5]);
    assert CaretEnd(line, None, Absent) == 8;
    NonAsciiStopsScan(line, isTag);
    ExtractsFrom(line, None, Absent, isTag, 8, 5);
  }

  // "a foo+bar.baz" gives "foo+bar.baz" at 2
  lemma OperatorsScan(line: seq<CodeUnit>, isTag: TagTest)
    requires line == [97, 32, 102, 111, 111, 43, 98, 97, 114, 46, 98, 97, 122]
    ensures Run(line, isTag, 13, []) == Stopped(2, [])
  {
    ScanPlain(line, isTag, 2, 13);
  }

  lemma Operators(line: seq<CodeUnit>, isTag: TagTest)
    requires line == [97, 32, 102, 111, 111, 43, 98, 97, 114, 46, 98, 97, 122]
    ensures ExtractSpec(line, None, Absent, isTag) == Found(line[2..], 2)
  {
    assert !IsOperator(line[2]);
    assert CaretEnd(line, None, Absent) == 13;
    OperatorsScan(line, isTag);
    ExtractsFrom(line, None, Absent, isTag, 13, 2);
  }

  // "a foo>bar+baz*3" gives "foo>bar+baz*3" at 2 when its `>` closes no tag
  lemma ChildOperatorScan(line: seq<CodeUnit>, isTag: TagTest)
    requires line == [97, 32, 102, 111, 111, 62, 98, 97, 114, 43, 98, 97, 122, 42, 51]
    requires !isTag(line, 6)
    ensures Run(line, isTag, 15, []) == Stopped(2, [])
  {
    ScanPlain(line, isTag, 2, 15);
  }

  lemma ChildOperator(line: seq<CodeUnit>, isTag: TagTest)
    requires line == [97, 32, 102, 111, 111, 62, 98, 97, 114, 43, 98, 97, 122, 42, 51]
    requires !isTag(line, 6)
    ensures ExtractSpec(line, None, Absent, isTag) == Found(line[2..], 2)
  {
    assert !IsOperator(line[2]);
    assert CaretEnd(line, None, Absent) == 15;
    ChildOperatorScan(line, isTag);
    ExtractsFrom(line, None, Absent, isTag, 15, 2);
  }

  // "foo>bar" gives "foo>bar" at 0 when its `>` closes no tag
  lemma NotATagScan(line: seq<CodeUnit>, isTag: TagTest)
    requires line == [102, 111, 111, 62, 98, 97, 114]
    requires !isTag(line, 4)
    ensures Run(line, isTag, 7, []) == Stopped(0, [])
  {
    ScanPlain(line, isTag, 0, 7);
  }

  lemma NotATag(line: seq<CodeUnit>, isTag: TagTest)
    requires line == [102, 111, 111, 62, 98, 97, 114]
    requires !isTag(line, 4)
    ensures ExtractSpec(line, None, Absent, isTag) == Found(line, 0)
  {
    assert !IsOperator(line[0]);
    assert CaretEnd(line, None, Absent) == 7;
    NotATagScan(line, isTag);
    ExtractsFrom(line, None, Absent, isTag, 7, 0);
  }

  // "<foo>bar" gives "bar" at 5 when "<foo>" is a tag
  lemma TagStopsScan(line: seq<CodeUnit>, isTag: TagTest)
    requires line == [60, 102, 111, 111, 62, 98, 97, 114]
    requires isTag(line, 5)
    ensures Run(line, isTag, 8, []) == Stopped(5, [])
  {
    ScanPlain(line, isTag, 5, 8);
  }

  lemma TagStops(line: seq<CodeUnit>, isTag: TagTest)
    requires line == [60, 102, 111, 111, 62, 98, 97, 114]
    requires isTag(line, 5)
    ensures ExtractSpec(line, None, Absent, isTag) == Found(line[5..], 5)
  {
    assert !IsOperator(line[5]);
    assert CaretEnd(line, None, Absent) == 8;
    TagStopsScan(line, isTag);
    ExtractsFrom(line, None, Absent, isTag, 8, 5);
  }

  // "a ++" gives the empty abbreviation at the caret: every character was an operator
  lemma OnlyOperatorsScan(line: seq<CodeUnit>, isTag: TagTest)
    requires line == [97, 32, 43, 43]
    ensures Run(line, isTag, 4, []) == Stopped(2, [])
  {
    ScanPlain(line, isTag, 2, 4);
  }

  lemma OnlyOperators(line: seq<CodeUnit>, isTag: TagTest)
    requires line == [97, 32, 43, 43]
    ensures ExtractSpec(line, None, Absent, isTag) == Found([], 4)
  {
    assert IsOperator(line[2]) && IsOperator(line[3]);
    OperatorsOnly(line, 2, 4);
    assert CaretEnd(line, None, Absent) == 4;
    OnlyOperatorsScan(line, isTag);
  }

  // the empty text "a ++" gives is not found again when the extractor runs on it
  lemma OnlyOperatorsRerun(line: seq<CodeUnit>, isTag: TagTest)
    requires line == []
    ensures ExtractSpec(line, None, Absent, isTag) == NotFound
  {
    assert CaretEnd(line, None, Absent) == 0;
  }

  // ---------------------------------------------------------------------
  // The defects, as written

  // "a foo[bar|]": the caret moves past "]", then "r" inside the brackets
  // is met with "]" pending and the loop never ends
  lemma AttributesHangScan(line: seq<CodeUnit>, isTag: TagTest)
    requires line == [97, 32, 102, 111, 111, 91, 98, 97, 114, 93]
    ensures Run(line, isTag, 10, []) == Stuck
  {
    Pushes(line, isTag, 10, []);
    OpaqueZoneSticks(line, isTag, 9, [93]);
  }

  lemma AttributesHang(line: seq<CodeUnit>, isTag: TagTest)
    requires line == [97, 32, 102, 111, 111, 91, 98, 97, 114, 93]
    ensures ExtractSpec(line, Some(9), Absent, isTag) == NeverReturns
  {
    assert SkipCloseBraces(line, 10) == 10;
    assert CaretEnd(line, Some(9), Absent) == 10;
    AttributesHangScan(line, isTag);
    assert ExtractSpec(line, Some(9), Absent, isTag) == Outcome(line, 10, Stuck);
  }

  // "foo{bar|}" hangs the same way inside braces
  lemma TextHangsScan(line: seq<CodeUnit>, isTag: TagTest)
    requires line == [102, 111, 111, 123, 98, 97, 114, 125]
    ensures Run(line, isTag, 8, []) == Stuck
  {
    Pushes(line, isTag, 8, []);
    OpaqueZoneSticks(line, isTag, 7, [125]);
  }

  lemma TextHangs(line: seq<CodeUnit>, isTag: TagTest)
    requires line == [102, 111, 111, 123, 98, 97, 114, 125]
    ensures ExtractSpec(line, Some(7), Absent, isTag) == NeverReturns
  {
    assert SkipCloseBraces(line, 8) == 8;
    assert CaretEnd(line, Some(7), Absent) == 8;
    TextHangsScan(line, isTag);
    assert ExtractSpec(line, Some(7), Absent, isTag) == Outcome(line, 8, Stuck);
  }

  // "foo{bar|}" with an options object as third argument: look-ahead is
  // off, so the scan starts before "}", passes "bar" and stops at "{",
  // which pops an empty stack; "bar" at 4 comes back
  lemma StylesheetScan(line: seq<CodeUnit>, isTag: TagTest)
    requires line == [102, 111, 111, 123, 98, 97, 114, 125]
    ensures Run(line, isTag, 7, []) == Stopped(4, [])
  {
    PassPlain(line, isTag, 7, 4);
    UnexpectedBraceStops(line, isTag, 4, []);
  }

  lemma Stylesheet(line: seq<CodeUnit>, isTag: TagTest)
    requires line == [102, 111, 111, 123, 98, 97, 114, 125]
    ensures ExtractSpec(line, Some(7), Other, isTag) == Found(line[4..7], 4)
  {
    assert !IsOperator(line[4]);
    assert CaretEnd(line, Some(7), Other) == 7;
    StylesheetScan(line, isTag);
    ExtractsFrom(line, Some(7), Other, isTag, 7, 4);
  }

  // ".foo img/" gives nothing: "/" is not an abbreviation character
  lemma SlashRefusedScan(line: seq<CodeUnit>, isTag: TagTest)
    requires line == [46, 102, 111, 111, 32, 105, 109, 103, 47]
    ensures Run(line, isTag, 9, []) == Stopped(9, [])
  {
    ScanPlain(line, isTag, 9, 9);
  }

  lemma SlashRefused(line: seq<CodeUnit>, isTag: TagTest)
    requires line == [46, 102, 111, 111, 32, 105, 109, 103, 47]
    ensures ExtractSpec(line, None, Absent, isTag) == NotFound
  {
    assert CaretEnd(line, None, Absent) == 9;
    SlashRefusedScan(line, isTag);
    assert ExtractSpec(line, None, Absent, isTag) == Outcome(line, 9, Stopped(9, []));
  }

  // "x(]" gives the unbalanced "]" at 2: "(" pops the pending "]" and stops
  lemma MismatchReturnsUnbalancedScan(line: seq<CodeUnit>, isTag: TagTest)
    requires line == [120, 40, 93]
    ensures Run(line, isTag, 3, []) == Stopped(2, [])
  {
    Pushes(line, isTag, 3, []);
    UnexpectedBraceStops(line, isTag, 2, [93]);
  }

  lemma MismatchReturnsUnbalanced(line: seq<CodeUnit>, isTag: TagTest)
    requires line == [120, 40, 93]
    ensures ExtractSpec(line, None, Absent, isTag) == Found(line[2..], 2)
    ensures !Intended.Balanced(line[2..])
  {
    assert !IsOperator(line[2]);
    assert CaretEnd(line, None, Absent) == 3;
    MismatchReturnsUnbalancedScan(line, isTag);
    ExtractsFrom(line, None, Absent, isTag, 3, 2);
  }

  // the "]" that "x(]" gives is not found again: its "]" has no partner
  lemma MismatchRerun(line: seq<CodeUnit>, isTag: TagTest)
    requires line == [93]
    ensures ExtractSpec(line, None, Absent, isTag) == NotFound
  {
    assert CaretEnd(line, None, Absent) == 1;
    assert Step(line, isTag, 1, []) == Advance([93]);
    assert Run(line, isTag, 1, []) == Stopped(0, [93]);
  }

  // ---------------------------------------------------------------------
  // The same scenarios, corrected

  // "a foo[bar|]" gives "foo[bar]" at 2
  lemma AttributesIntendedScan(line: seq<CodeUnit>, isTag: TagTest)
    requires line == [97, 32, 102, 111, 111, 91, 98, 97, 114, 93]
    ensures Intended.RunIntended(line, isTag, 10, []) == Stopped(2, [])
  {
    ScanBracketIntended(line, isTag, 2, 5, 9, 10);
  }

  lemma AttributesIntended(line: seq<CodeUnit>, isTag: TagTest)
    requires line == [97, 32, 102, 111, 111, 91, 98, 97, 114, 93]
    ensures Intended.ExtractIntended(line, Some(9), Absent, isTag) == Found(line[2..], 2)
  {
    assert !IsOperator(line[2]);
    assert SkipCloseBraces(line, 10) == 10;
    assert CaretEnd(line, Some(9), Absent) == 10;
    AttributesIntendedScan(line, isTag);
    ExtractsIntendedFrom(line, Some(9), Absent, isTag, 10, 2);
  }

  // "foo{bar|}" gives "foo{bar}" at 0
  lemma TextIntendedScan(line: seq<CodeUnit>, isTag: TagTest)
    requires line == [102, 111, 111, 123, 98, 97, 114, 125]
    ensures Intended.RunIntended(line, isTag, 8, []) == Stopped(0, [])
  {
    ScanBracketIntended(line, isTag, 0, 3, 7, 8);
  }

  lemma TextIntended(line: seq<CodeUnit>, isTag: TagTest)
    requires line == [102, 111, 111, 123, 98, 97, 114, 125]
    ensures Intended.ExtractIntended(line, Some(7), Absent, isTag) == Found(line, 0)
  {
    assert !IsOperator(line[0]);
    assert SkipCloseBraces(line, 8) == 8;
    assert CaretEnd(line, Some(7), Absent) == 8;
    TextIntendedScan(line, isTag);
    ExtractsIntendedFrom(line, Some(7), Absent, isTag, 8, 0);
  }

  // "foo bar[a|] baz" gives "bar[a]" at 4
  lemma AttributesMidLineScan(line: seq<CodeUnit>, isTag: TagTest)
    requires line == [102, 111, 111, 32, 98, 97, 114, 91, 97, 93, 32, 98, 97, 122]
    ensures Intended.RunIntended(line, isTag, 10, []) == Stopped(4, [])
  {
    ScanBracketIntended(line, isTag, 4, 7, 9, 10);
  }

  lemma AttributesMidLine(line: seq<CodeUnit>, isTag: TagTest)
    requires line == [102, 111, 111, 32, 98, 97, 114, 91, 97, 93, 32, 98, 97, 122]
    ensures Intended.ExtractIntended(line, Some(9), Absent, isTag) == Found(line[4..10], 4)
  {
    assert !IsOperator(line[4]);
    assert SkipCloseBraces(line, 10) == 10;
    assert CaretEnd(line, Some(9), Absent) == 10;
    AttributesMidLineScan(line, isTag);
    ExtractsIntendedFrom(line, Some(9), Absent, isTag, 10, 4);
  }

  // "a foo[bar=\"baz\" a b]" gives "foo[bar=\"baz\" a b]" at 2
  lemma QuotedAttributesScan(line: seq<CodeUnit>, isTag: TagTest)
    requires line == [97, 32, 102, 111, 111, 91, 98, 97, 114, 61, 34, 98, 97, 122, 34, 32, 97, 32, 98, 93]
    ensures Intended.RunIntended(line, isTag, 20, []) == Stopped(2, [])
  {
    ScanBracketIntended(line, isTag, 2, 5, 19, 20);
  }

  lemma QuotedAttributes(line: seq<CodeUnit>, isTag: TagTest)
    requires line == [97, 32, 102, 111, 111, 91, 98, 97, 114, 61, 34, 98, 97, 122, 34, 32, 97, 32, 98, 93]
    ensures Intended.ExtractIntended(line, None, Absent, isTag) == Found(line[2..], 2)
  {
    assert !IsOperator(line[2]);
    assert CaretEnd(line, None, Absent) == 20;
    QuotedAttributesScan(line, isTag);
    ExtractsIntendedFrom(line, None, Absent, isTag, 20, 2);
  }

  // "foo div[foo=\"текст\" bar=текст2]" gives "div[foo=\"текст\" bar=текст2]" at 4
  lemma NonAsciiAttributesScan(line: seq<CodeUnit>, isTag: TagTest)
    requires line == [102, 111, 111, 32, 100, 105, 118, 91, 102, 111, 111, 61, 34, 1090, 1077, 1082, 1089, 1090, 34, 32, 98, 97, 114, 61, 1090, 1077, 1082, 1089, 1090, 50, 93]
    ensures Intended.RunIntended(line, isTag, 31, []) == Stopped(4, [])
  {
    ScanBracketIntended(line, isTag, 4, 7, 30, 31);
  }

  lemma NonAsciiAttributes(line: seq<CodeUnit>, isTag: TagTest)
    requires line == [102, 111, 111, 32, 100, 105, 118, 91, 102, 111, 111, 61, 34, 1090, 1077, 1082, 1089, 1090, 34, 32, 98, 97, 114, 61, 1090, 1077, 1082, 1089, 1090, 50, 93]
    ensures Intended.ExtractIntended(line, None, Absent, isTag) == Found(line[4..], 4)
  {
    assert !IsOperator(line[4]);
    assert CaretEnd(line, None, Absent) == 31;
    NonAsciiAttributesScan(line, isTag);
    ExtractsIntendedFrom(line, None, Absent, isTag, 31, 4);
  }

  // "<foo>bar[a b=\"c\"]>baz" gives "bar[a b=\"c\"]>baz" at 5 when "<foo>" is a
  // tag and the later `>` closes none
  lemma TagBeforeAttributesScan(line: seq<CodeUnit>, isTag: TagTest)
    requires line == [60, 102, 111, 111, 62, 98, 97, 114, 91, 97, 32, 98, 61, 34, 99, 34, 93, 62, 98, 97, 122]
    requires isTag(line, 5) && !isTag(line, 18)
    ensures Intended.RunIntended(line, isTag, 21, []) == Stopped(5, [])
  {
    ScanBracketIntended(line, isTag, 5, 8, 16, 21);
  }

  lemma TagBeforeAttributes(line: seq<CodeUnit>, isTag: TagTest)
    requires line == [60, 102, 111, 111, 62, 98, 97, 114, 91, 97, 32, 98, 61, 34, 99, 34, 93, 62, 98, 97, 122]
    requires isTag(line, 5) && !isTag(line, 18)
    ensures Intended.ExtractIntended(line, None, Absent, isTag) == Found(line[5..], 5)
  {
    assert !IsOperator(line[5]);
    assert CaretEnd(line, None, Absent) == 21;
    TagBeforeAttributesScan(line, isTag);
    ExtractsIntendedFrom(line, None, Absent, isTag, 21, 5);
  }

  // ".foo img/" gives "img/" at 5
  lemma SlashIntendedScan(line: seq<CodeUnit>, isTag: TagTest)
    requires line == [46, 102, 111, 111, 32, 105, 109, 103, 47]
    ensures Intended.RunIntended(line, isTag, 9, []) == Stopped(5, [])
  {
    ScanPlainIntended(line, isTag, 5, 9);
  }

  lemma SlashIntended(line: seq<CodeUnit>, isTag: TagTest)
    requires line == [46, 102, 111, 111, 32, 105, 109, 103, 47]
    ensures Intended.ExtractIntended(line, None, Absent, isTag) == Found(line[5..], 5)
  {
    assert !IsOperator(line[5]);
    assert CaretEnd(line, None, Absent) == 9;
    SlashIntendedScan(line, isTag);
    ExtractsIntendedFrom(line, None, Absent, isTag, 9, 5);
  }

  // "x(]" gives nothing: the "]" stays pending
  lemma MismatchIntendedScan(line: seq<CodeUnit>, isTag: TagTest)
    requires line == [120, 40, 93]
    ensures Intended.RunIntended(line, isTag, 3, []) == Stopped(2, [93])
  {
    assert Intended.StepIntended(line, isTag, 3, []) == Advance([93]);
    assert Intended.StepIntended(line, isTag, 2, [93]) == Stop([93]);
  }

  lemma MismatchIntended(line: seq<CodeUnit>, isTag: TagTest)
    requires line == [120, 40, 93]
    ensures Intended.ExtractIntended(line, None, Absent, isTag) == NotFound
  {
    assert CaretEnd(line, None, Absent) == 3;
    MismatchIntendedScan(line, isTag);
    assert Intended.ExtractIntended(line, None, Absent, isTag) == Outcome(line, 3, Stopped(2, [93]));
  }

  // "a ++" gives nothing: only operators were found
  lemma OnlyOperatorsIntendedScan(line: seq<CodeUnit>, isTag: TagTest)
    requires line == [97, 32, 43, 43]
    ensures Intended.RunIntended(line, isTag, 4, []) == Stopped(2, [])
  {
    ScanPlainIntended(line, isTag, 2, 4);
  }

  lemma OnlyOperatorsIntended(line: seq<CodeUnit>, isTag: TagTest)
    requires line == [97, 32, 43, 43]
    ensures Intended.ExtractIntended(line, None, Absent, isTag) == NotFound
  {
    assert IsOperator(line[2]) && IsOperator(line[3]);
    OperatorsOnly(line, 2, 4);
    assert CaretEnd(line, None, Absent) == 4;
    OnlyOperatorsIntendedScan(line, isTag);
  }

  // ---------------------------------------------------------------------
  // Quotes

  // ' "foo"' stops on the opening quote at 1; '"foo"' and '""' at 0;
  // '"a\"b"' steps over the escaped quote; 'foo' is not quoted
  lemma QuotedScenarios()
    ensures Quotes.OpeningQuote([32, 34, 102, 111, 111, 34], 6) == Some(1)
    ensures Quotes.OpeningQuote([34, 102, 111, 111, 34], 5) == Some(0)
    ensures Quotes.OpeningQuote([34, 34], 2) == Some(0)
    ensures Quotes.OpeningQuote([34, 97, 92, 34, 98, 34], 6) == Some(0)
    ensures Quotes.OpeningQuote([102, 111, 111], 3) == None
  {
    assert Quotes.FindOpening([34, 97, 92, 34, 98, 34], 34, 5) == Quotes.FindOpening([34, 97, 92, 34, 98, 34], 34, 3);
  }

  /** The reader and the quote scanner together, as test/quotes.js drives them. */
  method EatQuotedScenarios() returns (ok1: bool, pos1: int, ok2: bool, pos2: int)
    ensures ok1 && pos1 == 1
    ensures !ok2 && pos2 == 3
  {
    var s := new StreamReader([32, 34, 102, 111, 111, 34]);
    ok1 := Quotes.EatQuoted(s);
    QuotedScenarios();
    pos1 := s.pos;

    s := new StreamReader([102, 111, 111]);
    ok2 := Quotes.EatQuoted(s);
    pos2 := s.pos;
  }
}
