/**
 * The extractor as its tests and comments evidently intend it, next to the
 * code as written in `Abbreviation`. Four changes, each one a finding:
 *  - inside `[...]` or `{...}` any character is stepped over (the source's
 *    `continue` skips the decrement and never ends);
 *  - `/` is an abbreviation character, as in `img/`;
 *  - an open brace that does not match the pending close brace stops the
 *    scan with that close brace still pending, so nothing unbalanced is
 *    returned;
 *  - text made only of operators, which the stripping empties, is not a
 *    find, so whatever is found is found again when the extractor is run
 *    on it (see `IntendedReExtracts`).
 */
module Intended {
  import opened Wrappers
  import opened Reader
  import opened Abbreviation
  import Quotes

  /**
   * The abbreviation characters, with `/` among them: still printable ASCII,
   * no quote, no brace and not `>`.
   */
  predicate IsAbbreviationIntended(c: int)
    ensures IsAbbreviation(c) ==> IsAbbreviationIntended(c)
    ensures c == 47 ==> IsAbbreviationIntended(c)
    ensures IsAbbreviationIntended(c) ==>
              33 <= c < 127 && !Quotes.IsQuote(c) && c != AngleRight && !IsOpenBrace(c) && !IsCloseBrace(c)
  {
    IsAbbreviation(c) || c == 47
  }

  /** The corrected loop body: it never stays in place. */
  function StepIntended(line: seq<CodeUnit>, isTag: TagTest, pos: nat, stack: seq<int>): (m: Move)
    requires 0 < pos <= |line|
    ensures m != Stay
  {
    var c := line[pos - 1];
    if IsCloseBrace(c) then Advance(stack + [c])
    else if IsOpenBrace(c) then
      if stack != [] && stack[|stack| - 1] == BracePair(c) then Advance(stack[..|stack| - 1])
      else Stop(stack)
    else if Has(stack, SquareBraceR) || Has(stack, CurlyBraceR) then Advance(stack)
    else if (if c == AngleRight then isTag(line, pos) else !IsAbbreviationIntended(c)) then Stop(stack)
    else Advance(stack)
  }

  /** The corrected scan always stops, at or left of where it began. */
  function RunIntended(line: seq<CodeUnit>, isTag: TagTest, pos: nat, stack: seq<int>): (h: Halt)
    requires pos <= |line|
    ensures h.Stopped? && h.pos <= pos
    decreases pos
  {
    if pos == 0 then Stopped(0, stack)
    else match StepIntended(line, isTag, pos, stack)
      case Advance(next) => RunIntended(line, isTag, pos - 1, next)
      case Stop(next) => Stopped(pos, next)
  }

  /**
   * Outside `[...]` and `{...}`, a stretch of abbreviation characters is
   * passed without touching the stack.
   */
  lemma {:induction false} RunIntendedOverAbbreviation(line: seq<CodeUnit>, isTag: TagTest, from: nat, to: nat, stack: seq<int>)
    requires to <= from <= |line|
    requires !Has(stack, SquareBraceR) && !Has(stack, CurlyBraceR)
    requires forall k :: to <= k < from ==> IsAbbreviationIntended(line[k])
    ensures RunIntended(line, isTag, from, stack) == RunIntended(line, isTag, to, stack)
    decreases from
  {
    if to < from {
      assert StepIntended(line, isTag, from, stack) == Advance(stack);
      RunIntendedOverAbbreviation(line, isTag, from - 1, to, stack);
    }
  }

  /**
   * While a `]` or `}` is pending, every character but a brace is passed
   * without touching the stack, whatever it is.
   */
  lemma {:induction false} RunIntendedInsideZone(line: seq<CodeUnit>, isTag: TagTest, from: nat, to: nat, stack: seq<int>)
    requires to <= from <= |line|
    requires Has(stack, SquareBraceR) || Has(stack, CurlyBraceR)
    requires forall k :: to <= k < from ==> !IsOpenBrace(line[k]) && !IsCloseBrace(line[k])
    ensures RunIntended(line, isTag, from, stack) == RunIntended(line, isTag, to, stack)
    decreases from
  {
    if to < from {
      assert StepIntended(line, isTag, from, stack) == Advance(stack);
      RunIntendedInsideZone(line, isTag, from - 1, to, stack);
    }
  }

  /** The corrected extractor: it always returns, and never an empty abbreviation. */
  function ExtractIntended(line: seq<CodeUnit>, caret: Option<int>, lookAhead: LookAhead, isTag: TagTest): (r: Extraction)
    ensures r != NeverReturns
    ensures r.Found? ==> r.abbreviation != []
  {
    var end := CaretEnd(line, caret, lookAhead);
    var r := Outcome(line, end, RunIntended(line, isTag, end, []));
    if r.Found? && r.abbreviation == [] then NotFound else r
  }

  /**
   * The close braces of `s` still waiting for an open partner when `s` is
   * read right to left, innermost last; `None` once an open brace meets a
   * missing or different partner.
   */
  function Pending(s: seq<int>): Option<seq<int>>
  {
    if s == [] then Some([])
    else match Pending(s[1..])
      case None => None
      case Some(waiting) =>
        if IsCloseBrace(s[0]) then Some(waiting + [s[0]])
        else if IsOpenBrace(s[0]) then
          if waiting != [] && waiting[|waiting| - 1] == BracePair(s[0]) then Some(waiting[..|waiting| - 1])
          else None
        else Some(waiting)
  }

  /** Every brace of `s` has its partner, properly nested. */
  predicate Balanced(s: seq<int>)
  {
    Pending(s) == Some([])
  }

  /** The corrected stack is exactly the pending close braces of what the scan passed. */
  lemma {:induction false} RunIntendedPending(line: seq<CodeUnit>, isTag: TagTest, end: nat, pos: nat, stack: seq<int>)
    requires pos <= end <= |line|
    requires Pending(line[pos..end]) == Some(stack)
    ensures var h := RunIntended(line, isTag, pos, stack);
            Pending(line[h.pos..end]) == Some(h.stack)
    decreases pos
  {
    if pos > 0 {
      match StepIntended(line, isTag, pos, stack)
      case Advance(next) =>
        assert line[pos - 1..end][1..] == line[pos..end];
        RunIntendedPending(line, isTag, end, pos - 1, next);
      case Stop(next) =>
    }
  }

  /** A prefix without braces changes nothing that is pending. */
  lemma {:induction false} PendingSkipsPrefix(s: seq<int>, n: nat)
    requires n <= |s|
    requires forall k :: 0 <= k < n ==> !IsOpenBrace(s[k]) && !IsCloseBrace(s[k])
    ensures Pending(s) == Pending(s[n..])
    decreases n
  {
    if n > 0 {
      PendingSkipsPrefix(s[1..], n - 1);
      assert s[1..][n - 1..] == s[n..];
    }
  }

  /** Stripping operators from the front keeps a balanced text balanced. */
  lemma {:induction false} StripKeepsBalance(raw: seq<CodeUnit>)
    requires Balanced(raw)
    ensures Balanced(StripOperators(raw))
  {
    var a := StripOperators(raw);
    var n := |raw| - |a|;
    forall k | 0 <= k < n ensures !IsOpenBrace(raw[k]) && !IsCloseBrace(raw[k]) {
      assert IsOperator(raw[k]);
    }
    PendingSkipsPrefix(raw, n);
  }

  /**
   * What the corrected extractor returns: the text from `location` to the
   * scan's start, with no operator in front, and with every brace in it
   * matched by its partner.
   */
  lemma IntendedFoundBalanced(line: seq<CodeUnit>, caret: Option<int>, lookAhead: LookAhead, isTag: TagTest)
    requires ExtractIntended(line, caret, lookAhead, isTag).Found?
    ensures var r := ExtractIntended(line, caret, lookAhead, isTag);
            var end := CaretEnd(line, caret, lookAhead);
            && r.location <= end <= |line|
            && r.abbreviation == line[r.location..end]
            && (r.abbreviation == [] || !IsOperator(r.abbreviation[0]))
            && Balanced(r.abbreviation)
  {
    var end := CaretEnd(line, caret, lookAhead);
    var h := RunIntended(line, isTag, end, []);
    assert ExtractIntended(line, caret, lookAhead, isTag) == Outcome(line, end, h);
    RunIntendedPending(line, isTag, end, end, []);
    FoundSpan(line, end, h.pos, h.stack);
    StripKeepsBalance(line[h.pos..end]);
  }

  // ---------------------------------------------------------------------
  // Running the corrected extractor again on what it found

  /**
   * The corrected scan, with `stack` pending, steps over a code unit `c`
   * that is not a `>`.
   */
  predicate PassesWith(c: int, stack: seq<int>)
  {
    || IsCloseBrace(c)
    || (IsOpenBrace(c) && stack != [] && stack[|stack| - 1] == BracePair(c))
    || (!IsOpenBrace(c) && (Has(stack, SquareBraceR) || Has(stack, CurlyBraceR) || IsAbbreviationIntended(c)))
  }

  /**
   * Read right to left from its end, `s` is stepped over at every position
   * with the close braces pending after that position.
   */
  predicate PassedThrough(s: seq<CodeUnit>)
  {
    forall j :: 0 < j <= |s| ==> Pending(s[j..]).Some? && PassesWith(s[j - 1], Pending(s[j..]).value)
  }

  /**
   * Away from a `>`, the corrected loop body steps over the code unit left
   * of `pos` exactly when `PassesWith` says so, and the stack it leaves is
   * what is pending in any text that starts with that unit and then has
   * `stack` pending.
   */
  lemma StepIntendedPasses(line: seq<CodeUnit>, isTag: TagTest, pos: nat, stack: seq<int>, t: seq<int>)
    requires 0 < pos <= |line| && line[pos - 1] != AngleRight
    requires t != [] && t[0] == line[pos - 1] && Pending(t[1..]) == Some(stack)
    ensures StepIntended(line, isTag, pos, stack).Advance? <==> PassesWith(line[pos - 1], stack)
    ensures StepIntended(line, isTag, pos, stack).Advance? ==> Pending(t) == Some(StepIntended(line, isTag, pos, stack).stack)
  {
  }

  /**
   * A corrected scan that got from `pos` to `a` or further left, over text
   * without `>`, stepped over each code unit of `[a, pos)` with the braces
   * pending after it.
   */
  lemma {:induction false} RunIntendedPassed(line: seq<CodeUnit>, isTag: TagTest, a: nat, end: nat, pos: nat, stack: seq<int>)
    requires a <= pos <= end <= |line|
    requires Pending(line[pos..end]) == Some(stack)
    requires RunIntended(line, isTag, pos, stack).pos <= a
    requires forall k :: a <= k < end ==> line[k] != AngleRight
    ensures forall k :: a < k <= pos ==>
              Pending(line[k..end]).Some? && PassesWith(line[k - 1], Pending(line[k..end]).value)
    decreases pos
  {
    if a < pos {
      assert line[pos - 1..end][1..] == line[pos..end];
      StepIntendedPasses(line, isTag, pos, stack, line[pos - 1..end]);
      var m := StepIntended(line, isTag, pos, stack);
      assert m.Advance?;
      RunIntendedPassed(line, isTag, a, end, pos - 1, m.stack);
    }
  }

  /**
   * On a text it steps over throughout and that holds no `>`, the corrected
   * scan from any position reaches the start of the text, where the braces
   * of the whole text are pending.
   */
  lemma {:induction false} RunIntendedThrough(s: seq<CodeUnit>, isTag: TagTest, pos: nat)
    requires pos <= |s|
    requires PassedThrough(s)
    requires forall k :: 0 <= k < |s| ==> s[k] != AngleRight
    requires Pending(s[pos..]).Some?
    ensures Pending(s).Some?
    ensures RunIntended(s, isTag, pos, Pending(s[pos..]).value) == Stopped(0, Pending(s).value)
    decreases pos
  {
    if pos == 0 {
      assert s[0..] == s;
    } else {
      var stack := Pending(s[pos..]).value;
      assert s[pos - 1..][1..] == s[pos..];
      assert PassesWith(s[pos - 1], stack);
      StepIntendedPasses(s, isTag, pos, stack, s[pos - 1..]);
      RunIntendedThrough(s, isTag, pos - 1);
    }
  }

  /** What a scan from `end` stepped over down to `lo`, as a text of its own. */
  lemma PassedSlice(line: seq<CodeUnit>, lo: nat, end: nat)
    requires lo <= end <= |line|
    requires forall k :: lo < k <= end ==>
               Pending(line[k..end]).Some? && PassesWith(line[k - 1], Pending(line[k..end]).value)
    ensures PassedThrough(line[lo..end])
  {
    var a := line[lo..end];
    forall j | 0 < j <= |a|
      ensures Pending(a[j..]).Some? && PassesWith(a[j - 1], Pending(a[j..]).value)
    {
      assert a[j..] == line[lo + j..end];
      assert a[j - 1] == line[lo + j - 1];
    }
  }

  /**
   * A non-empty balanced text without `>`, stepped over throughout and not
   * starting with an operator, is found whole by the corrected extractor.
   */
  lemma ReExtractsPassed(a: seq<CodeUnit>, isTag: TagTest)
    requires a != [] && !IsOperator(a[0])
    requires PassedThrough(a) && Balanced(a)
    requires forall k :: 0 <= k < |a| ==> a[k] != AngleRight
    ensures ExtractIntended(a, None, Absent, isTag) == Found(a, 0)
  {
    assert a[|a|..] == [];
    RunIntendedThrough(a, isTag, |a|);
    assert CaretEnd(a, None, Absent) == |a|;
    FoundSpan(a, |a|, 0, []);
  }

  /**
   * Running the corrected extractor again on what it found, with the caret
   * at the end, finds the same text at 0. The text must hold no `>`: whether
   * a `>` closes a tag depends on the line around it.
   */
  lemma IntendedReExtracts(line: seq<CodeUnit>, caret: Option<int>, lookAhead: LookAhead, isTag: TagTest)
    requires ExtractIntended(line, caret, lookAhead, isTag).Found?
    requires var a := ExtractIntended(line, caret, lookAhead, isTag).abbreviation;
             forall k :: 0 <= k < |a| ==> a[k] != AngleRight
    ensures var a := ExtractIntended(line, caret, lookAhead, isTag).abbreviation;
            ExtractIntended(a, None, Absent, isTag) == Found(a, 0)
  {
    var r := ExtractIntended(line, caret, lookAhead, isTag);
    var end := CaretEnd(line, caret, lookAhead);
    var h := RunIntended(line, isTag, end, []);
    assert r == Outcome(line, end, h);
    IntendedFoundBalanced(line, caret, lookAhead, isTag);
    assert Pending(line[end..end]) == Some([]);
    RunIntendedPassed(line, isTag, r.location, end, end, []);
    PassedSlice(line, r.location, end);
    ReExtractsPassed(r.abbreviation, isTag);
  }
}
