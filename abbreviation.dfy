/**
 * The abbreviation extractor of index.js: from a caret in one line of text
 * it walks left over the characters an abbreviation may hold, keeping a
 * stack of close braces still waiting for their open partner, and reports
 * the abbreviation that ends at the caret together with its location.
 */
module Abbreviation {
  import opened Wrappers
  import opened Reader
  import Quotes

  const SquareBraceL: int := 91  // [
  const SquareBraceR: int := 93  // ]
  const RoundBraceL: int := 40   // (
  const RoundBraceR: int := 41   // )
  const CurlyBraceL: int := 123  // {
  const CurlyBraceR: int := 125  // }
  const AngleRight: int := 62    // >

  /** The codes of `# . * : $ - _ ! @ %  ^ +`. */
  const SpecialChars: set<int> := {35, 46, 42, 58, 36, 45, 95, 33, 64, 37, 94, 43}

  /**
   * `[`, `(` and `{`: no close brace, no abbreviation character, no
   * operator, no quote.
   */
  predicate IsOpenBrace(c: int)
    ensures IsOpenBrace(c) ==> !IsCloseBrace(c) && !IsAbbreviation(c) && !IsOperator(c) && !Quotes.IsQuote(c)
    ensures c == SquareBraceL || c == RoundBraceL || c == CurlyBraceL ==> IsOpenBrace(c)
  {
    c == SquareBraceL || c == RoundBraceL || c == CurlyBraceL
  }

  /** `]`, `)` and `}`: no abbreviation character, no operator, no quote. */
  predicate IsCloseBrace(c: int)
    ensures IsCloseBrace(c) ==> !IsAbbreviation(c) && !IsOperator(c) && !Quotes.IsQuote(c) && c != NaN
    ensures c == SquareBraceR || c == RoundBraceR || c == CurlyBraceR ==> IsCloseBrace(c)
  {
    c == SquareBraceR || c == RoundBraceR || c == CurlyBraceR
  }

  /**
   * An ASCII letter, an ASCII digit or one of the special characters: a
   * printable ASCII character other than a quote, a space or `>`.
   */
  predicate IsAbbreviation(c: int)
    ensures IsAbbreviation(c) ==> 33 <= c < 127 && !Quotes.IsQuote(c) && c != AngleRight
    ensures (65 <= c <= 90 || 97 <= c <= 122 || 48 <= c <= 57) ==> IsAbbreviation(c)
    ensures c in SpecialChars ==> IsAbbreviation(c)
  {
    (64 < c < 91) || (96 < c < 123) || (47 < c < 58) || c in SpecialChars
  }

  /** The `bracePairs` map: the close brace that pairs with an open brace. */
  function BracePair(open: int): (close: int)
    requires IsOpenBrace(open)
    ensures IsCloseBrace(close)
    ensures open == SquareBraceL ==> close == SquareBraceR
    ensures open == RoundBraceL ==> close == RoundBraceR
    ensures open == CurlyBraceL ==> close == CurlyBraceR
  {
    if open == SquareBraceL then SquareBraceR
    else if open == RoundBraceL then RoundBraceR
    else CurlyBraceR
  }

  /**
   * `arr.indexOf(value) !== -1`: `value` is somewhere in `stack`, so never
   * in an empty one, and always when it is on top.
   */
  predicate Has(stack: seq<int>, value: int)
    ensures Has(stack, value) ==> stack != []
    ensures stack != [] && stack[|stack| - 1] == value ==> Has(stack, value)
  {
    value in stack
  }

  /** Whether `isHTMLTag` accepts the `>` just left of a cursor at `pos` in a line. */
  type TagTest = (seq<CodeUnit>, nat) -> bool

  // ---------------------------------------------------------------------
  // The caret: clamping and the auto-close look-ahead

  /** The third argument of the extractor: `null`/`undefined`, a boolean, or anything else. */
  datatype LookAhead = Absent | Flag(b: bool) | Other

  /** Look-ahead is on for `null`/`undefined` and for exactly `true`. */
  predicate LooksAhead(a: LookAhead)
    ensures a == Absent ==> LooksAhead(a)
    ensures a.Flag? ==> (LooksAhead(a) <==> a.b)
    ensures a.Other? ==> !LooksAhead(a)
  {
    a == Absent || a == Flag(true)
  }

  /** The caret moved into the line: the end of line when missing, else clamped to `[0, len]`. */
  function ClampCaret(len: nat, caret: Option<int>): (p: nat)
    ensures p <= len
    ensures caret.None? ==> p == len
    ensures caret.Some? && 0 <= caret.value <= len ==> p == caret.value
    ensures caret.Some? && caret.value < 0 ==> p == 0
    ensures caret.Some? && caret.value > len ==> p == len
  {
    if caret.None? then len
    else if caret.value < 0 then 0
    else if caret.value > len then len
    else caret.value
  }

  /** The end of the maximal run of close braces that starts at `p`. */
  function SkipCloseBraces(line: seq<CodeUnit>, p: nat): (q: nat)
    requires p <= |line|
    ensures p <= q <= |line|
    ensures forall k :: p <= k < q ==> IsCloseBrace(line[k])
    ensures q < |line| ==> !IsCloseBrace(line[q])
    decreases |line| - p
  {
    if p < |line| && IsCloseBrace(line[p]) then SkipCloseBraces(line, p + 1) else p
  }

  /**
   * The caret moved right past what an editor likely inserted on its own:
   * at most one quote right at the caret, then every close brace after it.
   */
  function AutoClosedEnd(line: seq<CodeUnit>, p: nat): (q: nat)
    requires p <= |line|
    ensures p <= q <= |line|
    ensures var from := if p < |line| && Quotes.IsQuote(line[p]) then p + 1 else p;
            from <= q && forall k :: from <= k < q ==> IsCloseBrace(line[k])
    ensures q < |line| ==> !IsCloseBrace(line[q])
  {
    SkipCloseBraces(line, if Quotes.IsQuote(CharCodeAt(line, p)) then p + 1 else p)
  }

  /** `offsetPastAutoClosed`, the loop that moves the caret right. */
  method OffsetPastAutoClosed(line: seq<CodeUnit>, pos: nat) returns (q: nat)
    requires pos <= |line|
    ensures q == AutoClosedEnd(line, pos)
  {
    q := pos;
    // a closing quote is allowed only as the very next character
    if Quotes.IsQuote(CharCodeAt(line, q)) {
      q := q + 1;
    }
    while IsCloseBrace(CharCodeAt(line, q))
      invariant pos <= q <= |line|
      invariant SkipCloseBraces(line, q) == AutoClosedEnd(line, pos)
      decreases |line| - q
    {
      q := q + 1;
    }
  }

  /** Where the backward scan starts: the caret after clamping and, when enabled, look-ahead. */
  function CaretEnd(line: seq<CodeUnit>, caret: Option<int>, lookAhead: LookAhead): (end: nat)
    ensures ClampCaret(|line|, caret) <= end <= |line|
    ensures !LooksAhead(lookAhead) ==> end == ClampCaret(|line|, caret)
    ensures forall k :: ClampCaret(|line|, caret) <= k < end ==>
              Quotes.IsQuote(line[k]) || IsCloseBrace(line[k])
  {
    var p := ClampCaret(|line|, caret);
    if LooksAhead(lookAhead) then AutoClosedEnd(line, p) else p
  }

  // ---------------------------------------------------------------------
  // The backward scan

  /**
   * What one pass of the loop body does: step left with the new stack,
   * `continue` without stepping, or `break` with the new stack.
   */
  datatype Move = Advance(stack: seq<int>) | Stay | Stop(stack: seq<int>)

  /**
   * The loop body for the code unit `c` just left of `pos`: a close brace
   * is pushed and passed; an open brace pops the stack and is passed only
   * when the popped brace is its partner; any other character, while a `]`
   * or `}` waits on the stack, makes the pass `continue` without stepping;
   * elsewhere the scan passes exactly the characters it may step over and
   * stops at the rest, leaving the stack as it is.
   */
  function Step(line: seq<CodeUnit>, isTag: TagTest, pos: nat, stack: seq<int>): (m: Move)
    requires 0 < pos <= |line|
    ensures IsCloseBrace(line[pos - 1]) ==> m == Advance(stack + [line[pos - 1]])
    ensures IsOpenBrace(line[pos - 1]) ==>
              && !m.Stay?
              && m.stack == (if stack == [] then [] else stack[..|stack| - 1])
              && (m.Advance? <==> stack != [] && stack[|stack| - 1] == BracePair(line[pos - 1]))
    ensures m == Stay <==>
              && !IsOpenBrace(line[pos - 1]) && !IsCloseBrace(line[pos - 1])
              && (Has(stack, SquareBraceR) || Has(stack, CurlyBraceR))
    ensures !IsOpenBrace(line[pos - 1]) && !IsCloseBrace(line[pos - 1]) && !m.Stay? ==>
              m.stack == stack && (m.Advance? <==> Passable(line, isTag, pos - 1))
  {
    var c := line[pos - 1];
    if IsCloseBrace(c) then Advance(stack + [c])
    else if IsOpenBrace(c) then
      // `stack.pop()` happens before the comparison; on an empty stack it yields `undefined`
      var rest := if stack == [] then [] else stack[..|stack| - 1];
      if stack == [] || stack[|stack| - 1] != BracePair(c) then Stop(rest) else Advance(rest)
    else if Has(stack, SquareBraceR) || Has(stack, CurlyBraceR) then Stay
    else if (if c == AngleRight then isTag(line, pos) else !IsAbbreviation(c)) then Stop(stack)
    else Advance(stack)
  }

  /** How the scan ends: stopped at a position with a stack, or stuck forever. */
  datatype Halt = Stopped(pos: nat, stack: seq<int>) | Stuck

  /**
   * The loop run from `pos` with `stack`. A `Stay` leaves the loop's whole
   * state unchanged, so the loop repeats it forever: the scan is `Stuck`
   * (see `StuckLoopSpins`).
   */
  function Run(line: seq<CodeUnit>, isTag: TagTest, pos: nat, stack: seq<int>): (h: Halt)
    requires pos <= |line|
    ensures h.Stopped? ==> h.pos <= pos
    decreases pos
  {
    if pos == 0 then Stopped(0, stack)
    else match Step(line, isTag, pos, stack)
      case Advance(next) => Run(line, isTag, pos - 1, next)
      case Stop(next) => Stopped(pos, next)
      case Stay => Stuck
  }

  /** The code unit at `k` is one the scan may step over. */
  predicate Passable(line: seq<CodeUnit>, isTag: TagTest, k: nat)
    requires k < |line|
  {
    IsCloseBrace(line[k]) || IsOpenBrace(line[k])
    || (line[k] == AngleRight && !isTag(line, k + 1))
    || IsAbbreviation(line[k])
  }

  predicate AllCloseBraces(stack: seq<int>)
  {
    forall i :: 0 <= i < |stack| ==> IsCloseBrace(stack[i])
  }

  /**
   * A scan that stops does so left of where it began, and everything it
   * stepped over is a brace, a `>` that closes no tag, or an abbreviation
   * character: inside `[...]` or `{...}` it could only have stepped over
   * braces, since any other character there leaves it stuck.
   */
  lemma {:induction false} RunStopsLeft(line: seq<CodeUnit>, isTag: TagTest, pos: nat, stack: seq<int>)
    requires pos <= |line|
    ensures Run(line, isTag, pos, stack).Stopped? ==>
              var p := Run(line, isTag, pos, stack).pos;
              p <= pos && forall k :: p <= k < pos ==> Passable(line, isTag, k)
    decreases pos
  {
    if pos > 0 {
      match Step(line, isTag, pos, stack)
      case Advance(next) => RunStopsLeft(line, isTag, pos - 1, next);
      case Stop(next) =>
      case Stay =>
    }
  }

  /**
   * A scan stops only at the left edge of what it may pass: at the start of
   * the line, at an open brace whose partner was not on top of the stack,
   * or at a unit that is no brace and that it may not step over.
   */
  lemma {:induction false} RunStopsAtEdge(line: seq<CodeUnit>, isTag: TagTest, pos: nat, stack: seq<int>)
    requires pos <= |line|
    ensures var h := Run(line, isTag, pos, stack);
            h.Stopped? && h.pos > 0 ==>
              IsOpenBrace(line[h.pos - 1]) || (!IsCloseBrace(line[h.pos - 1]) && !Passable(line, isTag, h.pos - 1))
    decreases pos
  {
    if pos > 0 {
      match Step(line, isTag, pos, stack)
      case Advance(next) => RunStopsAtEdge(line, isTag, pos - 1, next);
      case Stop(next) =>
      case Stay =>
    }
  }

  /** The stack only ever holds close braces. */
  lemma {:induction false} RunKeepsCloseBraces(line: seq<CodeUnit>, isTag: TagTest, pos: nat, stack: seq<int>)
    requires pos <= |line|
    requires AllCloseBraces(stack)
    ensures Run(line, isTag, pos, stack).Stopped? ==> AllCloseBraces(Run(line, isTag, pos, stack).stack)
    decreases pos
  {
    if pos > 0 {
      match Step(line, isTag, pos, stack)
      case Advance(next) => RunKeepsCloseBraces(line, isTag, pos - 1, next);
      case Stop(next) =>
      case Stay =>
    }
  }

  /**
   * An open brace whose partner is not on top of the stack stops the scan
   * where it stands, and the pop has already removed the top.
   */
  lemma UnexpectedBraceStops(line: seq<CodeUnit>, isTag: TagTest, pos: nat, stack: seq<int>)
    requires 0 < pos <= |line| && IsOpenBrace(line[pos - 1])
    requires stack == [] || stack[|stack| - 1] != BracePair(line[pos - 1])
    ensures Run(line, isTag, pos, stack) == Stopped(pos, if stack == [] then [] else stack[..|stack| - 1])
  {
  }

  /** Any character but a brace, met while a `]` or `}` waits, leaves the scan stuck. */
  lemma OpaqueZoneSticks(line: seq<CodeUnit>, isTag: TagTest, pos: nat, stack: seq<int>)
    requires 0 < pos <= |line|
    requires !IsOpenBrace(line[pos - 1]) && !IsCloseBrace(line[pos - 1])
    requires Has(stack, SquareBraceR) || Has(stack, CurlyBraceR)
    ensures Run(line, isTag, pos, stack) == Stuck
  {
  }

  /**
   * Outside `[...]` and `{...}`, a stretch of abbreviation characters is
   * passed without touching the stack.
   */
  lemma {:induction false} RunOverAbbreviation(line: seq<CodeUnit>, isTag: TagTest, from: nat, to: nat, stack: seq<int>)
    requires to <= from <= |line|
    requires !Has(stack, SquareBraceR) && !Has(stack, CurlyBraceR)
    requires forall k :: to <= k < from ==> IsAbbreviation(line[k])
    ensures Run(line, isTag, from, stack) == Run(line, isTag, to, stack)
    decreases from
  {
    if to < from {
      assert Step(line, isTag, from, stack) == Advance(stack);
      RunOverAbbreviation(line, isTag, from - 1, to, stack);
    }
  }

  // ---------------------------------------------------------------------
  // The loop, iteration by iteration

  /** The state of the source's `while` loop: still going, or left with `pos` and `stack`. */
  datatype LoopState = Running(pos: nat, stack: seq<int>) | Exited(pos: nat, stack: seq<int>)

  /**
   * The loop's state after at most `n` passes of its body. Each pass moves
   * the cursor at most one place left, and the loop runs only while the
   * cursor is not at the start of the line.
   */
  function Iterate(line: seq<CodeUnit>, isTag: TagTest, n: nat, pos: nat, stack: seq<int>): (s: LoopState)
    requires pos <= |line|
    ensures s.pos <= pos && pos - s.pos <= n
    ensures s.Running? ==> 0 < s.pos
    decreases n
  {
    if pos == 0 then Exited(0, stack)
    else if n == 0 then Running(pos, stack)
    else match Step(line, isTag, pos, stack)
      case Advance(next) => Iterate(line, isTag, n - 1, pos - 1, next)
      case Stop(next) => Exited(pos, next)
      case Stay => Iterate(line, isTag, n - 1, pos, stack)
  }

  /** A scan that stops is the loop leaving within `pos` passes, in the same state. */
  lemma {:induction false} StoppedLoopExits(line: seq<CodeUnit>, isTag: TagTest, n: nat, pos: nat, stack: seq<int>)
    requires pos <= |line| && pos <= n
    requires Run(line, isTag, pos, stack).Stopped?
    ensures Iterate(line, isTag, n, pos, stack) ==
              Exited(Run(line, isTag, pos, stack).pos, Run(line, isTag, pos, stack).stack)
    decreases pos
  {
    if pos > 0 {
      match Step(line, isTag, pos, stack)
      case Advance(next) => StoppedLoopExits(line, isTag, n - 1, pos - 1, next);
      case Stop(next) =>
      case Stay =>
    }
  }

  /** A stuck scan is the loop never leaving, however many passes it makes. */
  lemma {:induction false} StuckLoopSpins(line: seq<CodeUnit>, isTag: TagTest, n: nat, pos: nat, stack: seq<int>)
    requires pos <= |line|
    requires Run(line, isTag, pos, stack) == Stuck
    ensures Iterate(line, isTag, n, pos, stack).Running?
    decreases n
  {
    if n > 0 {
      match Step(line, isTag, pos, stack)
      case Advance(next) => StuckLoopSpins(line, isTag, n - 1, pos - 1, next);
      case Stop(next) =>
      case Stay => StuckLoopSpins(line, isTag, n - 1, pos, stack);
    }
  }

  // ---------------------------------------------------------------------
  // The result

  /** `*`, `+`, `>` and `^`, the operators stripped from the front. */
  predicate IsOperator(c: int)
    ensures IsOperator(c) ==> IsAbbreviation(c) || c == AngleRight
    ensures c == AngleRight ==> IsOperator(c)
  {
    c == 42 || c == 43 || c == 62 || c == 94
  }

  /** `s.replace(/^[\*\+\>\^]+/, '')`: `s` without its longest prefix of operators. */
  function StripOperators(s: seq<CodeUnit>): (r: seq<CodeUnit>)
    ensures |r| <= |s| && r == s[|s| - |r|..]
    ensures r == [] || !IsOperator(r[0])
    ensures forall k :: 0 <= k < |s| - |r| ==> IsOperator(s[k])
  {
    if s != [] && IsOperator(s[0]) then
      var r := StripOperators(s[1..]);
      assert forall k :: 1 <= k < |s| - |r| ==> s[k] == s[1..][k - 1];
      r
    else s
  }

  /** Stripping the text `[p, end)` of a line leaves a suffix of it that ends at `end`. */
  lemma {:induction false} StripKeepsSuffix(line: seq<CodeUnit>, p: nat, end: nat)
    requires p <= end <= |line|
    ensures var a := StripOperators(line[p..end]);
            p <= end - |a| && a == line[end - |a|..end]
    decreases end - p
  {
    if p < end && IsOperator(line[p]) {
      assert line[p..end][1..] == line[p + 1..end];
      assert StripOperators(line[p..end]) == StripOperators(line[p + 1..end]);
      StripKeepsSuffix(line, p + 1, end);
    }
  }

  /** What the extractor returns, or that it never returns. */
  datatype Extraction = Found(abbreviation: seq<CodeUnit>, location: nat) | NotFound | NeverReturns

  /**
   * The result built from how the scan ended: something is found exactly
   * when the scan stopped with an empty stack after having moved, and it is
   * the text from its location to `end`, with no operator in front.
   */
  function Outcome(line: seq<CodeUnit>, end: nat, h: Halt): (r: Extraction)
    requires end <= |line|
    requires h.Stopped? ==> h.pos <= end
    ensures r == NeverReturns <==> h == Stuck
    ensures r.Found? <==> h.Stopped? && h.stack == [] && h.pos != end
    ensures r.Found? ==>
              && h.pos <= r.location <= end
              && r.abbreviation == line[r.location..end]
              && (r.abbreviation == [] || !IsOperator(r.abbreviation[0]))
  {
    match h
    case Stuck => NeverReturns
    case Stopped(p, stack) =>
      if stack == [] && p != end then
        var abbreviation := StripOperators(line[p..end]);
        StripKeepsSuffix(line, p, end);
        Found(abbreviation, end - |abbreviation|)
      else NotFound
  }

  /**
   * The extractor as a function of its arguments. What it finds ends where
   * the scan started and starts with no operator.
   */
  function ExtractSpec(line: seq<CodeUnit>, caret: Option<int>, lookAhead: LookAhead, isTag: TagTest): (r: Extraction)
    ensures r.Found? ==>
              var end := CaretEnd(line, caret, lookAhead);
              && r.location <= end
              && r.abbreviation == line[r.location..end]
              && (r.abbreviation == [] || !IsOperator(r.abbreviation[0]))
  {
    var end := CaretEnd(line, caret, lookAhead);
    Outcome(line, end, Run(line, isTag, end, []))
  }

  /**
   * What a found abbreviation is: the text from `location` to the scan's
   * start, with no operator in front; the scan stopped at or left of
   * `location` with an empty stack, having passed only operators before
   * `location` and only characters it may step over from there on; and it
   * stopped at the left edge: the start of the line, an open brace, or a
   * unit it may not step over.
   */
  lemma FoundAbbreviation(line: seq<CodeUnit>, caret: Option<int>, lookAhead: LookAhead, isTag: TagTest)
    requires ExtractSpec(line, caret, lookAhead, isTag).Found?
    ensures var r := ExtractSpec(line, caret, lookAhead, isTag);
            var end := CaretEnd(line, caret, lookAhead);
            var h := Run(line, isTag, end, []);
            && h == Stopped(h.pos, [])
            && h.pos <= r.location <= end <= |line|
            && h.pos < end
            && r.abbreviation == line[r.location..end]
            && (r.abbreviation == [] || !IsOperator(r.abbreviation[0]))
            && (forall k :: h.pos <= k < r.location ==> IsOperator(line[k]))
            && (forall k :: r.location <= k < end ==> Passable(line, isTag, k))
            && (h.pos > 0 ==>
                  IsOpenBrace(line[h.pos - 1]) || (!IsCloseBrace(line[h.pos - 1]) && !Passable(line, isTag, h.pos - 1)))
  {
    var end := CaretEnd(line, caret, lookAhead);
    RunStopsLeft(line, isTag, end, []);
    RunStopsAtEdge(line, isTag, end, []);
    var h := Run(line, isTag, end, []);
    assert ExtractSpec(line, caret, lookAhead, isTag) == Outcome(line, end, h);
    FoundSpan(line, end, h.pos, h.stack);
  }

  /** The abbreviation built from a stop at `p` with an empty stack. */
  lemma FoundSpan(line: seq<CodeUnit>, end: nat, p: nat, stack: seq<int>)
    requires p <= end <= |line|
    requires Outcome(line, end, Stopped(p, stack)).Found?
    ensures var r := Outcome(line, end, Stopped(p, stack));
            && stack == [] && p < end
            && p <= r.location <= end
            && r.abbreviation == line[r.location..end]
            && (r.abbreviation == [] || !IsOperator(r.abbreviation[0]))
            && (forall k :: p <= k < r.location ==> IsOperator(line[k]))
  {
    var raw := line[p..end];
    var a := StripOperators(raw);
    assert a == line[end - |a|..end];
    forall k | p <= k < end - |a| ensures IsOperator(line[k]) {
      assert line[k] == raw[k - p];
    }
  }

  /**
   * The extractor returns something exactly when the scan stops with an
   * empty stack after having moved.
   */
  lemma FoundWhen(line: seq<CodeUnit>, caret: Option<int>, lookAhead: LookAhead, isTag: TagTest)
    ensures var end := CaretEnd(line, caret, lookAhead);
            var h := Run(line, isTag, end, []);
            && (ExtractSpec(line, caret, lookAhead, isTag).Found? <==> h.Stopped? && h.stack == [] && h.pos != end)
            && (ExtractSpec(line, caret, lookAhead, isTag) == NeverReturns <==> h == Stuck)
  {
  }

  lemma ExtractSpecUnfolds(line: seq<CodeUnit>, caret: Option<int>, lookAhead: LookAhead, isTag: TagTest)
    ensures var end := CaretEnd(line, caret, lookAhead);
            ExtractSpec(line, caret, lookAhead, isTag) == Outcome(line, end, Run(line, isTag, end, []))
  {
  }

  /**
   * The scan loop of the extractor, from `end` down towards the start of
   * the line. It reports `Stuck` where the source would loop forever.
   */
  method Scan(line: seq<CodeUnit>, isTag: TagTest, end: nat) returns (h: Halt)
    requires end <= |line|
    ensures h == Run(line, isTag, end, [])
  {
    var pos: nat := end;
    var stack: seq<int> := [];

    while pos != 0
      invariant pos <= end
      invariant Run(line, isTag, pos, stack) == Run(line, isTag, end, [])
      decreases pos
    {
      var c := line[pos - 1];
      ghost var step := Step(line, isTag, pos, stack);

      if IsCloseBrace(c) {
        stack := stack + [c];
        assert step == Advance(stack);
      } else if IsOpenBrace(c) {
        var popped: Option<int> := None;
        if stack != [] {
          popped := Some(stack[|stack| - 1]);
          stack := stack[..|stack| - 1];
        }
        if popped != Some(BracePair(c)) {
          // unexpected brace
          assert step == Stop(stack);
          break;
        }
        assert step == Advance(stack);
      } else if Has(stack, SquareBraceR) || Has(stack, CurlyBraceR) {
        // `continue` without stepping left: nothing in the loop's state
        // changes, so the source loop repeats this pass forever
        assert step == Stay;
        return Stuck;
      } else if if c == AngleRight then isTag(line, pos) else !IsAbbreviation(c) {
        assert step == Stop(stack);
        break;
      } else {
        assert step == Advance(stack);
      }

      pos := pos - 1;
    }

    return Stopped(pos, stack);
  }

  /** The default export of index.js. */
  method Extract(line: seq<CodeUnit>, caret: Option<int>, lookAhead: LookAhead, isTag: TagTest)
    returns (r: Extraction)
    ensures r == ExtractSpec(line, caret, lookAhead, isTag)
  {
    // make sure the caret is within the line
    var pos: nat := ClampCaret(|line|, caret);
    if LooksAhead(lookAhead) {
      pos := OffsetPastAutoClosed(line, pos);
    }

    var end := pos;
    var h := Scan(line, isTag, end);
    ExtractSpecUnfolds(line, caret, lookAhead, isTag);
    // found something when the stack is empty and the scan moved; the
    // operators in front are dropped
    r := Outcome(line, end, h);
  }
}
