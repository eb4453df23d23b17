/** The quote utilities of lib/quotes.js. */
module Quotes {
  import opened Wrappers
  import opened Reader

  const SingleQuote: int := 39
  const DoubleQuote: int := 34
  const Escape: int := 92

  /**
   * Only the single and the double quote are quotes: both ASCII, neither
   * the escape character, and never the NaN of a missing character.
   */
  predicate IsQuote(c: int)
    ensures IsQuote(c) ==> 0 <= c < 128 && c != Escape && c != NaN
    ensures c == SingleQuote || c == DoubleQuote ==> IsQuote(c)
  {
    c == SingleQuote || c == DoubleQuote
  }

  /**
   * The quote at index `j` is not escaped: the single-character look-behind
   * finds no backslash (at index 0 the look-behind yields NaN).
   */
  predicate Unescaped(s: seq<CodeUnit>, j: nat)
    requires j < |s|
  {
    j == 0 || s[j - 1] != Escape
  }

  /**
   * Scanning left from cursor `p`, the index of the nearest unescaped
   * occurrence of `quote`, if there is one.
   */
  function FindOpening(s: seq<CodeUnit>, quote: int, p: nat): (r: Option<nat>)
    requires p <= |s|
    ensures r.Some? ==> r.value < p && s[r.value] == quote && Unescaped(s, r.value)
    ensures r.Some? ==> forall k :: r.value < k < p && s[k] == quote ==> !Unescaped(s, k)
    ensures r.None? ==> forall k :: 0 <= k < p && s[k] == quote ==> !Unescaped(s, k)
    decreases p
  {
    if p == 0 then None
    else if s[p - 1] == quote && Unescaped(s, p - 1) then Some(p - 1)
    else FindOpening(s, quote, p - 1)
  }

  /**
   * Where `eatQuoted` leaves a cursor that starts at `start`: the index of
   * the opening quote on success, nothing on failure. It succeeds exactly
   * when the code unit left of the cursor is a quote and some unescaped
   * copy of that quote lies further left; the opening quote it stops at is
   * the nearest one, every copy in between being escaped.
   */
  function OpeningQuote(s: seq<CodeUnit>, start: int): (r: Option<nat>)
    ensures (start <= 0 || start > |s| || !IsQuote(s[start - 1])) ==> r.None?
    ensures r.Some? ==> 2 <= start <= |s| && r.value <= start - 2
    ensures r.Some? ==> IsQuote(s[start - 1]) && s[r.value] == s[start - 1] && Unescaped(s, r.value)
    ensures r.Some? ==> forall k :: r.value < k < start - 1 && s[k] == s[start - 1] ==> !Unescaped(s, k)
    ensures (0 < start <= |s| && IsQuote(s[start - 1]) && r.None?) ==>
              forall k :: 0 <= k < start - 1 && s[k] == s[start - 1] ==> !Unescaped(s, k)
  {
    if 0 < start <= |s| && IsQuote(s[start - 1]) then FindOpening(s, s[start - 1], start - 1) else None
  }

  /**
   * Consumes a quoted literal right to left. On success the cursor rests on
   * the opening quote; on failure it is put back where it started.
   */
  method EatQuoted(stream: StreamReader) returns (ok: bool)
    modifies stream
    ensures var r := OpeningQuote(stream.str, old(stream.pos));
            ok == r.Some? && stream.pos == if ok then r.value else old(stream.pos)
  {
    var start := stream.pos;
    var quote := stream.Prev();

    if IsQuote(quote) {
      while !stream.Sol()
        invariant 0 <= stream.pos < start <= |stream.str|
        invariant quote == stream.str[start - 1]
        invariant OpeningQuote(stream.str, start) == FindOpening(stream.str, quote, stream.pos)
        decreases stream.pos
      {
        var c := stream.Prev();
        if c == quote && stream.Peek(0) != Escape {
          return true;
        }
      }
    }

    stream.pos := start;
    return false;
  }
}
