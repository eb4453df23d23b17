/**
 * The minimalistic backward stream reader of lib/stream-reader.js: a fixed
 * string of UTF-16 code units and a mutable cursor `pos` that only moves left.
 */
module Reader {

  /** One UTF-16 code unit, as `String.prototype.charCodeAt` yields it. */
  type CodeUnit = c: int | 0 <= c < 0x1_0000

  /**
   * What `charCodeAt` yields for an index outside the string (JavaScript's
   * NaN, and the `undefined` that `prev` returns at the start). It is not a
   * code unit, so it equals no character of any line.
   */
  const NaN: int := -1

  /** `s.charCodeAt(i)`: the code unit at `i`, or the sentinel outside the string. */
  function CharCodeAt(s: seq<CodeUnit>, i: int): (c: int)
    ensures c == NaN <==> !(0 <= i < |s|)
    ensures 0 <= i < |s| ==> c == s[i]
  {
    if 0 <= i < |s| then s[i] else NaN
  }

  /**
   * The argument of `eat` and `eatWhile`: either a literal code unit, compared
   * with `===`, or a predicate called on the peeked code.
   */
  datatype Matcher = Code(code: int) | Test(accepts: int -> bool)

  /** Whether matcher `m` accepts the peeked code `c`; NaN `===` nothing. */
  predicate Accepts(m: Matcher, c: int)
    ensures m.Code? && Accepts(m, c) ==> c == m.code && c != NaN
    ensures m.Code? && c == m.code && c != NaN ==> Accepts(m, c)
    ensures m.Test? ==> (Accepts(m, c) <==> m.accepts(c))
  {
    match m
    case Code(x) => c != NaN && x == c
    case Test(f) => f(c)
  }

  /** Matcher `m` accepts every code unit of `s`. */
  predicate AcceptsAll(m: Matcher, s: seq<CodeUnit>)
  {
    forall i :: 0 <= i < |s| ==> Accepts(m, s[i])
  }

  class StreamReader {
    const str: seq<CodeUnit>
    var pos: int

    /** A new reader starts at the end of its string. */
    constructor (s: seq<CodeUnit>)
      ensures str == s && pos == |s|
    {
      str := s;
      pos := |s|;
    }

    /** Start of line: the cursor is at index 0. */
    predicate Sol()
      reads this
      ensures Sol() <==> pos == 0
    {
      pos == 0
    }

    /**
     * The code unit `offset - 1` places right of the cursor (by default the
     * one just left of it), or NaN outside the string. Being a function it
     * cannot move the cursor.
     */
    function Peek(offset: int): (c: int)
      reads this
      ensures 0 <= pos - 1 + offset < |str| ==> c == str[pos - 1 + offset]
      ensures !(0 <= pos - 1 + offset < |str|) ==> c == NaN
      ensures c == NaN || 0 <= c < 0x1_0000
    {
      CharCodeAt(str, pos - 1 + offset)
    }

    /**
     * Steps left over one code unit and returns it; at the start of line it
     * returns `undefined` (the sentinel) and does not move.
     */
    method Prev() returns (c: int)
      modifies this
      ensures old(pos) == 0 ==> pos == 0 && c == NaN
      ensures old(pos) != 0 ==> pos == old(pos) - 1 && c == CharCodeAt(str, pos)
    {
      if !Sol() {
        pos := pos - 1;
        c := CharCodeAt(str, pos);
      } else {
        c := NaN;
      }
    }

    /**
     * Consumes the code unit left of the cursor when `m` accepts it. There is
     * no start-of-line guard: at `pos == 0` the peeked code is NaN, which a
     * literal never matches but a predicate may accept.
     */
    method Eat(m: Matcher) returns (ok: bool)
      modifies this
      ensures ok <==> Accepts(m, CharCodeAt(str, old(pos) - 1))
      ensures pos == if ok then old(pos) - 1 else old(pos)
      ensures old(pos) == 0 && m.Code? ==> !ok && pos == 0
      ensures ok && !Accepts(m, NaN) ==> 0 <= pos < |str| && Accepts(m, str[pos])
    {
      ok := Accepts(m, Peek(0));
      if ok {
        pos := pos - 1;
      }
    }

    /**
     * Consumes code units while `m` accepts them and tells whether it moved.
     * The source loop ends when `m` rejects NaN (every literal does) or some
     * code unit left of the cursor; a predicate that accepts NaN and the
     * whole prefix would run on past the start of the string forever.
     */
    method EatWhile(m: Matcher) returns (moved: bool)
      requires !Accepts(m, NaN) || (0 <= pos <= |str| && exists k :: 0 <= k < pos && !Accepts(m, str[k]))
      modifies this
      ensures moved <==> pos < old(pos)
      ensures pos <= old(pos)
      ensures old(pos) >= 0 ==> pos >= 0
      ensures pos < old(pos) ==> 0 <= pos && old(pos) <= |str| && AcceptsAll(m, str[pos..old(pos)])
      ensures !Accepts(m, Peek(0))
    {
      var start := pos;
      // the rejected code unit the loop cannot pass when `m` accepts NaN
      ghost var bound := -1;
      if Accepts(m, NaN) {
        bound :| 0 <= bound < pos && !Accepts(m, str[bound]);
      }
      var ok := Eat(m);
      while ok
        invariant pos <= start
        invariant Accepts(m, NaN) ==> 0 <= bound < pos && start <= |str| && !Accepts(m, str[bound])
        invariant ok ==> 0 <= pos
        invariant pos < start ==> 0 <= pos && start <= |str| && AcceptsAll(m, str[pos..start])
        invariant !ok ==> !Accepts(m, CharCodeAt(str, pos - 1))
        decreases pos + if ok then 1 else 0
      {
        ghost var before := pos;
        ok := Eat(m);
        if ok {
          assert 0 <= pos < |str| && Accepts(m, str[pos]);
          assert str[pos..start] == [str[pos]] + str[before..start];
        }
      }
      assert Peek(0) == CharCodeAt(str, pos - 1);
      moved := pos < start;
    }
  }
}
