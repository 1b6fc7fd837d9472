/**
 * JavaScript strings as the source sees them: sequences of UTF-16 code
 * units, with the whitespace class `\s` of ECMAScript regular expressions.
 */
module JsText {

  /** One UTF-16 code unit; `String.prototype.split('')` yields one of these per element. */
  newtype CodeUnit = x: int | 0 <= x < 0x1_0000

  /** A JavaScript string value. */
  type JsString = seq<CodeUnit>

  /**
   * The code points in the class `\s`: the WhiteSpace and LineTerminator
   * productions of ECMAScript (tab, line feed, vertical tab, form feed,
   * carriage return, space, no-break space, the Unicode space separators,
   * line and paragraph separator, and the byte order mark).
   */
  predicate IsWhiteSpaceCode(u: int) {
    u == 0x09 || u == 0x0A || u == 0x0B || u == 0x0C || u == 0x0D ||
    u == 0x20 || u == 0xA0 || u == 0x1680 ||
    (0x2000 <= u <= 0x200A) ||
    u == 0x2028 || u == 0x2029 || u == 0x202F || u == 0x205F ||
    u == 0x3000 || u == 0xFEFF
  }

  predicate IsSpace(c: CodeUnit) {
    IsWhiteSpaceCode(c as int)
  }

  /** No code unit of `s` is whitespace. */
  predicate NoSpace(s: JsString) {
    forall i :: 0 <= i < |s| ==> !IsSpace(s[i])
  }

  /** Every code unit of `s` is whitespace. */
  predicate AllSpace(s: JsString) {
    forall i :: 0 <= i < |s| ==> IsSpace(s[i])
  }

  /** What `/^\s+$/` matches: a non-empty run made only of whitespace. */
  predicate IsWhitespaceToken(t: JsString) {
    |t| > 0 && AllSpace(t)
  }

  /** `ts.join('')`. */
  function Concat(ts: seq<JsString>): JsString {
    if ts == [] then [] else ts[0] + Concat(ts[1..])
  }

  lemma {:induction false} ConcatAppend(a: seq<JsString>, b: seq<JsString>)
    ensures Concat(a + b) == Concat(a) + Concat(b)
  {
    if a == [] {
      assert a + b == b;
    } else {
      assert (a + b)[0] == a[0];
      assert (a + b)[1..] == a[1..] + b;
      ConcatAppend(a[1..], b);
    }
  }

  /** `Concat` of one or two leading tokens. */
  lemma ConcatPairs(head: seq<JsString>, tail: seq<JsString>)
    requires 1 <= |head| <= 2
    ensures |head| == 1 ==> Concat(head + tail) == head[0] + Concat(tail)
    ensures |head| == 2 ==> Concat(head + tail) == head[0] + (head[1] + Concat(tail))
  {
    ConcatAppend(head, tail);
    assert Concat(head[1..]) == if |head| == 1 then [] else head[1] + Concat([]);
  }

  /** `s` with every whitespace code unit removed, order kept. */
  function RemoveSpaces(s: JsString): JsString {
    if s == [] then []
    else (if IsSpace(s[0]) then [] else [s[0]]) + RemoveSpaces(s[1..])
  }

  lemma {:induction false} RemoveSpacesAppend(a: JsString, b: JsString)
    ensures RemoveSpaces(a + b) == RemoveSpaces(a) + RemoveSpaces(b)
  {
    if a == [] {
      assert a + b == b;
    } else {
      assert (a + b)[0] == a[0];
      assert (a + b)[1..] == a[1..] + b;
      RemoveSpacesAppend(a[1..], b);
    }
  }

  lemma {:induction false} RemoveSpacesOfNoSpace(s: JsString)
    requires NoSpace(s)
    ensures RemoveSpaces(s) == s
  {
    if s != [] {
      RemoveSpacesOfNoSpace(s[1..]);
    }
  }

  lemma {:induction false} RemoveSpacesOfAllSpace(s: JsString)
    requires AllSpace(s)
    ensures RemoveSpaces(s) == []
  {
    if s != [] {
      RemoveSpacesOfAllSpace(s[1..]);
    }
  }
}
