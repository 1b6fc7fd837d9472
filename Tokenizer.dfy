/**
 * The tokeniser of the text segmenter: `text.split(/(\s+)/)`. Because the
 * separator pattern has a capturing group, the whitespace runs are kept in
 * the result, between the pieces of text they separate.
 */
module Tokenizer {
  import opened JsText

  /**
   * The length of the longest prefix of `s` whose code units are all
   * whitespace (`space`) or all non-whitespace (`!space`).
   */
  function LeadLen(s: JsString, space: bool): (n: nat)
    ensures n <= |s|
    ensures forall i :: 0 <= i < n ==> IsSpace(s[i]) == space
    ensures n < |s| ==> IsSpace(s[n]) != space
  {
    if s == [] || IsSpace(s[0]) != space then 0 else 1 + LeadLen(s[1..], space)
  }

  /**
   * The shape of the result of `split(/(\s+)/)`: an odd number of tokens;
   * the even-indexed ones hold no whitespace, the odd-indexed ones are
   * non-empty whitespace runs, and only the first and the last token may be
   * empty.
   */
  ghost predicate Alternating(ts: seq<JsString>) {
    |ts| % 2 == 1 &&
    (forall i :: 0 <= i < |ts| && i % 2 == 0 ==> NoSpace(ts[i])) &&
    (forall i :: 0 <= i < |ts| && i % 2 == 1 ==> IsWhitespaceToken(ts[i])) &&
    (forall i :: 0 < i < |ts| - 1 ==> ts[i] != [])
  }

  /** `text.split(/(\s+)/)` (src/utils/splitText.js:36). */
  function SplitOnWhitespace(s: JsString): (ts: seq<JsString>)
    ensures |ts| >= 1 && ts[0] == s[..LeadLen(s, false)]
    decreases |s|
  {
    var w := LeadLen(s, false);
    if w == |s| then
      [s]
    else
      var rest := s[w..];
      assert rest[0] == s[w];
      var k := LeadLen(rest, true);
      [s[..w], rest[..k]] + SplitOnWhitespace(rest[k..])
  }

  /** The tokens join back to the text: `tokens.join('') == text`. */
  lemma {:induction false} SplitJoins(s: JsString)
    ensures Concat(SplitOnWhitespace(s)) == s
    decreases |s|
  {
    var ts := SplitOnWhitespace(s);
    var w := LeadLen(s, false);
    if w == |s| {
      assert ts == [s];
      ConcatPairs([s], []);
    } else {
      var rest := s[w..];
      var k := LeadLen(rest, true);
      var x := rest[k..];
      var tail := SplitOnWhitespace(x);
      assert ts == [s[..w], rest[..k]] + tail;
      SplitJoins(x);
      ConcatPairs([s[..w], rest[..k]], tail);
      assert s == s[..w] + (rest[..k] + x) by {
        assert rest == rest[..k] + x;
        assert s == s[..w] + rest;
      }
    }
  }

  lemma AlternatingCons(a: JsString, b: JsString, tail: seq<JsString>)
    requires NoSpace(a) && IsWhitespaceToken(b) && Alternating(tail)
    requires |tail| > 1 ==> tail[0] != []
    ensures Alternating([a, b] + tail)
  {
    var ts := [a, b] + tail;
    assert forall i :: 2 <= i < |ts| ==> ts[i] == tail[i - 2];
  }

  /** The tokens have the alternating shape described by `Alternating`. */
  lemma {:induction false} SplitAlternates(s: JsString)
    ensures Alternating(SplitOnWhitespace(s))
    decreases |s|
  {
    var w := LeadLen(s, false);
    if w < |s| {
      var rest := s[w..];
      assert rest[0] == s[w];
      var k := LeadLen(rest, true);
      var x := rest[k..];
      var tail := SplitOnWhitespace(x);
      SplitAlternates(x);
      if |tail| > 1 {
        assert x != [];
        assert !IsSpace(x[0]);
        assert LeadLen(x, false) >= 1;
      }
      AlternatingCons(s[..w], rest[..k], tail);
    }
  }

  /** A whitespace token is exactly a token at an odd index. */
  lemma WhitespaceTokenAtOdd(ts: seq<JsString>, i: nat)
    requires Alternating(ts) && i < |ts|
    ensures IsWhitespaceToken(ts[i]) <==> i % 2 == 1
  {
    if i % 2 == 0 && |ts[i]| > 0 {
      assert !IsSpace(ts[i][0]);
    }
  }

  lemma {:induction false} LeadLenStops(a: JsString, c: JsString, space: bool)
    requires forall i :: 0 <= i < |a| ==> IsSpace(a[i]) == space
    requires c == [] || IsSpace(c[0]) != space
    ensures LeadLen(a + c, space) == |a|
  {
    if a != [] {
      assert (a + c)[1..] == a[1..] + c;
      LeadLenStops(a[1..], c, space);
    } else {
      assert a + c == c;
    }
  }

  /** One step of the split, read backwards from its pieces. */
  lemma SplitStep(s: JsString, a: JsString, b: JsString, r: JsString)
    requires s == a + (b + r) && NoSpace(a) && IsWhitespaceToken(b)
    requires r == [] || !IsSpace(r[0])
    ensures SplitOnWhitespace(s) == [a, b] + SplitOnWhitespace(r)
  {
    assert (b + r)[0] == b[0];
    LeadLenStops(a, b + r, false);
    LeadLenStops(b, r, true);
    assert s[|a|..] == b + r && s[..|a|] == a;
    assert (b + r)[|b|..] == r && (b + r)[..|b|] == b;
  }

  /** The tokens after the first whitespace run are alternating too. */
  lemma AlternatingTail(ts: seq<JsString>)
    requires Alternating(ts) && |ts| > 1
    ensures Alternating(ts[2..])
    ensures |ts| > 3 ==> ts[2] != []
  {
    assert forall i :: 0 <= i < |ts[2..]| ==> ts[2..][i] == ts[i + 2];
  }

  /** Alternating tokens never join to text that starts with whitespace. */
  lemma ConcatStartsWithWord(ts: seq<JsString>)
    requires Alternating(ts)
    requires |ts| > 1 ==> ts[0] != []
    ensures Concat(ts) == [] || !IsSpace(Concat(ts)[0])
  {
    ConcatAppend([ts[0]], ts[1..]);
    assert [ts[0]] + ts[1..] == ts;
    assert Concat([ts[0]]) == ts[0] + Concat([]);
    if ts[0] == [] {
      assert |ts| == 1 && ts[1..] == [];
    } else {
      assert Concat(ts)[0] == ts[0][0];
    }
  }

  /**
   * `SplitOnWhitespace` is the only alternating decomposition of a string:
   * any token list of that shape that joins to `s` is the result of the split.
   */
  lemma {:induction false} SplitUnique(ts: seq<JsString>, s: JsString)
    requires Alternating(ts) && Concat(ts) == s
    ensures SplitOnWhitespace(s) == ts
    decreases |ts|
  {
    var a := ts[0];
    if |ts| == 1 {
      ConcatPairs(ts, []);
      assert ts + [] == ts && a + [] == a;
      LeadLenStops(a, [], false);
    } else {
      var b := ts[1];
      var tail := ts[2..];
      assert ts == [a, b] + tail;
      ConcatPairs([a, b], tail);
      AlternatingTail(ts);
      ConcatStartsWithWord(tail);
      SplitStep(s, a, b, Concat(tail));
      SplitUnique(tail, Concat(tail));
    }
  }

  /** The non-whitespace tokens of `ts`, in order. */
  function WordTokens(ts: seq<JsString>): seq<JsString> {
    if ts == [] then []
    else (if IsWhitespaceToken(ts[0]) then [] else [ts[0]]) + WordTokens(ts[1..])
  }

  lemma WordTokensCons(a: JsString, b: JsString, tail: seq<JsString>)
    requires !IsWhitespaceToken(a) && IsWhitespaceToken(b)
    ensures WordTokens([a, b] + tail) == [a] + WordTokens(tail)
  {
    var ts := [a, b] + tail;
    assert ts[1..] == [b] + tail;
    assert ts[1..][1..] == tail;
  }

  /**
   * Joining the non-whitespace tokens gives the text with its whitespace
   * removed: no code unit is lost or reordered by the split.
   */
  lemma WordTokensJoin(s: JsString)
    ensures Concat(WordTokens(SplitOnWhitespace(s))) == RemoveSpaces(s)
  {
    SplitAlternates(s);
    SplitJoins(s);
    AlternatingWordsJoin(SplitOnWhitespace(s));
  }

  lemma {:induction false} AlternatingWordsJoin(ts: seq<JsString>)
    requires Alternating(ts)
    ensures Concat(WordTokens(ts)) == RemoveSpaces(Concat(ts))
    decreases |ts|
  {
    var a := ts[0];
    WhitespaceTokenAtOdd(ts, 0);
    RemoveSpacesOfNoSpace(a);
    if |ts| == 1 {
      assert ts == [a] && [a] + [] == [a];
      assert WordTokens([a]) == [a] + WordTokens([]);
      ConcatPairs([a], []);
      assert Concat([a]) == a + [] == a;
    } else {
      var b := ts[1];
      var tail := ts[2..];
      assert ts == [a, b] + tail;
      ConcatPairs([a, b], tail);
      AlternatingTail(ts);
      AlternatingWordsJoin(tail);
      WordTokensJoinTokens(a, b, tail);
      RemoveSpacesJoin(a, b, Concat(tail));
    }
  }

  lemma WordTokensJoinTokens(a: JsString, b: JsString, tail: seq<JsString>)
    requires !IsWhitespaceToken(a) && IsWhitespaceToken(b)
    ensures Concat(WordTokens([a, b] + tail)) == a + Concat(WordTokens(tail))
  {
    WordTokensCons(a, b, tail);
    ConcatAppend([a], WordTokens(tail));
    assert Concat([a]) == a + Concat([]);
  }

  lemma RemoveSpacesJoin(a: JsString, b: JsString, x: JsString)
    requires IsWhitespaceToken(b) && RemoveSpaces(a) == a
    ensures RemoveSpaces(a + (b + x)) == a + RemoveSpaces(x)
  {
    var rx := RemoveSpaces(x);
    assert RemoveSpaces(b + x) == rx by {
      RemoveSpacesOfAllSpace(b);
      RemoveSpacesAppend(b, x);
      assert [] + rx == rx;
    }
    RemoveSpacesAppend(a, b + x);
  }

  /** There are (n + 1) / 2 non-whitespace tokens among n alternating ones. */
  lemma {:induction false} WordTokensCount(ts: seq<JsString>)
    requires Alternating(ts)
    ensures |WordTokens(ts)| == (|ts| + 1) / 2
    ensures forall k :: 0 <= k < |WordTokens(ts)| ==> WordTokens(ts)[k] == ts[2 * k]
    decreases |ts|
  {
    WhitespaceTokenAtOdd(ts, 0);
    if |ts| == 1 {
      assert WordTokens(ts) == [ts[0]] + WordTokens([]);
    } else {
      var tail := ts[2..];
      assert Alternating(tail) by {
        assert forall i :: 0 <= i < |tail| ==> tail[i] == ts[i + 2];
      }
      WhitespaceTokenAtOdd(ts, 1);
      assert ts[1..][1..] == tail;
      assert WordTokens(ts) == [ts[0]] + WordTokens(tail);
      WordTokensCount(tail);
    }
  }
}
