/**
 * What the markup produced by `SplitText` looks like, proved about the
 * specification functions of `SplitTextModel`.
 */
module SplitTextProps {
  import opened JsText
  import opened Tokenizer
  import opened Dom
  import opened SplitTextModel

  lemma {:induction false} BuildShape(ts: seq<JsString>, wc: string, cc: string, sc: bool, base: nat)
    ensures |Build(ts, wc, cc, sc, base)| == |ts|
    ensures forall i :: 0 <= i < |ts| ==>
      Build(ts, wc, cc, sc, base)[i] == TokenNode(ts[i], i, wc, cc, sc, base + CharCount(ts[..i]))
    decreases |ts|
  {
    if ts != [] {
      BuildShape(ts[..|ts| - 1], wc, cc, sc, base);
      BuildShapeStep(ts, wc, cc, sc, base);
    }
  }

  lemma BuildShapeStep(ts: seq<JsString>, wc: string, cc: string, sc: bool, base: nat)
    requires ts != []
    requires var p := ts[..|ts| - 1];
      && |Build(p, wc, cc, sc, base)| == |p|
      && forall i :: 0 <= i < |p| ==>
           Build(p, wc, cc, sc, base)[i] == TokenNode(p[i], i, wc, cc, sc, base + CharCount(p[..i]))
    ensures |Build(ts, wc, cc, sc, base)| == |ts|
    ensures forall i :: 0 <= i < |ts| ==>
      Build(ts, wc, cc, sc, base)[i] == TokenNode(ts[i], i, wc, cc, sc, base + CharCount(ts[..i]))
  {
    var n := |ts| - 1;
    var p := ts[..n];
    var m := Build(ts, wc, cc, sc, base);
    assert m == Build(p, wc, cc, sc, base) + [TokenNode(ts[n], n, wc, cc, sc, base + CharCount(p))];
    forall i | 0 <= i < |ts|
      ensures m[i] == TokenNode(ts[i], i, wc, cc, sc, base + CharCount(ts[..i]))
    {
      if i < n {
        PrefixOfPrefix(ts, n, i);
      }
    }
  }

  lemma PrefixOfPrefix(ts: seq<JsString>, n: nat, i: nat)
    requires i < n <= |ts|
    ensures ts[..n][..i] == ts[..i] && ts[..n][i] == ts[i]
  {
  }

  /**
   * The markup built from alternating tokens has one node per token: token
   * i, when it is a whitespace run (odd i), is bare text; otherwise it is a
   * word span whose `data-word` is i. In `chars` mode its children are the
   * char spans of the token, numbered on from the code units of the tokens
   * before it.
   */
  lemma BuildShapeAlternating(ts: seq<JsString>, wc: string, cc: string, sc: bool, base: nat)
    requires Alternating(ts)
    ensures var m := Build(ts, wc, cc, sc, base);
      && |m| == |ts|
      && (forall i :: 0 <= i < |ts| && i % 2 == 1 ==> m[i] == TextNode(ts[i]) && IsWhitespaceToken(ts[i]))
      && (forall i :: 0 <= i < |ts| && i % 2 == 0 ==>
            && m[i] == WordSpan(ts[i], i, wc, cc, sc, base + CharCount(ts[..i]))
            && TextOf(m[i].kids) == ts[i]
            && NoSpace(ts[i]))
  {
    var m := Build(ts, wc, cc, sc, base);
    BuildShape(ts, wc, cc, sc, base);
    forall i | 0 <= i < |ts| && i % 2 == 1
      ensures m[i] == TextNode(ts[i]) && IsWhitespaceToken(ts[i])
    {
      WhitespaceTokenAtOdd(ts, i);
    }
    forall i | 0 <= i < |ts| && i % 2 == 0
      ensures m[i] == WordSpan(ts[i], i, wc, cc, sc, base + CharCount(ts[..i]))
      ensures TextOf(m[i].kids) == ts[i] && NoSpace(ts[i])
    {
      WhitespaceTokenAtOdd(ts, i);
      WordSpanText(ts[i], i, wc, cc, sc, base + CharCount(ts[..i]));
    }
  }

  lemma Even(k: nat)
    ensures (2 * k) % 2 == 0
  {
  }

  /** Token i, at an even index, becomes a word span with `data-word` i and the token as its text. */
  lemma WordTokenAt(ts: seq<JsString>, i: nat, wc: string, cc: string, sc: bool, base: nat)
    requires Alternating(ts) && i < |ts| && i % 2 == 0
    ensures var m := Build(ts, wc, cc, sc, base);
      && |m| == |ts|
      && m[i].SpanNode? && m[i].cls == wc && m[i].attr == DataWord(i)
      && TextOf(m[i].kids) == ts[i] && NoSpace(ts[i])
  {
    BuildShape(ts, wc, cc, sc, base);
    WhitespaceTokenAtOdd(ts, i);
    WordSpanText(ts[i], i, wc, cc, sc, base + CharCount(ts[..i]));
  }

  /**
   * The markup of a text has one node per token: whitespace runs (odd
   * indices) stay bare text and are never wrapped; every other token i is a
   * word span with `data-word` i, the token's index in the token list,
   * whitespace tokens included, and the token as its text.
   */
  lemma MarkupShape(text: JsString, wc: string, cc: string, sc: bool, base: nat)
    ensures var ts := SplitOnWhitespace(text);
      var m := Markup(text, wc, cc, sc, base);
      && |m| == |ts|
      && (forall i :: 0 <= i < |ts| && i % 2 == 1 ==> m[i] == TextNode(ts[i]) && IsWhitespaceToken(ts[i]))
      && (forall i :: 0 <= i < |ts| && i % 2 == 0 ==>
            && m[i].SpanNode? && m[i].cls == wc && m[i].attr == DataWord(i)
            && TextOf(m[i].kids) == ts[i] && NoSpace(ts[i]))
  {
    SplitAlternates(text);
    BuildShapeAlternating(SplitOnWhitespace(text), wc, cc, sc, base);
  }

  lemma {:induction false} CharSpansText(w: JsString, cc: string, base: nat)
    ensures TextOf(CharSpans(w, cc, base)) == w
    decreases |w|
  {
    var cs := CharSpans(w, cc, base);
    if w != [] {
      assert cs[1..] == CharSpans(w[1..], cc, base + 1);
      CharSpansText(w[1..], cc, base + 1);
      assert TextOf(cs[0].kids) == [w[0]] + TextOf([]);
      assert w == [w[0]] + w[1..];
    }
  }

  lemma WordSpanText(w: JsString, index: nat, wc: string, cc: string, sc: bool, base: nat)
    ensures TextOf(WordSpan(w, index, wc, cc, sc, base).kids) == w
  {
    if sc {
      CharSpansText(w, cc, base);
    } else if w != [] {
      assert TextOf([TextNode(w)]) == w + TextOf([]);
    }
  }

  lemma {:induction false} BuildText(ts: seq<JsString>, wc: string, cc: string, sc: bool, base: nat)
    ensures TextOf(Build(ts, wc, cc, sc, base)) == Concat(ts)
    decreases |ts|
  {
    if ts != [] {
      var n := |ts| - 1;
      BuildText(ts[..n], wc, cc, sc, base);
      BuildTextSnoc(ts[..n], ts[n], wc, cc, sc, base);
      assert ts == ts[..n] + [ts[n]];
    }
  }

  lemma BuildTextSnoc(p: seq<JsString>, t: JsString, wc: string, cc: string, sc: bool, base: nat)
    requires TextOf(Build(p, wc, cc, sc, base)) == Concat(p)
    ensures TextOf(Build(p + [t], wc, cc, sc, base)) == Concat(p + [t])
  {
    var node := TokenNode(t, |p|, wc, cc, sc, base + CharCount(p));
    BuildSnoc(p, t, wc, cc, sc, base);
    TextOfAppend(Build(p, wc, cc, sc, base), [node]);
    TokenNodeText(t, |p|, wc, cc, sc, base + CharCount(p));
    ConcatSnoc(p, t);
  }

  lemma TokenNodeText(t: JsString, index: nat, wc: string, cc: string, sc: bool, base: nat)
    ensures TextOf([TokenNode(t, index, wc, cc, sc, base)]) == t
  {
    var node := TokenNode(t, index, wc, cc, sc, base);
    assert [node][1..] == [];
    if !IsWhitespaceToken(t) {
      WordSpanText(t, index, wc, cc, sc, base);
    }
    assert TextOf([node]) == (if node.TextNode? then t else TextOf(node.kids)) + [];
  }

  /**
   * The text of the generated markup, read in document order (span
   * contents and bare whitespace), is the original text.
   */
  lemma MarkupText(text: JsString, wc: string, cc: string, sc: bool, base: nat)
    ensures TextOf(Markup(text, wc, cc, sc, base)) == text
  {
    BuildText(SplitOnWhitespace(text), wc, cc, sc, base);
    SplitJoins(text);
  }

  lemma {:induction false} SelectCharSpans(w: JsString, cc: string, base: nat, c: string)
    ensures Select(CharSpans(w, cc, base), c) == if c == cc then CharSpans(w, cc, base) else []
    decreases |w|
  {
    var cs := CharSpans(w, cc, base);
    if w != [] {
      var rest := CharSpans(w[1..], cc, base + 1);
      assert cs == [cs[0]] + rest;
      SelectCharSpans(w[1..], cc, base + 1, c);
      assert Select([cs[0]], c) == (if c == cc then [cs[0]] else []) by {
        assert Select(cs[0].kids, c) == [] by {
          assert cs[0].kids == [TextNode([w[0]])];
        }
      }
      SelectAppend([cs[0]], rest, c);
    }
  }

  /** A word span holds no span of its own class. */
  lemma WordSpanKidsNotSelected(w: JsString, index: nat, wc: string, cc: string, sc: bool, base: nat)
    requires wc != cc || !sc
    ensures Select(WordSpan(w, index, wc, cc, sc, base).kids, wc) == []
  {
    if sc {
      SelectCharSpans(w, cc, base, wc);
    } else if w != [] {
      assert Select([TextNode(w)], wc) == [] + Select([], wc);
    }
  }

  /**
   * `querySelectorAll` over siblings that alternate span, text, span, …,
   * where no span holds a match of its own: the k-th match is node 2k.
   */
  lemma {:induction false} SelectAlternating(m: seq<Node>, c: string)
    requires |m| % 2 == 1
    requires forall i :: 0 <= i < |m| && i % 2 == 0 ==> m[i].SpanNode? && m[i].cls == c && Select(m[i].kids, c) == []
    requires forall i :: 0 <= i < |m| && i % 2 == 1 ==> m[i].TextNode?
    ensures |Select(m, c)| == (|m| + 1) / 2
    ensures forall k :: 0 <= k < |Select(m, c)| ==> Select(m, c)[k] == m[2 * k]
    decreases |m|
  {
    var all := Select(m, c);
    assert all == [m[0]] + Select(m[1..], c);
    if |m| > 1 {
      var rest := m[2..];
      assert m[1..][1..] == rest;
      assert Select(m[1..], c) == Select(rest, c);
      forall i | 0 <= i < |rest|
        ensures rest[i] == m[i + 2] && (i + 2) % 2 == i % 2
      {
        ParityShift(i);
      }
      SelectAlternating(rest, c);
      var tail := Select(rest, c);
      forall k | 0 <= k < |all|
        ensures all[k] == m[2 * k]
      {
        if k > 0 {
          assert all[k] == tail[k - 1] == rest[2 * (k - 1)];
        }
      }
    }
  }

  lemma ParityShift(i: int)
    ensures (i + 2) % 2 == i % 2
  {
  }

  lemma BuildWordSpans(ts: seq<JsString>, wc: string, cc: string, sc: bool, base: nat)
    requires (wc != cc || !sc) && Alternating(ts)
    ensures var m := Build(ts, wc, cc, sc, base);
      var ws := Select(m, wc);
      && |m| == |ts|
      && |ws| == (|ts| + 1) / 2
      && (forall k :: 0 <= k < |ws| ==> ws[k] == m[2 * k])
  {
    var m := Build(ts, wc, cc, sc, base);
    BuildShapeAlternating(ts, wc, cc, sc, base);
    forall i | 0 <= i < |m| && i % 2 == 0
      ensures m[i].SpanNode? && m[i].cls == wc && Select(m[i].kids, wc) == []
    {
      WordSpanKidsNotSelected(ts[i], i, wc, cc, sc, base + CharCount(ts[..i]));
    }
    SelectAlternating(m, wc);
  }

  /**
   * The word spans `querySelectorAll('.' + wordsClass)` finds in markup
   * built from alternating tokens: one per non-whitespace token, the k-th
   * being the span of token 2k.
   */
  lemma BuildWordSpanList(ts: seq<JsString>, wc: string, cc: string, sc: bool, base: nat)
    requires (wc != cc || !sc) && Alternating(ts)
    ensures var ws := Select(Build(ts, wc, cc, sc, base), wc);
      && |ws| == (|ts| + 1) / 2 == |WordTokens(ts)|
      && (forall k :: 0 <= k < |ws| ==>
            && ws[k].SpanNode? && ws[k].cls == wc && ws[k].attr == DataWord(2 * k)
            && TextOf(ws[k].kids) == WordTokens(ts)[k]
            && NoSpace(TextOf(ws[k].kids)))
  {
    var m := Build(ts, wc, cc, sc, base);
    var ws := Select(m, wc);
    BuildWordSpans(ts, wc, cc, sc, base);
    WordTokensCount(ts);
    forall k | 0 <= k < |ws|
      ensures ws[k].SpanNode? && ws[k].cls == wc && ws[k].attr == DataWord(2 * k)
      ensures TextOf(ws[k].kids) == WordTokens(ts)[k] && NoSpace(TextOf(ws[k].kids))
    {
      Even(k);
      WordTokenAt(ts, 2 * k, wc, cc, sc, base);
      assert ws[k] == m[2 * k];
      assert WordTokens(ts)[k] == ts[2 * k];
    }
  }

  /**
   * The word spans of the markup of a text: one per non-whitespace token,
   * (n + 1) / 2 of them for n tokens, empty tokens included; the k-th
   * carries `data-word` 2k (not k) and the k-th non-whitespace token as its
   * text, which holds no whitespace.
   */
  lemma WordSpansOfMarkup(text: JsString, wc: string, cc: string, sc: bool, base: nat)
    requires wc != cc || !sc
    ensures var ts := SplitOnWhitespace(text);
      var ws := Select(Markup(text, wc, cc, sc, base), wc);
      && |ws| == |WordTokens(ts)|
      && (forall k :: 0 <= k < |ws| ==>
            && ws[k].SpanNode? && ws[k].cls == wc && ws[k].attr == DataWord(2 * k)
            && TextOf(ws[k].kids) == WordTokens(ts)[k]
            && NoSpace(TextOf(ws[k].kids)))
  {
    SplitAlternates(text);
    BuildWordSpanList(SplitOnWhitespace(text), wc, cc, sc, base);
  }

  lemma CharSpansAppend(a: JsString, b: JsString, cc: string, base: nat)
    ensures CharSpans(a + b, cc, base) == CharSpans(a, cc, base) + CharSpans(b, cc, base + |a|)
  {
    assert forall k :: |a| <= k < |a| + |b| ==> (a + b)[k] == b[k - |a|];
  }

  lemma {:induction false} BuildCharSpans(ts: seq<JsString>, wc: string, cc: string, base: nat)
    requires wc != cc
    ensures Select(Build(ts, wc, cc, true, base), cc) == CharSpans(Concat(WordTokens(ts)), cc, base)
    decreases |ts|
  {
    if ts == [] {
      assert CharSpans([], cc, base) == [];
    } else {
      var n := |ts| - 1;
      BuildCharSpans(ts[..n], wc, cc, base);
      BuildCharSpansSnoc(ts[..n], ts[n], wc, cc, base);
      assert ts == ts[..n] + [ts[n]];
    }
  }

  lemma BuildCharSpansSnoc(p: seq<JsString>, t: JsString, wc: string, cc: string, base: nat)
    requires wc != cc
    requires Select(Build(p, wc, cc, true, base), cc) == CharSpans(Concat(WordTokens(p)), cc, base)
    ensures Select(Build(p + [t], wc, cc, true, base), cc) == CharSpans(Concat(WordTokens(p + [t])), cc, base)
  {
    var u := Concat(WordTokens(p));
    var x := if IsWhitespaceToken(t) then [] else t;
    var node := TokenNode(t, |p|, wc, cc, true, base + |u|);
    assert Select(Build(p + [t], wc, cc, true, base), cc) == Select(Build(p, wc, cc, true, base), cc) + Select([node], cc) by {
      BuildSnoc(p, t, wc, cc, true, base);
      SelectAppend(Build(p, wc, cc, true, base), [node], cc);
    }
    SelectTokenNode(t, |p|, wc, cc, base + |u|);
    assert Concat(WordTokens(p + [t])) == u + x by {
      WordTokensSnoc(p, t);
      if IsWhitespaceToken(t) {
        assert WordTokens(p + [t]) == WordTokens(p);
        assert u + x == u;
      } else {
        ConcatSnoc(WordTokens(p), t);
      }
    }
    CharSpansAppend(u, x, cc, base);
  }

  /** In `chars` mode the char spans of one token's node: none for whitespace. */
  lemma SelectTokenNode(t: JsString, i: nat, wc: string, cc: string, b: nat)
    requires wc != cc
    ensures Select([TokenNode(t, i, wc, cc, true, b)], cc) == CharSpans(if IsWhitespaceToken(t) then [] else t, cc, b)
  {
    var node := TokenNode(t, i, wc, cc, true, b);
    assert [node][1..] == [];
    if IsWhitespaceToken(t) {
      assert Select([node], cc) == [];
      assert CharSpans([], cc, b) == [];
    } else {
      assert node == SpanNode(wc, DataWord(i), CharSpans(t, cc, b));
      SelectSingleSpan(node, cc);
      SelectCharSpans(t, cc, b, cc);
    }
  }

  lemma SelectSingleSpan(n: Node, c: string)
    requires n.SpanNode? && n.cls != c
    ensures Select([n], c) == Select(n.kids, c)
  {
    assert [n][1..] == [];
  }

  lemma ConcatSnoc(words: seq<JsString>, t: JsString)
    ensures Concat(words + [t]) == Concat(words) + t
  {
    ConcatAppend(words, [t]);
    assert Concat([t]) == t + Concat([]);
  }

  /**
   * In `chars` mode the char spans found by `querySelectorAll('.' + charsClass)`
   * are numbered `base`, `base + 1`, … with no gap, in reading order, and
   * hold the non-whitespace code units of the text, one each.
   */
  lemma CharSpansOfMarkup(text: JsString, wc: string, cc: string, base: nat)
    requires wc != cc
    ensures var cs := Select(Markup(text, wc, cc, true, base), cc);
      var units := RemoveSpaces(text);
      && cs == CharSpans(units, cc, base)
      && |cs| == |units|
      && (forall k :: 0 <= k < |cs| ==> cs[k].attr == DataChar(base + k) && cs[k].kids == [TextNode([units[k]])])
  {
    var units := RemoveSpaces(text);
    assert Select(Markup(text, wc, cc, true, base), cc) == CharSpans(units, cc, base) by {
      BuildCharSpans(SplitOnWhitespace(text), wc, cc, base);
      WordTokensJoin(text);
    }
    CharSpansIndexed(units, cc, base);
  }

  lemma CharSpansIndexed(w: JsString, cc: string, base: nat)
    ensures var cs := CharSpans(w, cc, base);
      && |cs| == |w|
      && forall k :: 0 <= k < |cs| ==> cs[k].attr == DataChar(base + k) && cs[k].kids == [TextNode([w[k]])]
  {
  }

  lemma {:induction false} BuildNoCharSpans(ts: seq<JsString>, wc: string, cc: string, base: nat)
    requires wc != cc
    ensures Select(Build(ts, wc, cc, false, base), cc) == []
    decreases |ts|
  {
    if ts != [] {
      var n := |ts| - 1;
      var node := TokenNode(ts[n], n, wc, cc, false, base + CharCount(ts[..n]));
      BuildNoCharSpans(ts[..n], wc, cc, base);
      SelectAppend(Build(ts[..n], wc, cc, false, base), [node], cc);
      if ts[n] != [] {
        assert Select([TextNode(ts[n])], cc) == [] + Select([], cc);
      }
      assert Select([node], cc) == [] + Select([], cc);
    }
  }

  /** In `words` mode the markup holds no char span at all. */
  lemma WordsModeHasNoCharSpans(text: JsString, wc: string, cc: string, base: nat)
    requires wc != cc
    ensures Select(Markup(text, wc, cc, false, base), cc) == []
  {
    BuildNoCharSpans(SplitOnWhitespace(text), wc, cc, base);
  }

  /** Empty text still yields one word span, with no content. */
  lemma EmptyTextMarkup(wc: string, cc: string, sc: bool, base: nat)
    ensures Markup([], wc, cc, sc, base) == [SpanNode(wc, DataWord(0), [])]
  {
    assert SplitOnWhitespace([]) == [[]];
    assert CharSpans([], cc, base) == [];
    assert Build([[]], wc, cc, sc, base) == Build([], wc, cc, sc, base) + [TokenNode([], 0, wc, cc, sc, base + CharCount([]))];
  }

  /** An empty token becomes a word span with nothing inside. */
  lemma BuildEmptyToken(ts: seq<JsString>, i: nat, wc: string, cc: string, sc: bool, base: nat)
    requires i < |ts| && ts[i] == []
    ensures |Build(ts, wc, cc, sc, base)| == |ts|
    ensures Build(ts, wc, cc, sc, base)[i] == SpanNode(wc, DataWord(i), [])
  {
    BuildShape(ts, wc, cc, sc, base);
    assert CharSpans([], cc, base + CharCount(ts[..i])) == [];
  }

  /** Text that starts with whitespace begins with an empty word span. */
  lemma LeadingSpaceGivesEmptyWord(text: JsString, wc: string, cc: string, sc: bool, base: nat)
    requires |text| > 0 && IsSpace(text[0])
    ensures SplitOnWhitespace(text)[0] == []
    ensures Markup(text, wc, cc, sc, base)[0] == SpanNode(wc, DataWord(0), [])
  {
    var ts := SplitOnWhitespace(text);
    assert LeadLen(text, false) == 0;
    BuildEmptyToken(ts, 0, wc, cc, sc, base);
  }

  /** Text that ends with whitespace ends with an empty word span. */
  lemma TrailingSpaceGivesEmptyWord(text: JsString, wc: string, cc: string, sc: bool, base: nat)
    requires |text| > 0 && IsSpace(text[|text| - 1])
    ensures var ts := SplitOnWhitespace(text);
      && ts[|ts| - 1] == []
      && |Markup(text, wc, cc, sc, base)| == |ts|
      && Markup(text, wc, cc, sc, base)[|ts| - 1] == SpanNode(wc, DataWord(|ts| - 1), [])
  {
    var ts := SplitOnWhitespace(text);
    var n := |ts| - 1;
    var p := ts[..n];
    var w := ts[n];
    assert ts == p + [w];
    assert NoSpace(w) by {
      SplitAlternates(text);
      assert n % 2 == 0;
    }
    assert text == Concat(p) + w by {
      SplitJoins(text);
      ConcatSnoc(p, w);
    }
    EndsInSpace(Concat(p), w);
    BuildEmptyToken(ts, n, wc, cc, sc, base);
  }

  lemma EndsInSpace(a: JsString, w: JsString)
    requires NoSpace(w) && |a + w| > 0 && IsSpace((a + w)[|a + w| - 1])
    ensures w == []
  {
  }

  lemma {:induction false} BuildWordsBaseFree(ts: seq<JsString>, wc: string, cc: string, b1: nat, b2: nat)
    ensures Build(ts, wc, cc, false, b1) == Build(ts, wc, cc, false, b2)
    decreases |ts|
  {
    if ts != [] {
      BuildWordsBaseFree(ts[..|ts| - 1], wc, cc, b1, b2);
    }
  }

  /**
   * Splitting again in `words` mode rebuilds the same markup from the
   * element's `textContent`: it does not wrap the spans a second time.
   */
  lemma ResplitWordsIsStable(text: JsString, wc: string, cc: string, b1: nat, b2: nat)
    ensures Markup(TextOf(Markup(text, wc, cc, false, b1)), wc, cc, false, b2) == Markup(text, wc, cc, false, b1)
  {
    MarkupText(text, wc, cc, false, b1);
    BuildWordsBaseFree(SplitOnWhitespace(text), wc, cc, b2, b1);
  }

  /** Two words around one whitespace run split into exactly those three tokens. */
  lemma TwoWordsSplit(a: JsString, sp: JsString, b: JsString)
    requires NoSpace(a) && IsWhitespaceToken(sp) && NoSpace(b)
    ensures SplitOnWhitespace(a + (sp + b)) == [a, sp, b]
  {
    assert b == [] || !IsSpace(b[0]);
    SplitStep(a + (sp + b), a, sp, b);
    assert SplitOnWhitespace(b) == [b] by {
      assert b + [] == b;
      LeadLenStops(b, [], false);
    }
  }

  /**
   * The word spans of two words around one whitespace run: the first with
   * `data-word` 0, the second with `data-word` 2, the index counting the
   * whitespace token between them.
   */
  lemma TwoWordSpans(a: JsString, sp: JsString, b: JsString, wc: string, cc: string, sc: bool)
    requires NoSpace(a) && IsWhitespaceToken(sp) && NoSpace(b) && (wc != cc || !sc)
    ensures var ws := Select(Markup(a + (sp + b), wc, cc, sc, 0), wc);
      && |ws| == 2 && ws[0].SpanNode? && ws[1].SpanNode?
      && ws[0].attr == DataWord(0) && TextOf(ws[0].kids) == a
      && ws[1].attr == DataWord(2) && TextOf(ws[1].kids) == b
  {
    var ts := [a, sp, b];
    assert SplitOnWhitespace(a + (sp + b)) == ts by {
      TwoWordsSplit(a, sp, b);
    }
    assert WordTokens(ts) == [a, b] by {
      assert !IsWhitespaceToken(a) by { if |a| > 0 { assert !IsSpace(a[0]); } }
      assert !IsWhitespaceToken(b) by { if |b| > 0 { assert !IsSpace(b[0]); } }
      assert ts == [a, sp] + [b];
      WordTokensCons(a, sp, [b]);
      assert [b][1..] == [];
    }
    WordSpansOfMarkup(a + (sp + b), wc, cc, sc, 0);
  }
}
