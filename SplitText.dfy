/**
 * The text segmenter `SplitText` (src/utils/splitText.js): it reads an
 * element's text, splits it on whitespace runs, wraps every non-whitespace
 * token in a word span (and, in `chars` mode, every code unit of it in a
 * char span), writes the result into `innerHTML` and re-reads the spans.
 */
module SplitTextModel {
  import opened Wrappers
  import opened JsText
  import opened Tokenizer
  import opened Dom

  const DefaultType := "words"
  const DefaultWordsClass := "split-word"
  const DefaultCharsClass := "split-char"
  const DefaultLinesClass := "split-line"

  /** The merged options object `this.options`. */
  datatype Options = Options(splitType: string, wordsClass: string, charsClass: string, linesClass: string)

  /** The caller's `options` argument: each key present or absent. */
  datatype OptionOverrides = OptionOverrides(
    splitType: Option<string>, wordsClass: Option<string>,
    charsClass: Option<string>, linesClass: Option<string>)

  function OrDefault(o: Option<string>, d: string): string {
    if o.Some? then o.value else d
  }

  /** `{ type: 'words', wordsClass: 'split-word', …, ...options }`: a given key wins over its default. */
  function MergeOptions(o: OptionOverrides): (r: Options)
    ensures o.splitType.Some? ==> r.splitType == o.splitType.value
    ensures o.splitType.None? ==> r.splitType == DefaultType
    ensures o.wordsClass.Some? ==> r.wordsClass == o.wordsClass.value
    ensures o.wordsClass.None? ==> r.wordsClass == DefaultWordsClass
    ensures o.charsClass.Some? ==> r.charsClass == o.charsClass.value
    ensures o.charsClass.None? ==> r.charsClass == DefaultCharsClass
    ensures o.linesClass.Some? ==> r.linesClass == o.linesClass.value
    ensures o.linesClass.None? ==> r.linesClass == DefaultLinesClass
  {
    Options(OrDefault(o.splitType, DefaultType), OrDefault(o.wordsClass, DefaultWordsClass),
            OrDefault(o.charsClass, DefaultCharsClass), OrDefault(o.linesClass, DefaultLinesClass))
  }

  /** `split` only acts for `type === 'words'` and `type === 'chars'`; `'lines'` is accepted but does nothing. */
  predicate SplitsText(o: Options) {
    o.splitType == "words" || o.splitType == "chars"
  }

  /**
   * An entry of `this.words` or `this.chars`: the plain records pushed while
   * the markup is built, or a reference to a span found in the document.
   */
  datatype Item =
    | WordRecord(word: JsString, index: nat)
    | CharRecord(ch: CodeUnit, wordIndex: nat, charIndex: nat)
    | SpanRef(node: Node)

  /** `Array.from(nodeList)`. */
  function Refs(ns: seq<Node>): seq<Item> {
    seq(|ns|, i requires 0 <= i < |ns| => SpanRef(ns[i]))
  }

  /** The char spans of one word; the first carries `data-char="base"`. */
  function CharSpans(w: JsString, cc: string, base: nat): seq<Node> {
    seq(|w|, k requires 0 <= k < |w| => SpanNode(cc, DataChar(base + k), [TextNode([w[k]])]))
  }

  /**
   * The word span for token `index`. An empty word gives an empty span (no
   * text child); in `chars` mode the children are the char spans.
   */
  function WordSpan(w: JsString, index: nat, wc: string, cc: string, splitChars: bool, base: nat): Node {
    SpanNode(wc, DataWord(index),
             if splitChars then CharSpans(w, cc, base) else if w == [] then [] else [TextNode(w)])
  }

  /** What one token contributes to the markup: a whitespace run stays bare text. */
  function TokenNode(t: JsString, index: nat, wc: string, cc: string, splitChars: bool, base: nat): Node {
    if IsWhitespaceToken(t) then TextNode(t) else WordSpan(t, index, wc, cc, splitChars, base)
  }

  /** The number of code units in the non-whitespace tokens: the char spans they produce. */
  function CharCount(ts: seq<JsString>): nat {
    |Concat(WordTokens(ts))|
  }

  /**
   * The markup built by the token loop (src/utils/splitText.js:39-63) when
   * `this.chars` held `base` entries at the start.
   */
  function Build(ts: seq<JsString>, wc: string, cc: string, splitChars: bool, base: nat): seq<Node>
    decreases |ts|
  {
    if ts == [] then []
    else
      var n := |ts| - 1;
      Build(ts[..n], wc, cc, splitChars, base) + [TokenNode(ts[n], n, wc, cc, splitChars, base + CharCount(ts[..n]))]
  }

  /** The markup `splitWords` writes into the element for `text`. */
  function Markup(text: JsString, wc: string, cc: string, splitChars: bool, base: nat): seq<Node> {
    Build(SplitOnWhitespace(text), wc, cc, splitChars, base)
  }

  /** The records one word pushes onto `this.chars`. */
  function WordCharRecords(w: JsString, index: nat): seq<Item> {
    seq(|w|, k requires 0 <= k < |w| => CharRecord(w[k], index, k))
  }

  /** The word record token `index` pushes: none for a whitespace run. */
  function PushedWord(t: JsString, index: nat): seq<Item> {
    if IsWhitespaceToken(t) then [] else [WordRecord(t, index)]
  }

  /** The char records token `index` pushes in `chars` mode: none for a whitespace run. */
  function PushedChars(t: JsString, index: nat): seq<Item> {
    if IsWhitespaceToken(t) then [] else WordCharRecords(t, index)
  }

  /**
   * The records the token loop pushes onto `this.words`: one per
   * non-whitespace token, holding the token and its index.
   */
  function TokenWordRecords(ts: seq<JsString>): seq<Item>
    decreases |ts|
  {
    if ts == [] then []
    else
      var n := |ts| - 1;
      TokenWordRecords(ts[..n]) + PushedWord(ts[n], n)
  }

  /** The records the token loop pushes onto `this.chars` in `chars` mode. */
  function TokenCharRecords(ts: seq<JsString>): seq<Item>
    decreases |ts|
  {
    if ts == [] then []
    else
      var n := |ts| - 1;
      TokenCharRecords(ts[..n]) + PushedChars(ts[n], n)
  }

  lemma RecordsSnoc(ts: seq<JsString>, t: JsString)
    ensures TokenWordRecords(ts + [t]) == TokenWordRecords(ts) + PushedWord(t, |ts|)
    ensures TokenCharRecords(ts + [t]) == TokenCharRecords(ts) + PushedChars(t, |ts|)
  {
    assert (ts + [t])[..|ts|] == ts;
  }

  lemma WordRecordsStep(start: seq<Item>, done: seq<JsString>, t: JsString)
    ensures start + TokenWordRecords(done) + PushedWord(t, |done|)
         == start + TokenWordRecords(done + [t])
  {
    RecordsSnoc(done, t);
    AppendAssoc(start, TokenWordRecords(done), PushedWord(t, |done|));
  }

  lemma AppendAssoc<T>(a: seq<T>, b: seq<T>, c: seq<T>)
    ensures a + b + c == a + (b + c)
  {
  }

  lemma CharRecordsStep(start: seq<Item>, done: seq<JsString>, t: JsString)
    ensures start + TokenCharRecords(done) + PushedChars(t, |done|)
         == start + TokenCharRecords(done + [t])
  {
    RecordsSnoc(done, t);
    AppendAssoc(start, TokenCharRecords(done), PushedChars(t, |done|));
  }

  /**
   * The pushed records follow the words: one word record per
   * non-whitespace token, in order, and one char record per code unit of
   * those tokens, each holding that code unit.
   */
  lemma {:induction false} TokenRecordsFollowWords(ts: seq<JsString>)
    ensures var wr := TokenWordRecords(ts);
      && |wr| == |WordTokens(ts)|
      && forall k :: 0 <= k < |wr| ==> wr[k].WordRecord? && wr[k].word == WordTokens(ts)[k]
    ensures var cr := TokenCharRecords(ts);
      && |cr| == CharCount(ts)
      && forall k :: 0 <= k < |cr| ==> cr[k].CharRecord? && cr[k].ch == Concat(WordTokens(ts))[k]
    decreases |ts|
  {
    if ts != [] {
      var n := |ts| - 1;
      var p, t := ts[..n], ts[n];
      assert ts == p + [t];
      TokenRecordsFollowWords(p);
      RecordsSnoc(p, t);
      WordTokensSnoc(p, t);
      CharCountSnoc(p, t);
      var ws := if IsWhitespaceToken(t) then [] else [t];
      ConcatAppend(WordTokens(p), ws);
      assert Concat(ws) == if IsWhitespaceToken(t) then [] else t by {
        assert Concat([t]) == t + Concat([]);
      }
    }
  }

  /** A `dataset.originalText` value that `revert` accepts: present and not the empty string. */
  predicate Truthy(o: Option<JsString>) {
    o.Some? && o.value != []
  }

  lemma {:induction false} WordTokensSnoc(ts: seq<JsString>, t: JsString)
    ensures WordTokens(ts + [t]) == WordTokens(ts) + (if IsWhitespaceToken(t) then [] else [t])
  {
    if ts == [] {
      assert ts + [t] == [t];
      assert WordTokens([t]) == (if IsWhitespaceToken(t) then [] else [t]) + WordTokens([]);
    } else {
      assert (ts + [t])[0] == ts[0];
      assert (ts + [t])[1..] == ts[1..] + [t];
      WordTokensSnoc(ts[1..], t);
    }
  }

  lemma CharCountSnoc(ts: seq<JsString>, t: JsString)
    ensures CharCount(ts + [t]) == CharCount(ts) + (if IsWhitespaceToken(t) then 0 else |t|)
  {
    WordTokensSnoc(ts, t);
    ConcatAppend(WordTokens(ts), if IsWhitespaceToken(t) then [] else [t]);
    assert Concat([t]) == t + Concat([]);
  }

  lemma BuildSnoc(ts: seq<JsString>, t: JsString, wc: string, cc: string, splitChars: bool, base: nat)
    ensures Build(ts + [t], wc, cc, splitChars, base)
         == Build(ts, wc, cc, splitChars, base) + [TokenNode(t, |ts|, wc, cc, splitChars, base + CharCount(ts))]
  {
    assert (ts + [t])[..|ts|] == ts;
  }

  /**
   * What the token loop has produced after the tokens `done`, starting
   * from the word and char lists `w0` and `c0`: the markup of those tokens,
   * their word records, and in `chars` mode their char records.
   */
  ghost predicate Emitted(done: seq<JsString>, wc: string, cc: string, sc: bool,
                          w0: seq<Item>, c0: seq<Item>, html: seq<Node>, w: seq<Item>, c: seq<Item>)
  {
    && html == Build(done, wc, cc, sc, |c0|)
    && w == w0 + TokenWordRecords(done)
    && c == c0 + (if sc then TokenCharRecords(done) else [])
    && (sc ==> |c| == |c0| + CharCount(done))
  }

  /**
   * One turn of the token loop: emitting token `t` and pushing its records
   * extends what the tokens `done` produced to what `done + [t]` produces.
   */
  lemma EmitStep(done: seq<JsString>, t: JsString, wc: string, cc: string, sc: bool,
                 w0: seq<Item>, c0: seq<Item>, html: seq<Node>, w: seq<Item>, c: seq<Item>)
    requires Emitted(done, wc, cc, sc, w0, c0, html, w, c)
    ensures Emitted(done + [t], wc, cc, sc, w0, c0, html + [TokenNode(t, |done|, wc, cc, sc, |c|)],
                    w + PushedWord(t, |done|), if sc then c + PushedChars(t, |done|) else c)
  {
    var node := TokenNode(t, |done|, wc, cc, sc, |c|);
    assert node == TokenNode(t, |done|, wc, cc, sc, |c0| + CharCount(done));
    assert html + [node] == Build(done + [t], wc, cc, sc, |c0|) by {
      BuildSnoc(done, t, wc, cc, sc, |c0|);
    }
    assert w + PushedWord(t, |done|) == w0 + TokenWordRecords(done + [t]) by {
      WordRecordsStep(w0, done, t);
    }
    if sc {
      assert c + PushedChars(t, |done|) == c0 + TokenCharRecords(done + [t]) by {
        CharRecordsStep(c0, done, t);
      }
      assert |c + PushedChars(t, |done|)| == |c0| + CharCount(done + [t]) by {
        CharCountSnoc(done, t);
      }
    }
  }

  class SplitText {
    const element: Element?
    var options: Options
    var words: seq<Item>
    var chars: seq<Item>
    var lines: seq<Item>

    /**
     * `new SplitText(element, options)`: merges the options and splits at
     * once when there is an element (src/utils/splitText.js:7-24).
     */
    constructor (element: Element?, overrides: OptionOverrides)
      modifies element
      ensures this.element == element && options == MergeOptions(overrides) && lines == []
      ensures element != null ==> element.originalText == old(element.originalText)
      ensures element == null || !SplitsText(options) ==> words == [] && chars == []
      ensures element != null && !SplitsText(options) ==> element.children == old(element.children)
      ensures element != null && SplitsText(options) ==>
        && element.children == Markup(old(element.TextContent()), options.wordsClass, options.charsClass,
                                      options.splitType == "chars", 0)
        && words == Refs(element.QuerySelectorAll(options.wordsClass))
        && chars == (if options.splitType == "chars" then Refs(element.QuerySelectorAll(options.charsClass)) else [])
    {
      this.element := element;
      options := MergeOptions(overrides);
      words, chars, lines := [], [], [];
      new;
      if element != null {
        Split();
      }
    }

    /**
     * The constructor with `split` replaced by `SplitCapturing`, so that a
     * later `revert()` has the original text to restore.
     */
    constructor Capturing(element: Element?, overrides: OptionOverrides)
      modifies element
      ensures this.element == element && options == MergeOptions(overrides) && lines == []
      ensures element != null ==> element.originalText == Some(old(element.TextContent()))
      ensures element == null || !SplitsText(options) ==> words == [] && chars == []
      ensures element != null && !SplitsText(options) ==> element.children == old(element.children)
      ensures element != null && SplitsText(options) ==>
        && element.children == Markup(old(element.TextContent()), options.wordsClass, options.charsClass,
                                      options.splitType == "chars", 0)
        && words == Refs(element.QuerySelectorAll(options.wordsClass))
        && chars == (if options.splitType == "chars" then Refs(element.QuerySelectorAll(options.charsClass)) else [])
    {
      this.element := element;
      options := MergeOptions(overrides);
      words, chars, lines := [], [], [];
      new;
      if element != null {
        SplitCapturing();
      }
    }

    /** `split()`: segments the current text when the type is `words` or `chars` (src/utils/splitText.js:26-33). */
    method Split()
      requires element != null
      modifies this, element
      ensures options == old(options) && lines == old(lines)
      ensures element.originalText == old(element.originalText)
      ensures !SplitsText(options) ==>
        words == old(words) && chars == old(chars) && element.children == old(element.children)
      ensures SplitsText(options) ==>
        && element.children == Markup(old(element.TextContent()), options.wordsClass, options.charsClass,
                                      options.splitType == "chars", |old(chars)|)
        && words == Refs(element.QuerySelectorAll(options.wordsClass))
        && chars == (if options.splitType == "chars" then Refs(element.QuerySelectorAll(options.charsClass)) else old(chars))
    {
      var text := element.TextContent();
      if options.splitType == "words" || options.splitType == "chars" {
        SplitWords(text, options.wordsClass, options.charsClass, options.splitType == "chars");
      }
    }

    /**
     * `split()` as `revert()` expects it: it first records the current text
     * in `dataset.originalText`, then splits as `Split` does. The class as
     * written never stores that attribute (see `Revert`).
     */
    method SplitCapturing()
      requires element != null
      modifies this, element
      ensures options == old(options) && lines == old(lines)
      ensures element.originalText == Some(old(element.TextContent()))
      ensures !SplitsText(options) ==>
        words == old(words) && chars == old(chars) && element.children == old(element.children)
      ensures SplitsText(options) ==>
        && element.children == Markup(old(element.TextContent()), options.wordsClass, options.charsClass,
                                      options.splitType == "chars", |old(chars)|)
        && words == Refs(element.QuerySelectorAll(options.wordsClass))
        && chars == (if options.splitType == "chars" then Refs(element.QuerySelectorAll(options.charsClass)) else old(chars))
    {
      element.SetOriginalText(element.TextContent());
      Split();
    }

    /**
     * `splitWords(text, wordsClass, charsClass, splitChars)`
     * (src/utils/splitText.js:35-72). `data-char` numbering starts at the
     * number of entries `this.chars` already holds.
     */
    method SplitWords(text: JsString, wc: string, cc: string, splitChars: bool)
      requires element != null
      modifies this, element
      ensures options == old(options) && lines == old(lines)
      ensures element.originalText == old(element.originalText)
      ensures element.children == Markup(text, wc, cc, splitChars, |old(chars)|)
      ensures words == Refs(element.QuerySelectorAll(wc))
      ensures chars == if splitChars then Refs(element.QuerySelectorAll(cc)) else old(chars)
    {
      var tokens := SplitOnWhitespace(text);
      var html := EmitTokens(tokens, wc, cc, splitChars);
      Commit(html, wc, cc, splitChars);
    }

    /**
     * The `words.forEach` loop of `splitWords` (src/utils/splitText.js:39-63):
     * the markup of the tokens, in order, with `data-word` the token's index.
     */
    method EmitTokens(tokens: seq<JsString>, wc: string, cc: string, splitChars: bool) returns (html: seq<Node>)
      modifies this
      ensures html == Build(tokens, wc, cc, splitChars, |old(chars)|)
      ensures words == old(words) + TokenWordRecords(tokens)
      ensures chars == old(chars) + (if splitChars then TokenCharRecords(tokens) else [])
      ensures splitChars ==> |chars| == |old(chars)| + CharCount(tokens)
      ensures options == old(options) && lines == old(lines)
    {
      html := [];
      ghost var done: seq<JsString> := [];
      var wordIndex := 0;
      while wordIndex < |tokens|
        modifies this
        invariant 0 <= wordIndex <= |tokens| && done == tokens[..wordIndex]
        invariant Emitted(done, wc, cc, splitChars, old(words), old(chars), html, words, chars)
        invariant options == old(options) && lines == old(lines)
      {
        var word := tokens[wordIndex];
        EmitStep(done, word, wc, cc, splitChars, old(words), old(chars), html, words, chars);
        var node := EmitToken(word, wordIndex, wc, cc, splitChars);
        html := html + [node];
        done := done + [word];
        wordIndex := wordIndex + 1;
      }
      assert done == tokens;
    }

    /**
     * Writes the markup into the element and caches the spans found there
     * (src/utils/splitText.js:65-71).
     */
    method Commit(html: seq<Node>, wc: string, cc: string, splitChars: bool)
      requires element != null
      modifies this, element
      ensures element.children == html
      ensures element.originalText == old(element.originalText)
      ensures words == Refs(Select(html, wc))
      ensures chars == if splitChars then Refs(Select(html, cc)) else old(chars)
      ensures options == old(options) && lines == old(lines)
    {
      element.SetInnerHtml(html);
      words := Refs(element.QuerySelectorAll(wc));
      if splitChars {
        chars := Refs(element.QuerySelectorAll(cc));
      }
    }

    /**
     * The `words.forEach` callback of `splitWords` for one token
     * (src/utils/splitText.js:39-63): a whitespace run is emitted as bare
     * text; any other token becomes a word span and pushes a word record.
     */
    method EmitToken(word: JsString, wordIndex: nat, wc: string, cc: string, splitChars: bool) returns (node: Node)
      modifies this
      ensures node == TokenNode(word, wordIndex, wc, cc, splitChars, |old(chars)|)
      ensures words == old(words) + PushedWord(word, wordIndex)
      ensures splitChars ==> chars == old(chars) + PushedChars(word, wordIndex)
      ensures !splitChars ==> chars == old(chars)
      ensures options == old(options) && lines == old(lines)
    {
      if IsWhitespaceToken(word) {
        node := TextNode(word);
        return;
      }
      if splitChars {
        var wordHtml := WrapChars(word, wordIndex, cc);
        node := SpanNode(wc, DataWord(wordIndex), wordHtml);
      } else {
        node := SpanNode(wc, DataWord(wordIndex), if word == [] then [] else [TextNode(word)]);
      }
      words := words + [WordRecord(word, wordIndex)];
    }

    /**
     * The inner `chars.forEach` of `splitWords` (src/utils/splitText.js:46-55):
     * one char span per code unit, each numbered by the current length of
     * `this.chars`, and one record pushed per code unit.
     */
    method WrapChars(word: JsString, wordIndex: nat, cc: string) returns (wordHtml: seq<Node>)
      modifies this
      ensures wordHtml == CharSpans(word, cc, |old(chars)|)
      ensures chars == old(chars) + WordCharRecords(word, wordIndex)
      ensures words == old(words) && options == old(options) && lines == old(lines)
    {
      wordHtml := [];
      ghost var start := |chars|;
      var charIndex := 0;
      while charIndex < |word|
        modifies this
        invariant 0 <= charIndex <= |word|
        invariant wordHtml == CharSpans(word[..charIndex], cc, start)
        invariant chars == old(chars) + WordCharRecords(word[..charIndex], wordIndex)
        invariant |chars| == start + charIndex
        invariant words == old(words) && options == old(options) && lines == old(lines)
      {
        wordHtml := wordHtml + [SpanNode(cc, DataChar(|chars|), [TextNode([word[charIndex]])])];
        chars := chars + [CharRecord(word[charIndex], wordIndex, charIndex)];
        charIndex := charIndex + 1;
      }
      assert word[..|word|] == word;
    }

    /**
     * `revert()`: restores `dataset.originalText` as the text, and only when
     * that attribute is present and non-empty (src/utils/splitText.js:74-78).
     */
    method Revert()
      modifies element
      ensures element != null ==> element.originalText == old(element.originalText)
      ensures element != null && Truthy(old(element.originalText)) ==>
        element.children == [TextNode(old(element.originalText).value)]
      ensures element != null && !Truthy(old(element.originalText)) ==>
        element.children == old(element.children)
    {
      if element != null && element.originalText.Some? && element.originalText.value != [] {
        element.SetTextContent(element.originalText.value);
      }
    }
  }
}
