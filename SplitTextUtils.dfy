/**
 * The helpers exported next to `SplitText` (src/utils/splitText.js:81-91)
 * and the way the blur-reveal component drives it
 * (src/components/BlurText/BlurText.jsx:39-45, 74-76).
 */
module SplitTextUtils {
  import opened Wrappers
  import opened JsText
  import opened Tokenizer
  import opened Dom
  import opened SplitTextModel
  import opened SplitTextProps

  /**
   * `splitIntoWords(element, className)`: the word spans, one per
   * non-whitespace token, the k-th numbered 2k and holding the k-th word.
   */
  method SplitIntoWords(element: Element?, className: string) returns (ws: seq<Item>)
    modifies element
    ensures element == null ==> ws == []
    ensures element != null ==>
      && element.children == Markup(old(element.TextContent()), className, DefaultCharsClass, false, 0)
      && ws == Refs(element.QuerySelectorAll(className))
    ensures element != null ==>
      var words := WordTokens(SplitOnWhitespace(old(element.TextContent())));
      && |ws| == |words|
      && forall k :: 0 <= k < |ws| ==>
           && ws[k].SpanRef? && ws[k].node.SpanNode?
           && ws[k].node.attr == DataWord(2 * k)
           && TextOf(ws[k].node.kids) == words[k]
  {
    ghost var text := if element == null then [] else element.TextContent();
    var splitter := new SplitText(element, OptionOverrides(Some("words"), Some(className), None, None));
    ws := splitter.words;
    if element != null {
      WordSpansOfMarkup(text, className, DefaultCharsClass, false, 0);
    }
  }

  /**
   * `splitIntoChars(element, className)`: one char span per non-whitespace
   * code unit of the text, in order, numbered from 0.
   */
  method SplitIntoChars(element: Element?, className: string) returns (cs: seq<Item>)
    modifies element
    ensures element == null ==> cs == []
    ensures element != null ==>
      && element.children == Markup(old(element.TextContent()), DefaultWordsClass, className, true, 0)
      && cs == Refs(element.QuerySelectorAll(className))
    ensures element != null && className != DefaultWordsClass ==>
      && cs == Refs(CharSpans(RemoveSpaces(old(element.TextContent())), className, 0))
      && |cs| == |RemoveSpaces(old(element.TextContent()))|
  {
    ghost var text := if element == null then [] else element.TextContent();
    var splitter := new SplitText(element, OptionOverrides(Some("chars"), None, Some(className), None));
    cs := splitter.chars;
    if element != null && className != DefaultWordsClass {
      CharSpansOfMarkup(text, DefaultWordsClass, className, 0);
    }
  }

  /**
   * The blur-reveal component's use of the segmenter: split with its own
   * class names, hand the spans to the animation, and call `revert()` in
   * the cleanup. The paragraph it renders carries no `data-original-text`,
   * so the cleanup leaves the spans in place; the text itself is kept.
   */
  method BlurTextSplitAndCleanup(element: Element, animateBy: string) returns (animated: seq<Item>)
    modifies element
    ensures element.originalText == old(element.originalText)
    ensures element.TextContent() == old(element.TextContent()) || Truthy(old(element.originalText))
    ensures !Truthy(old(element.originalText)) && (animateBy == "words" || animateBy == "chars") ==>
      element.children == Markup(old(element.TextContent()), "blur-word", "blur-char", animateBy == "chars", 0)
    ensures Truthy(old(element.originalText)) ==> element.children == [TextNode(old(element.originalText).value)]
  {
    ghost var text := element.TextContent();
    var splitter := new SplitText(element, OptionOverrides(Some(animateBy), Some("blur-word"), Some("blur-char"), None));
    animated := if animateBy == "words" then splitter.words else splitter.chars;
    splitter.Revert();
    MarkupText(text, "blur-word", "blur-char", animateBy == "chars", 0);
  }

  /**
   * Split with `SplitText.Capturing`, then `revert()`: the element is back
   * to its text, as one text node, and its `textContent` is what it was.
   */
  method CapturedSplitThenRevert(element: Element, overrides: OptionOverrides)
    modifies element
    ensures element.TextContent() == old(element.TextContent())
    ensures old(element.TextContent()) != [] ==> element.children == [TextNode(old(element.TextContent()))]
  {
    ghost var text := element.TextContent();
    var splitter := new SplitText.Capturing(element, overrides);
    splitter.Revert();
    if text != [] {
      assert TextOf([TextNode(text)]) == text + TextOf([]);
    } else if SplitsText(splitter.options) {
      MarkupText(text, splitter.options.wordsClass, splitter.options.charsClass, splitter.options.splitType == "chars", 0);
    }
  }

  /** The markup of "Hi there": three nodes, the first a span. */
  lemma HiThereMarkup(wc: string, cc: string, sc: bool)
    ensures var text: JsString := [72, 105, 32, 116, 104, 101, 114, 101];
      var m := Markup(text, wc, cc, sc, 0);
      && |m| == 3 && m[0].SpanNode? && m != [TextNode(text)]
  {
    var text: JsString := [72, 105, 32, 116, 104, 101, 114, 101];
    var a: JsString, sp: JsString, b: JsString := [72, 105], [32], [116, 104, 101, 114, 101];
    assert text == a + (sp + b);
    assert IsWhitespaceToken(sp) by { assert IsSpace(sp[0]); }
    TwoWordsSplit(a, sp, b);
    MarkupShape(text, wc, cc, sc, 0);
  }

  /**
   * The segmenter as written, on an element holding "Hi there" and no
   * `data-original-text`: after the split and `revert()` the element still
   * holds the split markup, three nodes led by a word span, not the single
   * text node it started with; only its `textContent` is the same.
   */
  method SplitThenRevertOnHiThere(element: Element, overrides: OptionOverrides)
    requires element.children == [TextNode([72, 105, 32, 116, 104, 101, 114, 101])]
    requires element.originalText.None?
    modifies element
    ensures element.TextContent() == old(element.TextContent())
    ensures var o := MergeOptions(overrides);
      SplitsText(o) ==>
        && element.children == Markup(old(element.TextContent()), o.wordsClass, o.charsClass, o.splitType == "chars", 0)
        && |element.children| == 3 && element.children[0].SpanNode?
        && element.children != old(element.children)
  {
    var text: JsString := [72, 105, 32, 116, 104, 101, 114, 101];
    assert element.TextContent() == text by {
      assert TextOf([TextNode(text)]) == text + TextOf([]);
    }
    var splitter := new SplitText(element, overrides);
    splitter.Revert();
    var o := splitter.options;
    if SplitsText(o) {
      MarkupText(text, o.wordsClass, o.charsClass, o.splitType == "chars", 0);
      HiThereMarkup(o.wordsClass, o.charsClass, o.splitType == "chars");
    }
  }
}
