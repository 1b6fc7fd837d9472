/**
 * The part of the browser's document model the text segmenter touches:
 * an element's children, its `textContent`, its `innerHTML` setter, the
 * `data-original-text` entry of its `dataset`, and `querySelectorAll` with a
 * class selector. Nodes are values; a parsed `innerHTML` string is
 * represented by the nodes it parses to.
 */
module Dom {
  import opened Wrappers
  import opened JsText

  /** The index attribute a generated span carries. */
  datatype IndexAttr = DataWord(wordIndex: nat) | DataChar(charIndex: nat)

  /** A text node, or a `<span class="…" data-…="…">` with its children. */
  datatype Node =
    | TextNode(text: JsString)
    | SpanNode(cls: string, attr: IndexAttr, kids: seq<Node>)

  /** `textContent` of a list of sibling nodes: their text, in document order. */
  function TextOf(ns: seq<Node>): JsString
    decreases ns
  {
    if ns == [] then []
    else
      (match ns[0]
       case TextNode(t) => t
       case SpanNode(_, _, kids) => TextOf(kids))
      + TextOf(ns[1..])
  }

  /** `querySelectorAll('.' + cls)` under a list of siblings: matching spans in document order. */
  function Select(ns: seq<Node>, cls: string): seq<Node>
    decreases ns
  {
    if ns == [] then []
    else
      (match ns[0]
       case TextNode(_) => []
       case SpanNode(c, _, kids) => (if c == cls then [ns[0]] else []) + Select(kids, cls))
      + Select(ns[1..], cls)
  }

  lemma {:induction false} TextOfAppend(a: seq<Node>, b: seq<Node>)
    ensures TextOf(a + b) == TextOf(a) + TextOf(b)
  {
    if a == [] {
      assert a + b == b;
    } else {
      assert (a + b)[0] == a[0];
      assert (a + b)[1..] == a[1..] + b;
      TextOfAppend(a[1..], b);
    }
  }

  lemma {:induction false} SelectAppend(a: seq<Node>, b: seq<Node>, cls: string)
    ensures Select(a + b, cls) == Select(a, cls) + Select(b, cls)
  {
    if a == [] {
      assert a + b == b;
    } else {
      assert (a + b)[0] == a[0];
      assert (a + b)[1..] == a[1..] + b;
      SelectAppend(a[1..], b, cls);
    }
  }

  /** An element whose content the segmenter rewrites. */
  class Element {
    var children: seq<Node>
    /** `dataset.originalText`, that is the `data-original-text` attribute, if present. */
    var originalText: Option<JsString>

    constructor (children: seq<Node>, originalText: Option<JsString>)
      ensures this.children == children && this.originalText == originalText
    {
      this.children := children;
      this.originalText := originalText;
    }

    /** The `textContent` getter. */
    function TextContent(): JsString
      reads this
    {
      TextOf(children)
    }

    /**
     * The `textContent` setter: all children are replaced by one text node,
     * or by none when the new text is empty.
     */
    method SetTextContent(s: JsString)
      modifies this
      ensures children == (if s == [] then [] else [TextNode(s)])
      ensures TextContent() == s
      ensures originalText == old(originalText)
    {
      children := if s == [] then [] else [TextNode(s)];
      assert TextOf([TextNode(s)]) == s + TextOf([]);
    }

    /** The `innerHTML` setter, given the nodes the new markup parses to. */
    method SetInnerHtml(nodes: seq<Node>)
      modifies this
      ensures children == nodes
      ensures originalText == old(originalText)
    {
      children := nodes;
    }

    /** `dataset.originalText = s`: sets the `data-original-text` attribute. */
    method SetOriginalText(s: JsString)
      modifies this
      ensures originalText == Some(s) && children == old(children)
    {
      originalText := Some(s);
    }

    /** `querySelectorAll('.' + cls)`. */
    function QuerySelectorAll(cls: string): seq<Node>
      reads this
    {
      Select(children, cls)
    }
  }
}
