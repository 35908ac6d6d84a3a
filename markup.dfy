/**
  The parsed HTML the converter walks, as the DOM hands it over: text nodes, comments
  and elements with their attributes, their `data-pdfmake` payload and their children.
  The DOM parser itself is not modelled; a document is given as a tree of these nodes.
 */
module Markup {
  import opened Optional
  import opened Values

  /** What the `data-pdfmake` attribute holds, as `JSON.parse` sees it. */
  datatype Data =
    | NoData                        // attribute absent or empty
    | Json(value: Value)            // parses as JSON
    | SingleQuoted(value: Value)    // parses only once every `'` is replaced by `"`
    | Malformed                     // parses neither way

  /** A DOM node. `name` is the element's `nodeName` (upper case for HTML elements);
      `outerHtml` is its serialisation, which only the SVG arm reads. */
  datatype Node =
    | Text(content: string)
    | Comment
    | Element(name: string, attrs: map<string, string>, data: Data, outerHtml: string, children: seq<Node>)

  /** The nodes that can be on the `parents` stack. */
  type ElementNode = n: Node | n.Element? witness Element("BODY", map[], NoData, "", [])

  /** `node.nodeName` */
  function NodeName(n: Node): string {
    match n
    case Text(_) => "#text"
    case Comment => "#comment"
    case Element(name, _, _, _, _) => name
  }

  /** `element.getAttribute(a)`: None stands for `null`. */
  function Attr(e: ElementNode, a: string): Option<string> {
    if a in e.attrs then Some(e.attrs[a]) else None
  }

  /** `element.getAttribute(a) || ""` */
  function AttrOr(e: ElementNode, a: string): string {
    if a in e.attrs then e.attrs[a] else ""
  }

  /** `element.getAttribute(a)` is truthy: present and not empty. */
  predicate HasAttr(e: ElementNode, a: string) {
    AttrOr(e, a) != ""
  }

  /** `getAttribute(a)` as a JavaScript value (a string or `null`). */
  function AttrValue(e: ElementNode, a: string): Value {
    if a in e.attrs then Str(e.attrs[a]) else Null
  }
}
