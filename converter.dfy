/**
  `parseElement`, the recursive walk that turns a DOM node into a doc-definition
  value, and `convertHtml`/`create` around it.

  Every node yields either the empty string (a text node left empty) or an object.
  An element first converts its children, in order, with itself pushed on the
  `parents` stack, keeps the truthy results (an empty `text` list becoming `''`),
  and then either copies them into `stack` (when a block-level descendant needs
  one) or applies the cascade to itself. The tag's own arm of the `switch` runs
  next, then the collapse of a single bare text child and the `data-pdfmake`
  properties.

  A TypeError thrown inside the asynchronous executor of `parseElement` (and the
  `return ''` of the COL/COLGROUP arm) leaves that promise pending for ever, and
  with it every `await` above it: such a walk is modelled as a result `None`. The
  image cache, the only state the walk changes, is threaded through as a map.
 */
module Converter {
  import opened Optional
  import opened Strings
  import opened Numbers
  import opened Values
  import opened Markup
  import opened Units
  import opened Style
  import opened Defaults
  import opened Cascade
  import opened Table
  import opened Autosize
  import opened ImageCache

  // ---------------------------------------------------------------- the conversion's settings

  /** What the image arm needs from outside: the `isValidURL` test, how the download and
      the thumbnailer end for a URL and size, the clock and the cache settings. */
  datatype Images = Images(valid: string -> bool, fetched: (string, Value, Value) -> Fetch,
                           now: real, settings: Settings)

  /** The settings one call of `create` fixes: the default styles after
      `changeDefaultStyles`, the FONT size ladder and the `tableAutoSize` switch. */
  datatype Options = Options(defaults: StyleTable, fontSizes: seq<Value>, tableAutoSize: bool, images: Images)

  const DefaultFontSizes: seq<Value> := [Num(10.0), Num(14.0), Num(16.0), Num(18.0), Num(20.0), Num(24.0), Num(28.0)]

  /** The settings `create` reads from its `options` argument. */
  function CreateOptions(options: Value, images: Images): (o: Options)
    ensures !Truthy(options) ==> o.defaults == BuiltIn && o.fontSizes == DefaultFontSizes && !o.tableAutoSize
  {
    var given := Truthy(options);
    var overrides := if given then Get(options, "defaultStyles") else Undefined;
    var sizes := if given then Get(options, "fontSizes") else Undefined;
    var auto := if given then Get(options, "tableAutoSize") else Undefined;
    Options(if Truthy(overrides) then ChangedStyles(BuiltIn, ForIn(overrides)) else BuiltIn,
            if sizes.Arr? then sizes.items else DefaultFontSizes,
            auto.Bool? && auto.b,
            images)
  }

  // ---------------------------------------------------------------- small helpers

  /** `s.replace(/\n(\s+)?/g, "")`: every line feed goes, with the white space after it. */
  function StripBreaks(s: string): (r: string)
    ensures |r| <= |s|
    decreases |s|
  {
    if s == [] then []
    else if s[0] == '\n' then StripBreaks(TrimStart(s[1..]))
    else [s[0]] + StripBreaks(s[1..])
  }

  /** The parents whose text children are trimmed at both ends. */
  predicate TrimmingParent(name: string) {
    name in ["TABLE", "THEAD", "TBODY", "TFOOT", "TR", "UL", "OL"]
  }

  /** The node names `searchForStack` treats as block level. */
  predicate BlockName(v: Value) {
    v.Str? && v.s in ["P", "DIV", "TABLE", "SVG", "UL", "OL", "IMG", "H1", "H2", "H3", "H4", "H5", "H6"]
  }

  /** The value of the first rule with key `key`, `false` when there is none. */
  function FirstValue(rules: seq<Rule>, key: string): (v: Value)
    ensures (forall i | 0 <= i < |rules| :: rules[i].key != key) ==> v == Bool(false)
    decreases |rules|
  {
    if rules == [] then Bool(false)
    else if rules[0].key == key then rules[0].value
    else FirstValue(rules[1..], key)
  }

  // ---------------------------------------------------------------- searchForStack

  /** `searchForStack(v)`: whether some item of the `text` list, at any depth, has a
      truthy `stack` or a block-level `nodeName`; `None` when an item read is `null`
      or `undefined`. */
  function SearchForStack(v: Value): Option<bool>
    requires Readable(v)
    decreases v, 1
  {
    var t := Get(v, "text");
    if !t.Arr? then Some(false) else SearchItems(v, t.items, 0)
  }

  function SearchItems(v: Value, items: seq<Value>, i: nat): Option<bool>
    requires Readable(v) && Get(v, "text") == Arr(items) && i <= |items|
    decreases v, 0, |items| - i
  {
    if i == |items| then Some(false)
    else
      var x := items[i];
      if !Readable(x) then None
      else if Truthy(Get(x, "stack")) || BlockName(Get(x, "nodeName")) then Some(true)
      else
        assert v.Obj? && x in items;
        match SearchForStack(x)
        case None => None
        case Some(b) => if b then Some(true) else SearchItems(v, items, i + 1)
  }

  // ---------------------------------------------------------------- collapse and data-pdfmake

  /** The one-item collapse after the `switch`: a list holding one item whose `text` is
      truthy and whose `nodeName` is falsy is replaced by that text. */
  function Collapse(ret: Props): Option<Props> {
    var t := Field(ret, "text");
    if !t.Arr? || |t.items| != 1 then Some(ret)
    else
      var first := t.items[0];
      if !Readable(first) then None
      else if Truthy(Get(first, "text")) && !Truthy(Get(first, "nodeName")) then Some(ret["text" := Get(first, "text")])
      else Some(ret)
  }

  /** The `data-pdfmake` properties every tag but HR and TABLE applies; `JSON.parse`
      throws on anything but plain JSON. */
  function DataSpec(name: string, e: ElementNode, ret: Props): Option<Props> {
    if name == "HR" || name == "TABLE" then Some(ret)
    else match e.data
      case NoData => Some(ret)
      case Json(v) => Some(ret + ForIn(v))
      case _ => None
  }

  // ---------------------------------------------------------------- text nodes

  /** A text node: `''` when its text is empty or ends up empty, otherwise the cascade
      applied to `{text}`, with `nodeName` `#TEXT` (the text arm falls through into the
      element arm, which names the object already resolved). */
  function TextSpec(content: string, parents: seq<ElementNode>, defaults: StyleTable): Option<Value> {
    if content == "" then Some(Str(""))
    else if parents == [] then None
    else Some(TextValue(CleanText(content, parents[|parents| - 1]), parents, defaults))
  }

  /** The text a text node keeps under `parent`. */
  function CleanText(content: string, parent: ElementNode): string {
    Clean(content, PreservesSpaces(parent), TrimmingParent(parent.name))
  }

  /** The parent's own style asks for `preserveLeadingSpaces`. */
  predicate PreservesSpaces(parent: ElementNode) {
    Truthy(FirstValue(ParseStyleSpec(parent, true), "preserveLeadingSpaces"))
  }

  /** Line feeds go unless `keep`, and both ends are trimmed when `trimming`. */
  function Clean(content: string, keep: bool, trimming: bool): string {
    var t := if keep then content else StripBreaks(content);
    if trimming then Trim(t) else t
  }

  /** The cleaned text resolved: `''`, or the styled text object. */
  function TextValue(text: string, parents: seq<ElementNode>, defaults: StyleTable): Value {
    if text == "" then Str("")
    else Obj(TextObject(ApplyStyleSpec(map["text" := Str(text)], parents, defaults)))
  }

  /** What the fall-through does to the text object once it is resolved: it is named,
      a falsy `text` becomes `[]`, and the single-item collapse runs. */
  function TextObject(styled: Props): Props {
    var named := styled["nodeName" := Str("#TEXT")];
    var listed := if Truthy(Field(named, "text")) then named else named["text" := Arr([])];
    match Collapse(listed)
    case Some(c) => c
    case None => listed
  }

  // ---------------------------------------------------------------- the arms of the switch

  /** The body grid as a value: one array per row. */
  function BodyValue(body: seq<seq<Value>>): (v: Value)
    ensures v.Arr? && |v.items| == |body|
    ensures forall i | 0 <= i < |body| :: v.items[i] == Arr(body[i])
  {
    Arr(seq(|body|, i requires 0 <= i < |body| => Arr(body[i])))
  }

  /** The `data-pdfmake` of a TABLE: `layout` goes to the node, every other key into
      `table`. */
  function TableData(ret: Props, d: Props): Option<Props> {
    var withLayout := if "layout" in d then ret["layout" := d["layout"]] else ret;
    var rest := map k | k in d && k != "layout" :: d[k];
    if rest == map[] then Some(withLayout)
    else
      var t := Field(withLayout, "table");
      if t.Obj? then Some(withLayout["table" := Obj(t.fields + rest)])
      else if Readable(t) then Some(withLayout)
      else None
  }

  /** What the TABLE's `data-pdfmake` parses to: plain JSON, JSON once `'` becomes `"`,
      or `{}`. */
  function TableDataset(data: Data): Props {
    match data
    case NoData => map[]
    case Json(v) => ForIn(v)
    case SingleQuoted(v) => ForIn(v)
    case Malformed => map[]
  }

  function TableArm(e: ElementNode, parents: seq<ElementNode>, ret: Props, o: Options): Option<Props> {
    match TableBodySpec(ret)
    case None => None
    case Some(body) =>
      var built := (ret - {"stack", "text"})["table" := Obj(map["body" := BodyValue(body)])];
      var styled := ApplyStyleSpec(built, parents + [e], o.defaults);
      var sized :=
        if !o.tableAutoSize then Some(styled)
        else match AutoSizeSpec(Field(styled, "table"))
          case None => None
          case Some(t) => Some(styled["table" := t]);
      match sized
      case None => None
      case Some(s) => TableData(s, TableDataset(e.data))
  }

  /** `getAttribute(a) * 1` */
  function AttrNumber(e: ElementNode, a: string): Value {
    Number(ToNumber(AttrOr(e, a)))
  }

  function CellArm(e: ElementNode, parents: seq<ElementNode>, ret: Props, o: Options): Props {
    var rows := if HasAttr(e, "rowspan") then ret["rowSpan" := AttrNumber(e, "rowspan")] else ret;
    var cols := if HasAttr(e, "colspan") then rows["colSpan" := AttrNumber(e, "colspan")] else rows;
    ApplyStyleSpec(cols, parents + [e], o.defaults)
  }

  function SvgArm(e: ElementNode): Props {
    map["svg" := Str(StripBreaks(e.outerHtml)), "nodeName" := Str("SVG"), "style" := Arr([Str("html-svg")])]
  }

  const LineBreak: Value := Obj(map["text" := Str("\n")])

  const Script: Value := Obj(map["offset" := Str("30%"), "fontSize" := Num(8.0)])

  /** The HR defaults `data-pdfmake` can override. */
  const HrDefaults: Props := map["width" := Num(514.0), "type" := Str("line"),
    "margin" := Arr([Num(0.0), Num(12.0), Num(0.0), Num(12.0)]), "thickness" := Num(0.5),
    "color" := Str("#000000"), "left" := Num(0.0)]

  /** The HR style: the defaults, overridden key by key by plain-JSON `data-pdfmake`. */
  function HrStyle(data: Data): Option<Props> {
    match data
    case NoData => Some(HrDefaults)
    case Json(v) => Some(HrDefaults + ForIn(v))
    case _ => None
  }

  /** The horizontal line an HR style draws. */
  function HrLine(s: Props): Value {
    Obj(map["type" := Field(s, "type"), "x1" := Field(s, "left"), "y1" := Num(0.0), "x2" := Field(s, "width"),
            "y2" := Num(0.0), "lineWidth" := Field(s, "thickness"), "lineColor" := Field(s, "color")])
  }

  function HrArm(e: ElementNode, ret: Props): Option<Props> {
    match HrStyle(e.data)
    case None => None
    case Some(s) => Some((ret - {"text"})["margin" := Field(s, "margin")]["canvas" := Arr([HrLine(s)])])
  }

  /** `(ret.stack || ret.text).slice(0)`: arrays and strings have a `slice`. */
  function ListArm(lower: string, e: ElementNode, parents: seq<ElementNode>, ret: Props, o: Options): Option<Props> {
    var items := Or(Field(ret, "stack"), Field(ret, "text"));
    if !items.Arr? && !items.Str? then None
    else
      var styled := ApplyStyleSpec((ret - {"stack", "text"})[lower := items], parents + [e], o.defaults);
      var kind := Or(Field(styled, "listStyle"), Field(styled, "listStyleType"));
      Some(if Truthy(kind) then styled["type" := kind] else styled)
  }

  /** `x ? x : 720` for the image size passed to `urltobase64`. */
  function ImageSize(v: Value): Value {
    if Truthy(v) then v else Num(720.0)
  }

  /** The arm's result and the image cache after it. */
  datatype Armed = Armed(ret: Option<Props>, cache: Props)

  function ImgArm(e: ElementNode, parents: seq<ElementNode>, ret: Props, o: Options, cache: Props): Armed {
    ImageOf(ApplyStyleSpec((ret - {"stack", "text"})["image" := AttrValue(e, "src")], parents + [e], o.defaults), o, cache)
  }

  /** The IMG arm once the styles are applied. */
  function ImageOf(styled: Props, o: Options, cache: Props): Armed {
    match Field(styled, "image")
    case Str(url) =>
      if !StartsWith(url, "http") then Armed(Some(styled), cache)
      else
        var w := ImageSize(Field(styled, "width"));
        var h := ImageSize(Field(styled, "height"));
        var im := o.images;
        var (answer, after) := UrlToBase64Spec(cache, url, w, h, true, im.valid(url), im.now, im.fetched(url, w, h), im.settings);
        if answer.Rejected? then Armed(None, after) else Armed(Some(styled["image" := answer.data]), after)
    case Arr(items) =>
      if items != [] && items[0] == Str("http") then
        var (answer, after) := Caught(cache, ArrayImageKey(styled), true, o.images.now, o.images.settings);
        Armed(Some(styled["image" := answer.data]), after)
      else Armed(Some(styled), cache)
    case _ => Armed(None, cache)
  }

  /** The key the `catch` of `urltobase64` stores under when `isValidURL` throws on an
      array image: the array joined with commas, then the two sizes. */
  function ArrayImageKey(styled: Props): string {
    JsString(Field(styled, "image")) + JsString(ImageSize(Field(styled, "width"))) + JsString(ImageSize(Field(styled, "height")))
  }

  /** `a[n]` for a number `n`: `undefined` unless `n` is an index of `a`. */
  function ItemAt(a: seq<Value>, n: JsNum): Value {
    if n.Finite? && 0.0 <= n.r && n.r.Floor as real == n.r && n.r.Floor < |a| then a[n.r.Floor] else Undefined
  }

  /** The size attribute clamped to 1..7 (NaN when it does not start with a number). */
  function FontStep(size: string): JsNum {
    Min(Max(Finite(1.0), ParseInt(size)), Finite(7.0))
  }

  /** `Math.max(fontSizes[0], fontSizes[size - 1])` */
  function FontSize(sizes: seq<Value>, size: string): JsNum {
    var step := FontStep(size);
    var index := if step.Finite? then Finite(step.r - 1.0) else step;
    Max(ToNumberValue(ItemAt(sizes, Finite(0.0))), ToNumberValue(ItemAt(sizes, index)))
  }

  function FontArm(e: ElementNode, parents: seq<ElementNode>, ret: Props, o: Options): Props {
    var colored := if HasAttr(e, "color") then ret["color" := Str(ParseColor(AttrOr(e, "color")))] else ret;
    var sized := if HasAttr(e, "size") then colored["fontSize" := Number(FontSize(o.fontSizes, AttrOr(e, "size")))] else colored;
    ApplyStyleSpec(sized, parents + [e], o.defaults)
  }

  /** The `switch (nodeName)`. */
  function ArmSpec(name: string, e: ElementNode, parents: seq<ElementNode>, ret: Props, o: Options, cache: Props): Armed {
    if name == "TABLE" then Armed(TableArm(e, parents, ret, o), cache)
    else if name == "TH" || name == "TD" then Armed(Some(CellArm(e, parents, ret, o)), cache)
    else if name == "SVG" then Armed(Some(SvgArm(e)), cache)
    else if name == "BR" then Armed(Some(ret["text" := Arr([LineBreak])]), cache)
    else if name == "SUB" || name == "SUP" then Armed(Some(ret[ToLower(name) := Script]), cache)
    else if name == "HR" then Armed(HrArm(e, ret), cache)
    else if name == "OL" || name == "UL" then Armed(ListArm(ToLower(name), e, parents, ret, o), cache)
    else if name == "IMG" then ImgArm(e, parents, ret, o, cache)
    else if name == "A" then Armed(Some(ret["link" := AttrValue(e, "href")]), cache)
    else if name == "FONT" then Armed(Some(FontArm(e, parents, ret, o)), cache)
    else Armed(Some(ret), cache)
  }

  // ---------------------------------------------------------------- the walk

  /** What a node resolves to (`None`: never), and the image cache afterwards. */
  datatype Parsed = Parsed(value: Option<Value>, cache: Props)

  /** The children's results kept so far (`None`: a child never resolved). */
  datatype Gathered = Gathered(items: Option<seq<Value>>, cache: Props)

  /** `if (res) { if (Array.isArray(res.text) && res.text.length === 0) res.text = ''; ret.text.push(res) }` */
  function Kept(res: Value): (r: seq<Value>)
    ensures |r| <= 1
  {
    if !Truthy(res) then []
    else if res.Obj? && Field(res.fields, "text") == Arr([]) then [Obj(res.fields["text" := Str("")])]
    else [res]
  }

  /** The element before its arm: its kept children in `text`, then either `stack` or
      the cascade, both only when it has children. */
  function Gather(e: ElementNode, parents: seq<ElementNode>, items: seq<Value>, defaults: StyleTable): Option<Props> {
    var ret := map["text" := Arr(items), "nodeName" := Str(ToUpper(e.name))];
    if |e.children| == 0 then Some(ret)
    else match SearchForStack(Obj(ret))
      case None => None
      case Some(needStack) =>
        Some(if needStack then ret["stack" := Arr(items)] else ApplyStyleSpec(ret, parents + [e], defaults))
  }

  /** An element once its children's results `items` are in. */
  function ElementSpec(e: ElementNode, parents: seq<ElementNode>, o: Options, items: seq<Value>, cache: Props): Parsed {
    var name := ToUpper(e.name);
    match Gather(e, parents, items, o.defaults)
    case None => Parsed(None, cache)
    case Some(ret) =>
      var armed := ArmSpec(name, e, parents, ret, o, cache);
      match armed.ret
      case None => Parsed(None, armed.cache)
      case Some(r) =>
        match Collapse(r)
        case None => Parsed(None, armed.cache)
        case Some(c) =>
          match DataSpec(name, e, c)
          case None => Parsed(None, armed.cache)
          case Some(d) => Parsed(Some(Obj(d)), armed.cache)
  }

  predicate Ignored(n: Node) {
    n.Element? && (ToUpper(n.name) == "COLGROUP" || ToUpper(n.name) == "COL")
  }

  /** `parseElement(node, parents)` */
  function ParseSpec(node: Node, parents: seq<ElementNode>, o: Options, cache: Props): Parsed
    decreases node, 1, 0
  {
    match node
    case Comment => Parsed(Some(Obj(map["text" := Arr([])])), cache)
    case Text(content) => Parsed(TextSpec(content, parents, o.defaults), cache)
    case Element(_, _, _, _, _) =>
      if Ignored(node) then Parsed(None, cache)
      else
        var g := ChildrenSpec(node, parents + [node], o, 0, [], cache);
        match g.items
        case None => Parsed(None, g.cache)
        case Some(items) => ElementSpec(node, parents, o, items, g.cache)
  }

  /** The loop over `childNodes` from child `k` on, `acc` holding what was kept. */
  function ChildrenSpec(e: ElementNode, stack: seq<ElementNode>, o: Options, k: nat, acc: seq<Value>, cache: Props): Gathered
    requires k <= |e.children|
    decreases e, 0, |e.children| - k
  {
    if k == |e.children| then Gathered(Some(acc), cache)
    else
      var p := ParseSpec(e.children[k], stack, o, cache);
      match p.value
      case None => Gathered(None, p.cache)
      case Some(res) => ChildrenSpec(e, stack, o, k + 1, acc + Kept(res), p.cache)
  }

  /** `convertHtml`: the body's `stack || text`. */
  function ConvertSpec(body: Node, o: Options, cache: Props): Parsed {
    var p := ParseSpec(body, [], o, cache);
    match p.value
    case None => p
    case Some(doc) => Parsed(Some(if Readable(doc) then Or(Get(doc, "stack"), Get(doc, "text")) else Obj(map[])), p.cache)
  }

  // ---------------------------------------------------------------- the methods

  /** `for (key in d) ret[key] = d[key]` */
  method Assign(ret: Props, d: Props) returns (r: Props)
    ensures r == ret + d
  {
    r := ret;
    var todo := d.Keys;
    ghost var done: set<string> := {};
    while todo != {}
      invariant todo + done == d.Keys && todo * done == {}
      invariant r == ret + Restrict(d, done)
      decreases todo
    {
      var key :| key in todo;
      assert Restrict(d, done + {key}) == Restrict(d, done)[key := d[key]];
      r := r[key := d[key]];
      todo := todo - {key};
      done := done + {key};
    }
    assert Restrict(d, done) == d;
  }

  /** The loop looking for the parent's `preserveLeadingSpaces` rule. */
  method PreservedSpaces(rules: seq<Rule>) returns (hasWhiteSpace: Value)
    ensures hasWhiteSpace == FirstValue(rules, "preserveLeadingSpaces")
  {
    hasWhiteSpace := Bool(false);
    var i := 0;
    while i < |rules|
      invariant 0 <= i <= |rules|
      invariant FirstValue(rules, "preserveLeadingSpaces") == FirstValue(rules[i..], "preserveLeadingSpaces")
    {
      if rules[i].key == "preserveLeadingSpaces" {
        hasWhiteSpace := rules[i].value;
        return;
      }
      assert rules[i..][1..] == rules[i + 1..];
      i := i + 1;
    }
  }

  /** The text arm. */
  method ParseText(content: string, parents: seq<ElementNode>, defaults: StyleTable) returns (r: Option<Value>)
    ensures r == TextSpec(content, parents, defaults)
  {
    if content == "" {
      return Some(Str(""));
    }
    if parents == [] {
      return None;
    }
    var parent := parents[|parents| - 1];
    var styleParentTextNode := ParseStyle(parent, true);
    var hasWhiteSpace := PreservedSpaces(styleParentTextNode);
    var text := content;
    if !Truthy(hasWhiteSpace) {
      text := StripBreaks(content);
    }
    if TrimmingParent(parent.name) {
      text := Trim(text);
    }
    if text == "" {
      return Some(Str(""));
    }
    var ret := ApplyStyle(map["text" := Str(text)], parents, defaults);
    r := Some(Obj(TextObject(ret)));
  }

  /** The TABLE arm. */
  method ConvertTable(e: ElementNode, parents: seq<ElementNode>, ret: Props, o: Options) returns (r: Option<Props>)
    ensures r == TableArm(e, parents, ret, o)
  {
    var body := BuildTableBody(ret);
    if body.None? {
      return None;
    }
    var built := (ret - {"stack", "text"})["table" := Obj(map["body" := BodyValue(body.value)])];
    var styled := ApplyStyle(built, parents + [e], o.defaults);
    if o.tableAutoSize {
      var table := AutoSize(Field(styled, "table"));
      if table.None? {
        return None;
      }
      styled := styled["table" := table.value];
    }
    r := ConvertTableData(styled, TableDataset(e.data));
  }

  /** The loop over the TABLE's `data-pdfmake` keys. */
  method ConvertTableData(ret: Props, d: Props) returns (r: Option<Props>)
    ensures r == TableData(ret, d)
  {
    var withLayout := ret;
    if "layout" in d {
      withLayout := ret["layout" := d["layout"]];
    }
    var rest := map k | k in d && k != "layout" :: d[k];
    if rest == map[] {
      return Some(withLayout);
    }
    var t := Field(withLayout, "table");
    if t.Obj? {
      var fields := Assign(t.fields, rest);
      r := Some(withLayout["table" := Obj(fields)]);
    } else if Readable(t) {
      r := Some(withLayout);
    } else {
      r := None;
    }
  }

  /** The HR arm. */
  method ConvertHr(e: ElementNode, ret: Props) returns (r: Option<Props>)
    ensures r == HrArm(e, ret)
  {
    var styleHR := HrDefaults;
    match e.data {
      case NoData =>
      case Json(v) =>
        styleHR := Assign(styleHR, ForIn(v));
      case SingleQuoted(_) =>
        return None;
      case Malformed =>
        return None;
    }
    r := Some((ret - {"text"})["margin" := Field(styleHR, "margin")]["canvas" := Arr([HrLine(styleHR)])]);
  }

  /** The OL/UL arm. */
  method ConvertList(lower: string, e: ElementNode, parents: seq<ElementNode>, ret: Props, o: Options) returns (r: Option<Props>)
    ensures r == ListArm(lower, e, parents, ret, o)
  {
    var items := Or(Field(ret, "stack"), Field(ret, "text"));
    if !items.Arr? && !items.Str? {
      return None;
    }
    var styled := ApplyStyle((ret - {"stack", "text"})[lower := items], parents + [e], o.defaults);
    var kind := Or(Field(styled, "listStyle"), Field(styled, "listStyleType"));
    if Truthy(kind) {
      styled := styled["type" := kind];
    }
    r := Some(styled);
  }

  /** The IMG arm, which may fill the image cache. */
  method ConvertImage(e: ElementNode, parents: seq<ElementNode>, ret: Props, o: Options, cache: Base64Cache)
    returns (r: Option<Props>)
    modifies cache
    ensures Armed(r, cache.entries) == ImgArm(e, parents, ret, o, old(cache.entries))
  {
    var styled := ApplyStyle((ret - {"stack", "text"})["image" := AttrValue(e, "src")], parents + [e], o.defaults);
    r := FetchImage(styled, o, cache);
  }

  /** The IMG arm's `urltobase64` call and the substitution of its answer. */
  method FetchImage(styled: Props, o: Options, cache: Base64Cache) returns (r: Option<Props>)
    modifies cache
    ensures Armed(r, cache.entries) == ImageOf(styled, o, old(cache.entries))
  {
    var image := Field(styled, "image");
    if image.Arr? {
      if image.items != [] && image.items[0] == Str("http") {
        var answer := cache.Catch(ArrayImageKey(styled), true, o.images.now, o.images.settings);
        return Some(styled["image" := answer.data]);
      }
      return Some(styled);
    }
    if !image.Str? {
      return None;
    }
    if !StartsWith(image.s, "http") {
      return Some(styled);
    }
    var width := ImageSize(Field(styled, "width"));
    var height := ImageSize(Field(styled, "height"));
    var im := o.images;
    var answer := cache.UrlToBase64(image.s, width, height, true, im.valid(image.s), im.now,
                                    im.fetched(image.s, width, height), im.settings);
    if answer.Rejected? {
      return None;
    }
    r := Some(styled["image" := answer.data]);
  }

  /** The `switch (nodeName)`. */
  method Arm(name: string, e: ElementNode, parents: seq<ElementNode>, ret: Props, o: Options, cache: Base64Cache)
    returns (r: Option<Props>)
    modifies cache
    ensures Armed(r, cache.entries) == ArmSpec(name, e, parents, ret, o, old(cache.entries))
  {
    if name == "TABLE" {
      r := ConvertTable(e, parents, ret, o);
    } else if name == "TH" || name == "TD" {
      r := Some(CellArm(e, parents, ret, o));
    } else if name == "SVG" {
      r := Some(SvgArm(e));
    } else if name == "BR" {
      r := Some(ret["text" := Arr([LineBreak])]);
    } else if name == "SUB" || name == "SUP" {
      r := Some(ret[ToLower(name) := Script]);
    } else if name == "HR" {
      r := ConvertHr(e, ret);
    } else if name == "OL" || name == "UL" {
      r := ConvertList(ToLower(name), e, parents, ret, o);
    } else if name == "IMG" {
      r := ConvertImage(e, parents, ret, o, cache);
    } else if name == "A" {
      r := Some(ret["link" := AttrValue(e, "href")]);
    } else if name == "FONT" {
      r := Some(FontArm(e, parents, ret, o));
    } else {
      r := Some(ret);
    }
  }

  /** `stack` or the cascade, once the children are in. */
  method GatherChildren(e: ElementNode, parents: seq<ElementNode>, items: seq<Value>, defaults: StyleTable)
    returns (r: Option<Props>)
    ensures r == Gather(e, parents, items, defaults)
  {
    var ret := map["text" := Arr(items), "nodeName" := Str(ToUpper(e.name))];
    if |e.children| == 0 {
      return Some(ret);
    }
    var needStack := SearchForStack(Obj(ret));
    if needStack.None? {
      return None;
    }
    if needStack.value {
      ret := ret["stack" := Arr(items)];
    } else {
      ret := ApplyStyle(ret, parents + [e], defaults);
    }
    r := Some(ret);
  }

  /** Everything after the loop over the children. */
  method FinishElement(e: ElementNode, parents: seq<ElementNode>, o: Options, items: seq<Value>, cache: Base64Cache)
    returns (r: Option<Value>)
    modifies cache
    ensures Parsed(r, cache.entries) == ElementSpec(e, parents, o, items, old(cache.entries))
  {
    var nodeName := ToUpper(e.name);
    var ret := GatherChildren(e, parents, items, o.defaults);
    if ret.None? {
      return None;
    }
    var armed := Arm(nodeName, e, parents, ret.value, o, cache);
    if armed.None? {
      return None;
    }
    var collapsed := Collapse(armed.value);
    if collapsed.None? {
      return None;
    }
    var done := collapsed.value;
    if nodeName != "HR" && nodeName != "TABLE" {
      match e.data {
        case NoData =>
        case Json(v) =>
          done := Assign(done, ForIn(v));
        case SingleQuoted(_) =>
          return None;
        case Malformed =>
          return None;
      }
    }
    r := Some(Obj(done));
  }

  /** `parseElement(node, parents)`; the `parents` stack the source pushes the element
      on and pops it off again is the sequence `parents + [node]` its children get. */
  method ParseElement(node: Node, parents: seq<ElementNode>, o: Options, cache: Base64Cache) returns (r: Option<Value>)
    modifies cache
    decreases node
    ensures Parsed(r, cache.entries) == ParseSpec(node, parents, o, old(cache.entries))
  {
    match node {
      case Comment =>
        r := Some(Obj(map["text" := Arr([])]));
      case Text(content) =>
        r := ParseText(content, parents, o.defaults);
      case Element(_, _, _, _, children) =>
        if Ignored(node) {
          return None;
        }
        var stack := parents + [node];
        var items: seq<Value> := [];
        ghost var start := cache.entries;
        var x := 0;
        while x < |children|
          invariant 0 <= x <= |children|
          invariant ChildrenSpec(node, stack, o, 0, [], start) == ChildrenSpec(node, stack, o, x, items, cache.entries)
        {
          var res := ParseElement(children[x], stack, o, cache);
          if res.None? {
            return None;
          }
          items := items + Kept(res.value);
          x := x + 1;
        }
        r := FinishElement(node, parents, o, items, cache);
    }
  }

  /** `convertHtml`: the body's `stack || text`. */
  method ConvertHtml(body: Node, o: Options, cache: Base64Cache) returns (r: Option<Value>)
    modifies cache
    ensures Parsed(r, cache.entries) == ConvertSpec(body, o, old(cache.entries))
  {
    var docDef := ParseElement(body, [], o, cache);
    if docDef.None? {
      return None;
    }
    var doc := docDef.value;
    if Readable(doc) {
      r := Some(Or(Get(doc, "stack"), Get(doc, "text")));
    } else {
      r := Some(Obj(map[]));
    }
  }

  /** `create(html, options)` on the parsed body: the default styles are set up and
      changed, then the body is converted. */
  method Create(body: Node, options: Value, images: Images, cache: Base64Cache) returns (r: Option<Value>)
    modifies cache
    ensures Parsed(r, cache.entries) == ConvertSpec(body, CreateOptions(options, images), old(cache.entries))
  {
    var defaultStyles := new DefaultStyles();
    var o := CreateOptions(options, images);
    if Truthy(options) && Truthy(Get(options, "defaultStyles")) {
      defaultStyles.Change(Get(options, "defaultStyles"));
    }
    var sizes := if Truthy(options) then Get(options, "fontSizes") else Undefined;
    var fontSizes := if sizes.Arr? then sizes.items else DefaultFontSizes;
    var auto := if Truthy(options) then Get(options, "tableAutoSize") else Undefined;
    var tableAutoSize := auto.Bool? && auto.b;
    r := ConvertHtml(body, Options(defaultStyles.styles, fontSizes, tableAutoSize, images), cache);
  }

  // ---------------------------------------------------------------- what the walk promises

  /** No line feed survives the stripping. */
  lemma {:induction false} StripBreaksNoBreak(s: string)
    ensures '\n' !in StripBreaks(s)
    decreases |s|
  {
    if s == [] {
    } else if s[0] == '\n' {
      StripBreaksNoBreak(TrimStart(s[1..]));
    } else {
      StripBreaksNoBreak(s[1..]);
    }
  }

  /** Text without a line feed is left as it is. */
  lemma {:induction false} StripBreaksIdentity(s: string)
    requires '\n' !in s
    ensures StripBreaks(s) == s
    decreases |s|
  {
    if s != [] {
      assert forall j | 0 <= j < |s[1..]| :: s[1..][j] == s[j + 1];
      StripBreaksIdentity(s[1..]);
      assert s == [s[0]] + s[1..];
    }
  }

  /** A text node hangs only when it has no parent to read the style of; otherwise it is
      `''` or an object named `#TEXT`. */
  lemma TextNamed(content: string, parents: seq<ElementNode>, defaults: StyleTable)
    ensures TextSpec(content, parents, defaults).None? <==> content != "" && parents == []
    ensures var r := TextSpec(content, parents, defaults);
      r.Some? && r.value != Str("") ==> r.value.Obj? && Field(r.value.fields, "nodeName") == Str("#TEXT")
  {
    if content != "" && parents != [] {
      var text := CleanText(content, parents[|parents| - 1]);
      if text != "" {
        TextObjectNamed(ApplyStyleSpec(map["text" := Str(text)], parents, defaults));
      }
    }
  }

  /** The fall-through names the object `#TEXT`, and the collapse keeps the name. */
  lemma TextObjectNamed(styled: Props)
    ensures Field(TextObject(styled), "nodeName") == Str("#TEXT")
  {
    var named := styled["nodeName" := Str("#TEXT")];
    var listed := if Truthy(Field(named, "text")) then named else named["text" := Arr([])];
    assert Field(listed, "nodeName") == Str("#TEXT");
    match Collapse(listed)
    case Some(c) =>
      assert "nodeName" in c && c["nodeName"] == Str("#TEXT");
    case None =>
  }

  /** So a text child is never collapsed into its parent: a one-item `text` list whose
      item is named is left alone. */
  lemma TextChildStays(ret: Props, child: Value)
    requires child.Obj? && Field(child.fields, "nodeName") == Str("#TEXT")
    requires Field(ret, "text") == Arr([child])
    ensures Collapse(ret) == Some(ret)
  {
  }

  /** What `trim` leaves starts and ends with a character that is not white space. */
  lemma TrimEdges(t: string)
    requires Trim(t) != ""
    ensures !IsSpace(Trim(t)[0]) && !IsSpace(Trim(t)[|Trim(t)| - 1])
  {
    TrimEndPrefix(TrimStart(t));
  }

  /** The text a text node keeps: no line feed unless white space is preserved, no white
      space at either end when trimmed. */
  lemma CleanedText(content: string, keep: bool, trimming: bool)
    ensures var text := Clean(content, keep, trimming);
      text != "" ==> (!keep ==> '\n' !in text) && (trimming ==> !IsSpace(text[0]) && !IsSpace(text[|text| - 1]))
  {
    var t := if keep then content else StripBreaks(content);
    if !keep {
      StripBreaksNoBreak(content);
      if trimming {
        TrimChars(t);
      }
    }
    if trimming && Trim(t) != "" {
      TrimEdges(t);
    }
  }

  /** The fall-through keeps a non-empty string `text` and names the object `#TEXT`. */
  lemma TextObjectKeeps(styled: Props, text: string)
    requires Field(styled, "text") == Str(text) && text != ""
    ensures Field(TextObject(styled), "text") == Str(text) && Field(TextObject(styled), "nodeName") == Str("#TEXT")
  {
    assert styled["nodeName" := Str("#TEXT")]["text"] == Str(text);
  }

  /** A falsy `text` left by the cascade (`''`, `null`, `0`, ...) becomes the empty list. */
  lemma TextObjectEmpty(styled: Props)
    requires !Truthy(Field(styled, "text"))
    ensures Field(TextObject(styled), "text") == Arr([]) && Field(TextObject(styled), "nodeName") == Str("#TEXT")
  {
    var listed := styled["nodeName" := Str("#TEXT")]["text" := Arr([])];
    assert Field(styled["nodeName" := Str("#TEXT")], "text") == Field(styled, "text");
    assert Collapse(listed) == Some(listed);
  }

  /** When nothing in the cascade names `text`, a text node's text has no line feed
      unless its parent preserves white space, and no white space at either end when
      its parent is a table or list element. */
  lemma TextShape(content: string, parents: seq<ElementNode>, defaults: StyleTable)
    requires parents != [] && NotNamed(parents, defaults, "text")
    ensures var r := TextSpec(content, parents, defaults);
      var parent := parents[|parents| - 1];
      r.Some? && (r.value == Str("") ||
        (r.value.Obj? && Field(r.value.fields, "text").Str? && Field(r.value.fields, "text").s != "" &&
         var t := Field(r.value.fields, "text").s;
         (!PreservesSpaces(parent) ==> '\n' !in t) &&
         (TrimmingParent(parent.name) ==> !IsSpace(t[0]) && !IsSpace(t[|t| - 1]))))
  {
    if content != "" {
      var parent := parents[|parents| - 1];
      var keep := PreservesSpaces(parent);
      var trimming := TrimmingParent(parent.name);
      var text := CleanText(content, parent);
      CleanedText(content, keep, trimming);
      assert TextSpec(content, parents, defaults) == Some(TextValue(text, parents, defaults));
      if text != "" {
        TextValueShape(text, parents, defaults);
      }
    }
  }

  /** A non-empty cleaned text becomes a `#TEXT` object holding it, when nothing in the
      cascade names `text`. */
  lemma TextValueShape(text: string, parents: seq<ElementNode>, defaults: StyleTable)
    requires text != "" && NotNamed(parents, defaults, "text")
    ensures var v := TextValue(text, parents, defaults);
      v.Obj? && Field(v.fields, "text") == Str(text) && Field(v.fields, "nodeName") == Str("#TEXT")
  {
    var base := map["text" := Str(text)];
    ApplyStyleUntouched(base, parents, defaults, "text");
    TextObjectKeeps(ApplyStyleSpec(base, parents, defaults), text);
  }

  /** A BR without children or `data-pdfmake` converts to a bare line break: no cascade
      runs, and the collapse turns its one-item list into the string. */
  lemma BrIsLineBreak(br: Node, parents: seq<ElementNode>, o: Options, cache: Props)
    requires br.Element? && ToUpper(br.name) == "BR" && br.children == [] && br.data == NoData
    ensures ParseSpec(br, parents, o, cache) == Parsed(Some(Obj(map["text" := Str("\n"), "nodeName" := Str("BR")])), cache)
  {
    var name := ToUpper(br.name);
    var ret := map["text" := Arr([]), "nodeName" := Str(name)];
    assert ChildrenSpec(br, parents + [br], o, 0, [], cache) == Gathered(Some([]), cache);
    ParseVia(br, parents, o, cache, [], cache);
    assert Gather(br, parents, [], o.defaults) == Some(ret);
    var armed := ret["text" := Arr([LineBreak])];
    ArmIsBreak(name, br, parents, ret, o, cache);
    BreakCollapses(name);
    FinishFrom(br, parents, o, [], cache, ret, armed, map["text" := Str("\n"), "nodeName" := Str("BR")]);
  }

  /** The collapse turns the BR arm's one-item list into the line break itself. */
  lemma BreakCollapses(name: string)
    requires name == "BR"
    ensures var armed := map["text" := Arr([]), "nodeName" := Str(name)]["text" := Arr([LineBreak])];
      Collapse(armed) == Some(map["text" := Str("\n"), "nodeName" := Str("BR")])
  {
    var armed := map["text" := Arr([]), "nodeName" := Str(name)]["text" := Arr([LineBreak])];
    assert Get(LineBreak, "text") == Str("\n") && Get(LineBreak, "nodeName") == Undefined;
    assert armed["text" := Str("\n")] == map["text" := Str("\n"), "nodeName" := Str("BR")];
  }

  /** An element that is not ignored is its children's results put through its arm. */
  lemma ParseVia(node: Node, parents: seq<ElementNode>, o: Options, cache: Props, items: seq<Value>, after: Props)
    requires node.Element? && !Ignored(node)
    requires ChildrenSpec(node, parents + [node], o, 0, [], cache) == Gathered(Some(items), after)
    ensures ParseSpec(node, parents, o, cache) == ElementSpec(node, parents, o, items, after)
  {
  }

  lemma ArmIsBreak(name: string, e: ElementNode, parents: seq<ElementNode>, ret: Props, o: Options, cache: Props)
    requires name == "BR"
    ensures ArmSpec(name, e, parents, ret, o, cache) == Armed(Some(ret["text" := Arr([LineBreak])]), cache)
  {
  }

  lemma ArmIsScript(name: string, e: ElementNode, parents: seq<ElementNode>, ret: Props, o: Options, cache: Props)
    requires name == "SUB" || name == "SUP"
    ensures ArmSpec(name, e, parents, ret, o, cache) == Armed(Some(ret[ToLower(name) := Script]), cache)
  {
  }

  lemma ArmIsHr(name: string, e: ElementNode, parents: seq<ElementNode>, ret: Props, o: Options, cache: Props)
    requires name == "HR"
    ensures ArmSpec(name, e, parents, ret, o, cache) == Armed(HrArm(e, ret), cache)
  {
  }

  /** An element whose arm yields `r`, which the collapse turns into `c` and no
      `data-pdfmake` changes. */
  lemma FinishFrom(e: ElementNode, parents: seq<ElementNode>, o: Options, items: seq<Value>, cache: Props,
                   ret: Props, r: Props, c: Props)
    requires Gather(e, parents, items, o.defaults) == Some(ret)
    requires ArmSpec(ToUpper(e.name), e, parents, ret, o, cache) == Armed(Some(r), cache)
    requires Collapse(r) == Some(c) && e.data == NoData
    ensures ElementSpec(e, parents, o, items, cache) == Parsed(Some(Obj(c)), cache)
  {
  }

  /** SUB and SUP carry the script offset whatever their children; the cache is untouched. */
  lemma ScriptMarker(e: ElementNode, parents: seq<ElementNode>, o: Options, items: seq<Value>, cache: Props)
    requires (ToUpper(e.name) == "SUB" || ToUpper(e.name) == "SUP") && e.data == NoData
    ensures var p := ElementSpec(e, parents, o, items, cache);
      p.cache == cache
      && (p.value.Some? ==> p.value.value.Obj? && Field(p.value.value.fields, ToLower(ToUpper(e.name))) == Script)
  {
    var name := ToUpper(e.name);
    var lower := ToLower(name);
    assert lower == "sub" || lower == "sup";
    match Gather(e, parents, items, o.defaults)
    case None =>
    case Some(ret) =>
      ArmIsScript(name, e, parents, ret, o, cache);
      var r := ret[lower := Script];
      match Collapse(r)
      case None =>
        assert ElementSpec(e, parents, o, items, cache) == Parsed(None, cache);
      case Some(c) =>
        assert Field(c, lower) == Script;
        FinishFrom(e, parents, o, items, cache, ret, r, c);
  }

  const DefaultLine: Value := Obj(map["type" := Str("line"), "x1" := Num(0.0), "y1" := Num(0.0), "x2" := Num(514.0),
    "y2" := Num(0.0), "lineWidth" := Num(0.5), "lineColor" := Str("#000000")])

  /** An HR without `data-pdfmake` draws the default 514-point line with margins
      [0, 12, 0, 12] and has no `text`; it hangs only where its children do. */
  lemma HrGeometry(e: ElementNode, parents: seq<ElementNode>, o: Options, items: seq<Value>, cache: Props)
    requires ToUpper(e.name) == "HR" && e.data == NoData
    ensures var p := ElementSpec(e, parents, o, items, cache);
      p.cache == cache && (p.value.Some? <==> Gather(e, parents, items, o.defaults).Some?)
      && (p.value.Some? ==>
            p.value.value.Obj?
            && Field(p.value.value.fields, "canvas") == Arr([DefaultLine])
            && Field(p.value.value.fields, "margin") == Arr([Num(0.0), Num(12.0), Num(0.0), Num(12.0)])
            && "text" !in p.value.value.fields)
  {
    match Gather(e, parents, items, o.defaults)
    case None =>
    case Some(ret) =>
      var name := ToUpper(e.name);
      ArmIsHr(name, e, parents, ret, o, cache);
      HrDrawsDefault(e, ret);
      var r := HrArm(e, ret).value;
      assert Collapse(r) == Some(r);
      FinishFrom(e, parents, o, items, cache, ret, r, r);
  }

  lemma HrDrawsDefault(e: ElementNode, ret: Props)
    requires e.data == NoData
    ensures HrArm(e, ret).Some?
    ensures var r := HrArm(e, ret).value;
      Field(r, "canvas") == Arr([DefaultLine])
      && Field(r, "margin") == Arr([Num(0.0), Num(12.0), Num(0.0), Num(12.0)])
      && "text" !in r
  {
    assert HrStyle(e.data) == Some(HrDefaults);
    assert HrLine(HrDefaults) == DefaultLine;
  }

  /** Plain-JSON `data-pdfmake` on an HR overrides the line key by key; anything else
      makes `JSON.parse` throw, and the HR hangs. */
  lemma HrOverride(e: ElementNode, ret: Props, f: Props)
    ensures e.data.SingleQuoted? || e.data.Malformed? ==> HrArm(e, ret).None?
    ensures e.data == Json(Obj(f)) ==>
      HrArm(e, ret).Some? && Field(HrArm(e, ret).value, "canvas").Arr? && |Field(HrArm(e, ret).value, "canvas").items| == 1
      && var line := Field(HrArm(e, ret).value, "canvas").items[0];
      line.Obj?
      && line.fields["x1"] == (if "left" in f then f["left"] else Num(0.0))
      && line.fields["x2"] == (if "width" in f then f["width"] else Num(514.0))
      && line.fields["y1"] == Num(0.0) && line.fields["y2"] == Num(0.0)
      && line.fields["lineWidth"] == (if "thickness" in f then f["thickness"] else Num(0.5))
      && line.fields["lineColor"] == (if "color" in f then f["color"] else Str("#000000"))
      && line.fields["type"] == (if "type" in f then f["type"] else Str("line"))
      && Field(HrArm(e, ret).value, "margin") == (if "margin" in f then f["margin"] else Arr([Num(0.0), Num(12.0), Num(0.0), Num(12.0)]))
  {
    if e.data == Json(Obj(f)) {
      var st := HrDefaults + f;
      HrStyleFields(f);
      HrLineFields(st);
      HrArmOf(e, ret, st);
    }
  }

  /** The HR arm on a style `st`: the margin and the one-line canvas it draws. */
  lemma HrArmOf(e: ElementNode, ret: Props, st: Props)
    requires HrStyle(e.data) == Some(st)
    ensures HrArm(e, ret).Some? && Field(HrArm(e, ret).value, "canvas") == Arr([HrLine(st)])
    ensures Field(HrArm(e, ret).value, "margin") == Field(st, "margin")
  {
  }

  /** The line's coordinates, width, colour and type come from the HR style. */
  lemma HrLineFields(st: Props)
    ensures HrLine(st).Obj?
    ensures var l := HrLine(st).fields;
      l["x1"] == Field(st, "left") && l["x2"] == Field(st, "width") && l["y1"] == Num(0.0) && l["y2"] == Num(0.0)
      && l["lineWidth"] == Field(st, "thickness") && l["lineColor"] == Field(st, "color") && l["type"] == Field(st, "type")
  {
  }

  /** Each key of the HR style is the override's when given, the default otherwise. */
  lemma HrStyleFields(f: Props)
    ensures var st := HrDefaults + f;
      Field(st, "left") == (if "left" in f then f["left"] else Num(0.0))
      && Field(st, "width") == (if "width" in f then f["width"] else Num(514.0))
      && Field(st, "thickness") == (if "thickness" in f then f["thickness"] else Num(0.5))
      && Field(st, "color") == (if "color" in f then f["color"] else Str("#000000"))
      && Field(st, "type") == (if "type" in f then f["type"] else Str("line"))
      && Field(st, "margin") == (if "margin" in f then f["margin"] else Arr([Num(0.0), Num(12.0), Num(0.0), Num(12.0)]))
  {
  }

  /** The FONT size ladder: the size attribute is clamped to 1..7. */
  function Clamp(n: int): int {
    if n < 1 then 1 else if n > 7 then 7 else n
  }

  /** A size attribute that starts with a number picks entry `Clamp(n)` of the ladder
      (never below its first entry); one that does not gives NaN. */
  lemma FontStepClamps(size: string)
    ensures ParseInt(size).NaN? ==> FontStep(size).NaN?
    ensures forall n: int :: ParseInt(size) == Finite(n as real) ==> FontStep(size) == Finite(Clamp(n) as real)
  {
  }

  lemma FontLadder(size: string, n: int)
    requires ParseInt(size) == Finite(n as real)
    ensures FontSize(DefaultFontSizes, size) == ToNumberValue(DefaultFontSizes[Clamp(n) - 1])
  {
    FontStepClamps(size);
    var k := Clamp(n) - 1;
    assert ItemAt(DefaultFontSizes, Finite(k as real)) == DefaultFontSizes[k];
  }

  lemma FontNaN(sizes: seq<Value>, size: string)
    requires ParseInt(size).NaN?
    ensures FontSize(sizes, size).NaN?
  {
    FontStepClamps(size);
  }

  /** Before its arm, a list element holds its converted children in `stack` or `text`. */
  lemma GatherList(e: ElementNode, parents: seq<ElementNode>, items: seq<Value>, defaults: StyleTable)
    requires |e.children| > 0 ==>
      SearchForStack(Obj(map["text" := Arr(items), "nodeName" := Str(ToUpper(e.name))])).Some?
    requires NotNamed(parents + [e], defaults, "text") && NotNamed(parents + [e], defaults, "stack")
    ensures Gather(e, parents, items, defaults).Some?
    ensures var ret := Gather(e, parents, items, defaults).value; Or(Field(ret, "stack"), Field(ret, "text")) == Arr(items)
  {
    var ret0 := map["text" := Arr(items), "nodeName" := Str(ToUpper(e.name))];
    if |e.children| > 0 && !SearchForStack(Obj(ret0)).value {
      ApplyStyleUntouched(ret0, parents + [e], defaults, "text");
      ApplyStyleUntouched(ret0, parents + [e], defaults, "stack");
    }
  }

  /** The list arm moves those children to the list key. */
  lemma ListArmKeeps(lower: string, e: ElementNode, parents: seq<ElementNode>, ret: Props, o: Options, items: seq<Value>)
    requires lower != "text" && lower != "stack" && lower != "style" && lower != "type"
    requires Or(Field(ret, "stack"), Field(ret, "text")) == Arr(items)
    requires NotNamed(parents + [e], o.defaults, "text") && NotNamed(parents + [e], o.defaults, "stack")
    requires NotNamed(parents + [e], o.defaults, lower)
    ensures var r := ListArm(lower, e, parents, ret, o);
      r.Some? && Field(r.value, lower) == Arr(items) && "text" !in r.value && "stack" !in r.value
  {
    var listed := (ret - {"stack", "text"})[lower := Arr(items)];
    assert "text" !in listed && "stack" !in listed && listed[lower] == Arr(items);
    var styled := ApplyStyleSpec(listed, parents + [e], o.defaults);
    ApplyStyleUntouched(listed, parents + [e], o.defaults, "text");
    ApplyStyleUntouched(listed, parents + [e], o.defaults, "stack");
    ApplyStyleUntouched(listed, parents + [e], o.defaults, lower);
    ListArmOf(lower, e, parents, ret, o, items, styled);
  }

  lemma ListArmOf(lower: string, e: ElementNode, parents: seq<ElementNode>, ret: Props, o: Options, items: seq<Value>,
                  styled: Props)
    requires Or(Field(ret, "stack"), Field(ret, "text")) == Arr(items)
    requires styled == ApplyStyleSpec((ret - {"stack", "text"})[lower := Arr(items)], parents + [e], o.defaults)
    ensures var kind := Or(Field(styled, "listStyle"), Field(styled, "listStyleType"));
      ListArm(lower, e, parents, ret, o) == Some(if Truthy(kind) then styled["type" := kind] else styled)
  {
  }

  lemma {:induction false} ArmIsList(name: string, e: ElementNode, parents: seq<ElementNode>, ret: Props, o: Options, cache: Props)
    requires name == "UL" || name == "OL"
    ensures ArmSpec(name, e, parents, ret, o, cache) == Armed(ListArm(ToLower(name), e, parents, ret, o), cache)
  {
  }

  /** An element whose arm yields `r` that neither the collapse nor `data-pdfmake` changes. */
  lemma ElementFrom(e: ElementNode, parents: seq<ElementNode>, o: Options, items: seq<Value>, cache: Props,
                    ret: Props, r: Props)
    requires Gather(e, parents, items, o.defaults) == Some(ret)
    requires ArmSpec(ToUpper(e.name), e, parents, ret, o, cache) == Armed(Some(r), cache)
    requires Collapse(r) == Some(r) && DataSpec(ToUpper(e.name), e, r) == Some(r)
    ensures ElementSpec(e, parents, o, items, cache) == Parsed(Some(Obj(r)), cache)
  {
  }

  /** A list takes its converted children, in order, whether they went to `stack` or
      stayed in `text`, when nothing in the cascade names `text`, `stack` or the list key. */
  lemma ListOfChildren(e: ElementNode, parents: seq<ElementNode>, o: Options, items: seq<Value>, cache: Props)
    requires (ToUpper(e.name) == "UL" || ToUpper(e.name) == "OL") && e.data == NoData
    requires |e.children| > 0 ==>
      SearchForStack(Obj(map["text" := Arr(items), "nodeName" := Str(ToUpper(e.name))])).Some?
    requires NotNamed(parents + [e], o.defaults, "text") && NotNamed(parents + [e], o.defaults, "stack")
    requires NotNamed(parents + [e], o.defaults, ToLower(ToUpper(e.name)))
    ensures var p := ElementSpec(e, parents, o, items, cache);
      p.cache == cache && p.value.Some? && p.value.value.Obj?
      && Field(p.value.value.fields, ToLower(ToUpper(e.name))) == Arr(items)
      && "text" !in p.value.value.fields && "stack" !in p.value.value.fields
  {
    var name := ToUpper(e.name);
    var lower := ToLower(name);
    assert lower == "ul" || lower == "ol";
    GatherList(e, parents, items, o.defaults);
    var ret := Gather(e, parents, items, o.defaults).value;
    ListArmKeeps(lower, e, parents, ret, o, items);
    ArmIsList(name, e, parents, ret, o, cache);
    var r := ListArm(lower, e, parents, ret, o).value;
    assert Collapse(r) == Some(r);
    assert DataSpec(name, e, r) == Some(r);
    ElementFrom(e, parents, o, items, cache, ret, r);
  }

  // ---------------------------------------------------------------- hanging

  /** The node is a COL or COLGROUP, or has one among its descendants. */
  predicate HasIgnored(n: Node)
    decreases n
  {
    Ignored(n) || (n.Element? && exists i | 0 <= i < |n.children| :: HasIgnored(n.children[i]))
  }

  /** A COL or COLGROUP anywhere in a subtree makes the whole subtree hang: the arm's
      `return ''` never resolves, and every `await` above it waits for ever. */
  lemma {:induction false} IgnoredHangs(node: Node, parents: seq<ElementNode>, o: Options, cache: Props)
    requires HasIgnored(node)
    ensures ParseSpec(node, parents, o, cache).value.None?
    decreases node, 1, 0
  {
    if !Ignored(node) {
      var i :| 0 <= i < |node.children| && HasIgnored(node.children[i]);
      ChildrenHang(node, parents + [node], o, 0, [], cache, i);
    }
  }

  lemma {:induction false} ChildrenHang(e: ElementNode, stack: seq<ElementNode>, o: Options, k: nat, acc: seq<Value>,
                                        cache: Props, j: nat)
    requires k <= j < |e.children| && HasIgnored(e.children[j])
    ensures ChildrenSpec(e, stack, o, k, acc, cache).items.None?
    decreases e, 0, |e.children| - k
  {
    var p := ParseSpec(e.children[k], stack, o, cache);
    if k == j {
      IgnoredHangs(e.children[k], stack, o, cache);
    } else if p.value.Some? {
      ChildrenHang(e, stack, o, k + 1, acc + Kept(p.value.value), p.cache, j);
    }
  }

  /** A node resolves to `''` or to an object. */
  lemma ResultShape(node: Node, parents: seq<ElementNode>, o: Options, cache: Props)
    ensures var v := ParseSpec(node, parents, o, cache).value;
      v.Some? ==> v.value == Str("") || v.value.Obj?
  {
    match node
    case Comment =>
    case Text(content) =>
      TextNamed(content, parents, o.defaults);
    case Element(_, _, _, _, _) =>
  }

  /** What `ret.text` collects: one object per child that resolved to an object, in
      order, none of them with an empty `text` list. */
  predicate KeptItems(items: seq<Value>) {
    forall i | 0 <= i < |items| :: items[i].Obj? && Field(items[i].fields, "text") != Arr([])
  }

  lemma {:induction false} ChildrenKept(e: ElementNode, stack: seq<ElementNode>, o: Options, k: nat, acc: seq<Value>,
                                        cache: Props)
    requires k <= |e.children| && KeptItems(acc)
    ensures var g := ChildrenSpec(e, stack, o, k, acc, cache);
      g.items.Some? ==> acc <= g.items.value && |g.items.value| <= |acc| + |e.children| - k && KeptItems(g.items.value)
    decreases |e.children| - k
  {
    if k < |e.children| {
      var p := ParseSpec(e.children[k], stack, o, cache);
      ResultShape(e.children[k], stack, o, cache);
      if p.value.Some? {
        var next := acc + Kept(p.value.value);
        KeptStep(acc, p.value.value);
        ChildrenKept(e, stack, o, k + 1, next, p.cache);
      }
    }
  }

  /** Keeping one more result, `''` or an object, keeps the list well formed. */
  lemma KeptStep(acc: seq<Value>, res: Value)
    requires KeptItems(acc) && (res == Str("") || res.Obj?)
    ensures KeptItems(acc + Kept(res))
  {
    var r := Kept(res);
    assert forall i | 0 <= i < |r| :: r[i].Obj? && Field(r[i].fields, "text") != Arr([]);
  }

  // ---------------------------------------------------------------- searchForStack, by reference

  /** An item that needs a stack by itself. */
  predicate Blocky(x: Value)
    requires Readable(x)
  {
    Truthy(Get(x, "stack")) || BlockName(Get(x, "nodeName"))
  }

  /** Every `text` list, at any depth, holds only values whose properties can be read. */
  predicate Sound(v: Value)
    requires Readable(v)
    decreases v
  {
    var t := Get(v, "text");
    t.Arr? ==> forall i | 0 <= i < |t.items| :: v.Obj? && t.items[i] in t.items && Readable(t.items[i]) && Sound(t.items[i])
  }

  /** Some item at some depth is block level. */
  predicate NeedsStack(v: Value)
    requires Readable(v) && Sound(v)
    decreases v
  {
    var t := Get(v, "text");
    t.Arr? && exists i | 0 <= i < |t.items| :: v.Obj? && t.items[i] in t.items && (Blocky(t.items[i]) || NeedsStack(t.items[i]))
  }

  /** On a sound value the search never throws, and it answers exactly whether some
      descendant in the `text` lists is block level. */
  lemma {:induction false} SearchFindsBlocks(v: Value)
    requires Readable(v) && Sound(v)
    ensures SearchForStack(v) == Some(NeedsStack(v))
    decreases v, 1
  {
    var t := Get(v, "text");
    if t.Arr? {
      SearchItemsFinds(v, t.items, 0);
    }
  }

  lemma {:induction false} SearchItemsFinds(v: Value, items: seq<Value>, i: nat)
    requires Readable(v) && Sound(v) && Get(v, "text") == Arr(items) && i <= |items|
    ensures SearchItems(v, items, i) == Some(exists j | i <= j < |items| :: Blocky(items[j]) || NeedsStack(items[j]))
    decreases v, 0, |items| - i
  {
    if i < |items| {
      var x := items[i];
      assert v.Obj? && x in items && Readable(x) && Sound(x);
      if !Blocky(x) {
        SearchFindsBlocks(x);
        if !NeedsStack(x) {
          SearchItemsFinds(v, items, i + 1);
          assert (exists j | i <= j < |items| :: Blocky(items[j]) || NeedsStack(items[j]))
             == (exists j | i + 1 <= j < |items| :: Blocky(items[j]) || NeedsStack(items[j]));
        }
      }
    }
  }

  /** An item whose properties cannot be read makes the search throw, unless an earlier
      item already answered. */
  lemma NullItemThrows(v: Value, items: seq<Value>)
    requires Readable(v) && Get(v, "text") == Arr(items) && items != [] && !Readable(items[0])
    ensures SearchForStack(v).None?
  {
  }

  // ---------------------------------------------------------------- images

  /** The IMG arm never hangs on a string image: `urltobase64` is called with `noerror`
      set, so it always resolves. Without a width or height the size passed is 720. */
  lemma ImageResolves(styled: Props, o: Options, cache: Props, url: string)
    requires Field(styled, "image") == Str(url)
    ensures ImageOf(styled, o, cache).ret.Some?
    ensures !StartsWith(url, "http") ==> ImageOf(styled, o, cache) == Armed(Some(styled), cache)
    ensures StartsWith(url, "http") && !Truthy(Field(styled, "width")) && !Truthy(Field(styled, "height")) ==>
      var im := o.images; var size := Num(720.0);
      ImageOf(styled, o, cache).cache
        == UrlToBase64Spec(cache, url, size, size, true, im.valid(url), im.now, im.fetched(url, size, size), im.settings).1
  {
    if StartsWith(url, "http") {
      var w := ImageSize(Field(styled, "width"));
      var h := ImageSize(Field(styled, "height"));
      var im := o.images;
      NoErrorResolves(cache, url, w, h, im.valid(url), im.now, im.fetched(url, w, h), im.settings);
    }
  }

  /** An array image led by `http` passes the `indexOf` test; `isValidURL` then throws on
      it, and the `catch` answers the placeholder, storing it under the joined array and
      sizes unless a truthy entry is there. Any other array is kept as it is. */
  lemma ArrayImageCaught(styled: Props, o: Options, cache: Props, items: seq<Value>)
    requires Field(styled, "image") == Arr(items)
    ensures var s := o.images.settings;
      var key := JsString(Arr(items)) + JsString(ImageSize(Field(styled, "width"))) + JsString(ImageSize(Field(styled, "height")));
      ImageOf(styled, o, cache) ==
        if items != [] && items[0] == Str("http") then
          Armed(Some(styled["image" := Str(s.filebase64)]),
                if Truthy(Field(cache, key)) then cache else cache[key := Stored(s.filebase64, o.images.now, s.ttlempty)])
        else Armed(Some(styled), cache)
  {
    if items != [] && items[0] == Str("http") {
      CaughtStores(cache, ArrayImageKey(styled), o.images.now, o.images.settings);
    }
  }

  /** The sizes the IMG arm passes are never NaN, so the fallback to 720 by 1280 inside
      `urltobase64` never applies: a miss is stored under the key it was looked up by. */
  lemma ImageKeyStable(url: string, width: Value, height: Value)
    ensures MissKey(url, ImageSize(width), ImageSize(height)) == CacheKey(url, ImageSize(width), ImageSize(height))
  {
    assert ImageSize(width) != Number(NaN) && ImageSize(height) != Number(NaN);
  }
}

