/**
  `parseStyle`: an element's inline `style` (with its `width` and `height` attributes in
  front) becomes a list of `{key, value}` rules in pdfmake's vocabulary. Margins are
  reordered and converted to points, font families title-cased, colours normalised, and
  the `border` declarations merged into one `border` and one `borderColor` rule at the
  end. With `ignore` set (an ancestor's style) margins, widths, heights and borders are
  not passed on.
 */
module Style {
  import opened Optional
  import opened Strings
  import opened Numbers
  import opened Values
  import opened Units
  import opened Markup

  datatype Rule = Rule(key: string, value: Value)

  /** The result of `convertToUnit` as a JavaScript value: a number or `false`. */
  function UnitValue(v: Option<real>): Value {
    match v
    case None => Bool(false)
    case Some(r) => Num(r)
  }

  /** `parsedValue === false ? value : parsedValue` */
  function PointsOr(value: string): Value {
    match ConvertToUnit(value)
    case None => Str(value)
    case Some(r) => Num(r)
  }

  // ---------------------------------------------------------------- margin

  /** pdfmake's order [left, top, right, bottom] from the CSS shorthand's 1 to 4 values;
      two values give only [horizontal, vertical], five or more are left as they are. */
  function MarginOrder(p: seq<string>): seq<string> {
    if |p| == 1 then [p[0], p[0], p[0], p[0]]
    else if |p| == 2 then [p[1], p[0]]
    else if |p| == 3 then [p[1], p[0], p[1], p[2]]
    else if |p| == 4 then [p[3], p[0], p[1], p[2]]
    else p
  }

  /** `value.forEach((val, i) => value[i] = convertToUnit(val))` followed by
      `value.indexOf(false) === -1`: the parts in points, or None when one is refused. */
  function Points(p: seq<string>): Option<seq<Value>>
    decreases |p|
  {
    if p == [] then Some([])
    else
      match ConvertToUnit(p[0])
      case None => None
      case Some(x) =>
        match Points(p[1..])
        case None => None
        case Some(rest) => Some([Num(x)] + rest)
  }

  /** The margin rule's value for the space-separated parts of a `margin` value. */
  function MarginOf(parts: seq<string>): Option<Value> {
    match Points(MarginOrder(parts))
    case None => None
    case Some(v) => Some(Arr(v))
  }

  function MarginValue(value: string): Option<Value> {
    MarginOf(Split(value, ' '))
  }

  // ---------------------------------------------------------------- font-family

  /** The global replace of `/"|^'|^\s*|\s*$|'$/g` from position `p` on: every double
      quote goes, and so do a leading single quote or leading white space (the two
      `^` alternatives only match at position 0), trailing white space and a trailing
      single quote. */
  function StripFrom(s: string, p: nat): string
    decreases |s| - p
  {
    if p >= |s| then ""
    else if s[p] == '"' then StripFrom(s, p + 1)
    else if p == 0 && s[0] == '\'' then StripFrom(s, 1)
    else if p == 0 then
      var k := |s| - |TrimStart(s)|;
      if k > 0 then StripFrom(s, k) else [s[0]] + StripFrom(s, 1)
    else if TrimStart(s[p..]) == [] then ""
    else if p == |s| - 1 && s[p] == '\'' then ""
    else [s[p]] + StripFrom(s, p + 1)
  }

  /** `.replace(/^([a-z])/g, …)`: the first letter in upper case. */
  function CapitalizeHead(s: string): (r: string)
    ensures |r| == |s| && (r != [] ==> !IsAsciiLower(r[0]))
  {
    if s != [] && IsAsciiLower(s[0]) then [UpperChar(s[0])] + s[1..] else s
  }

  /** The font name of a `font-family` value: its first family, unquoted and trimmed,
      each space followed by a lower-case letter replaced by that letter in upper case. */
  function FontName(value: string): string {
    CapitalizeAfter(CapitalizeHead(StripFrom(Split(value, ',')[0], 0)), ' ')
  }

  // ---------------------------------------------------------------- border width

  /** The global replace of `/(\d+)(\.\d+)?([^\d]+)/g` by `"$1$2 "`: a number followed by
      non-digits keeps the number and a space. A fraction that ends the string cannot be
      followed by a non-digit, so the regular expression backtracks and the point alone
      becomes the separator (`1.5` gives `1 5`); digits that end the string are left. */
  function WidthReplace(s: string): string
    decreases |s|
  {
    if s == [] then ""
    else if !IsDigit(s[0]) then [s[0]] + WidthReplace(s[1..])
    else
      var d := DigitRun(s);
      if d == |s| then s
      else if s[d] == '.' && d + 1 < |s| && IsDigit(s[d + 1]) then
        var f := 1 + DigitRun(s[d + 1..]);
        if d + f < |s| then
          var n := NonDigitRun(s[d + f..]);
          assert n >= 1;
          s[..d + f] + " " + WidthReplace(s[d + f + n..])
        else s[..d] + " " + WidthReplace(s[d + 1..])
      else
        var n := NonDigitRun(s[d..]);
        assert n >= 1;
        s[..d] + " " + WidthReplace(s[d + n..])
  }

  /** The width token of a border declaration, as the source compares it with 0. */
  function BorderWidth(token: string): string {
    Trim(WidthReplace(token))
  }

  /** `width > 0` for the width token. */
  predicate WidthPositive(token: string) {
    Greater(ToNumber(BorderWidth(token)), Finite(0.0))
  }

  /** `border`, `border-left…`, `border-top…`, `border-right…`, `border-bottom…` */
  predicate IsBorderKey(key: string) {
    key == "border" || StartsWith(key, "border-left") || StartsWith(key, "border-top")
    || StartsWith(key, "border-right") || StartsWith(key, "border-bottom")
  }

  /** The side a border key names (left 0, top 1, right 2, bottom 3), or -1 for all four. */
  function SideIndex(key: string): (i: int)
    ensures -1 <= i < 4
  {
    if Contains(key, "-left") then 0
    else if Contains(key, "-top") then 1
    else if Contains(key, "-right") then 2
    else if Contains(key, "-bottom") then 3
    else -1
  }

  // ---------------------------------------------------------------- one declaration

  /** What one `key: value` declaration contributes. */
  datatype Effect = Emit(rule: Rule) | Border(key: string, value: string) | Skip

  /** The `switch (key)` of parseStyle; `tag` is the element's upper-case node name. */
  function Classify(key: string, value: string, tag: string, ignore: bool): Effect {
    if key == "margin" then
      if ignore then Skip
      else match MarginValue(value)
        case None => Skip
        case Some(m) => Emit(Rule("margin", m))
    else if key == "text-align" then Emit(Rule("alignment", Str(value)))
    else if key == "font-weight" then
      if value == "bold" then Emit(Rule("bold", Bool(true))) else Skip
    else if key == "text-decoration" then Emit(Rule("decoration", Str(ToCamelCase(value))))
    else if key == "font-style" then
      if value == "italic" then Emit(Rule("italics", Bool(true))) else Skip
    else if key == "font-family" then Emit(Rule("font", Str(FontName(value))))
    else if key == "color" then Emit(Rule("color", Str(ParseColor(value))))
    else if key == "background-color" then
      Emit(Rule(if tag == "TD" || tag == "TH" || tag == "TR" then "fillColor" else "background", Str(ParseColor(value))))
    else if key == "text-indent" then Emit(Rule("leadingIndent", UnitValue(ConvertToUnit(value))))
    else if key == "white-space" then
      Emit(Rule("preserveLeadingSpaces", Bool(value == "break-spaces" || StartsWith(value, "pre"))))
    else if IsBorderKey(key) then
      if ignore then Skip else Border(key, value)
    else if ignore && (StartsWith(key, "margin-") || key == "width" || key == "height") then Skip
    else if StartsWith(key, "padding") then Skip
    else
      var k := if Contains(key, "-") then ToCamelCase(key) else key;
      if value != "" then Emit(Rule(k, PointsOr(value))) else Skip
  }

  // ---------------------------------------------------------------- the declaration list

  /** The declarations read: `height:Hpx` and `width:Wpx` from the attributes (each only
      when present and not empty), then the `style` attribute split at `;`. */
  function Declarations(e: ElementNode): seq<string> {
    var style := Split(AttrOr(e, "style"), ';');
    var withWidth := if HasAttr(e, "width") then ["width:" + AttrOr(e, "width") + "px"] + style else style;
    if HasAttr(e, "height") then ["height:" + AttrOr(e, "height") + "px"] + withWidth else withWidth
  }

  /** `style.toLowerCase().split(':')` */
  function Definition(decl: string): seq<string> {
    Split(ToLower(decl), ':')
  }

  function Definitions(decls: seq<string>): (defs: seq<seq<string>>)
    ensures |defs| == |decls|
  {
    seq(|decls|, i requires 0 <= i < |decls| => Definition(decls[i]))
  }

  /** The rules pushed so far and the border declarations kept for merging. */
  datatype Scanned = Scanned(rules: seq<Rule>, borders: seq<(string, string)>)

  /** One definition: only `key:value` pairs (exactly one colon) count. */
  function ScanStep(s: Scanned, def: seq<string>, tag: string, ignore: bool): Scanned {
    if |def| != 2 then s
    else
      match Classify(Trim(def[0]), Trim(def[1]), tag, ignore)
      case Emit(r) => s.(rules := s.rules + [r])
      case Border(k, v) => s.(borders := s.borders + [(k, v)])
      case Skip => s
  }

  function Scan(defs: seq<seq<string>>, tag: string, ignore: bool): Scanned
    decreases |defs|
  {
    if defs == [] then Scanned([], [])
    else ScanStep(Scan(defs[..|defs| - 1], tag, ignore), defs[|defs| - 1], tag, ignore)
  }

  // ---------------------------------------------------------------- merging the borders

  /** The two sparse arrays `border` and `borderColor`, four slots each; `Undefined`
      is a slot never written. */
  datatype Sides = Sides(width: seq<Value>, color: seq<Value>)

  const Unset: seq<Value> := [Undefined, Undefined, Undefined, Undefined]

  /** `v` on side `i`, or on all four sides when `i` is -1. */
  function SetSides(s: seq<Value>, i: int, v: Value): (r: seq<Value>)
    requires |s| == 4 && -1 <= i < 4
    ensures |r| == 4
  {
    if i > -1 then s[i := v] else [v, v, v, v]
  }

  /** A border declaration read: the side it names (-1 for all four), `width > 0` for its
      first word and, when it has a third word, the colour made of the words from the third on. */
  datatype BorderDecl = BorderDecl(side: int, width: Value, color: Option<Value>)

  /** A side (or -1), a boolean width and, if any, a string colour. */
  predicate ValidDecl(d: BorderDecl) {
    -1 <= d.side < 4 && d.width.Bool? && (d.color.Some? ==> d.color.value.Str?)
  }

  function ReadBorder(b: (string, string)): (d: BorderDecl)
    ensures ValidDecl(d)
  {
    var properties := Split(b.1, ' ');
    BorderDecl(SideIndex(b.0), Bool(WidthPositive(properties[0])),
               if |properties| > 2 then Some(Str(ParseColor(Join(properties[2..], ' ')))) else None)
  }

  function ReadBorders(bs: seq<(string, string)>): (ds: seq<BorderDecl>)
    ensures |ds| == |bs|
  {
    seq(|bs|, i requires 0 <= i < |bs| => ReadBorder(bs[i]))
  }

  /** One declaration written onto the two arrays. */
  function MergeStep(s: Sides, d: BorderDecl): (r: Sides)
    requires |s.width| == 4 && |s.color| == 4 && ValidDecl(d)
    ensures |r.width| == 4 && |r.color| == 4
  {
    Sides(SetSides(s.width, d.side, d.width),
          if d.color.Some? then SetSides(s.color, d.side, d.color.value) else s.color)
  }

  function MergeAll(ds: seq<BorderDecl>): (r: Sides)
    requires forall i | 0 <= i < |ds| :: ValidDecl(ds[i])
    ensures |r.width| == 4 && |r.color| == 4
    decreases |ds|
  {
    if ds == [] then Sides(Unset, Unset) else MergeStep(MergeAll(ds[..|ds| - 1]), ds[|ds| - 1])
  }

  /** The array has been written (its JavaScript `length` is not 0). */
  predicate AnySet(s: seq<Value>) {
    exists i | 0 <= i < |s| :: !s[i].Undefined?
  }

  /** "Fill the gaps": once anything is set, unset sides take the default. */
  function Fill(s: seq<Value>, d: Value): (r: seq<Value>)
    requires |s| == 4
    ensures |r| == 4
  {
    if AnySet(s) then seq(4, i requires 0 <= i < 4 => if s[i].Undefined? then d else s[i]) else s
  }

  /** The `border` and `borderColor` rules the merged declarations give. */
  function BorderRules(bs: seq<(string, string)>): seq<Rule> {
    SideRules(ReadBorders(bs))
  }

  /** The rules for the declarations read. */
  function SideRules(ds: seq<BorderDecl>): seq<Rule>
    requires forall i | 0 <= i < |ds| :: ValidDecl(ds[i])
  {
    var m := MergeAll(ds);
    (if AnySet(m.width) then [Rule("border", Arr(Fill(m.width, Bool(true))))] else [])
    + (if AnySet(m.color) then [Rule("borderColor", Arr(Fill(m.color, Str("#000000"))))] else [])
  }

  /** What `parseStyle(e, ignore)` returns. */
  function ParseStyleSpec(e: ElementNode, ignore: bool): seq<Rule> {
    var s := Scan(Definitions(Declarations(e)), ToUpper(e.name), ignore);
    s.rules + BorderRules(s.borders)
  }

  // ---------------------------------------------------------------- the method

  /** `parseStyle(element, ignoreProperties)` */
  method ParseStyle(e: ElementNode, ignore: bool) returns (ret: seq<Rule>)
    ensures ret == ParseStyleSpec(e, ignore)
  {
    var style := Split(AttrOr(e, "style"), ';');
    if HasAttr(e, "width") {
      style := ["width:" + AttrOr(e, "width") + "px"] + style;
    }
    if HasAttr(e, "height") {
      style := ["height:" + AttrOr(e, "height") + "px"] + style;
    }
    var borders;
    ret, borders := ScanDefinitions(Definitions(style), ToUpper(e.name), ignore);
    if |borders| > 0 {
      var merged := MergeBorders(borders);
      ret := ret + merged;
    }
  }

  /** The `styleDefs.forEach` loop: rules in declaration order, border declarations set aside. */
  method ScanDefinitions(defs: seq<seq<string>>, tag: string, ignore: bool) returns (ret: seq<Rule>, borders: seq<(string, string)>)
    ensures Scanned(ret, borders) == Scan(defs, tag, ignore)
  {
    ret := [];
    borders := [];
    var i := 0;
    while i < |defs|
      invariant 0 <= i <= |defs|
      invariant Scanned(ret, borders) == Scan(defs[..i], tag, ignore)
    {
      var next := ScanStep(Scanned(ret, borders), defs[i], tag, ignore);
      ret, borders := next.rules, next.borders;
      assert defs[..i + 1][..i] == defs[..i];
      i := i + 1;
    }
    assert defs[..i] == defs;
  }

  /** The `borders.forEach` loop and the gap filling after it. */
  method MergeBorders(borders: seq<(string, string)>) returns (ret: seq<Rule>)
    ensures ret == BorderRules(borders)
  {
    var border, borderColor := MergeDeclarations(borders);
    var filledBorder := FillGaps(border, Bool(true));
    var filledColor := FillGaps(borderColor, Str("#000000"));
    ret := [];
    if AnySet(border) {
      ret := ret + [Rule("border", Arr(filledBorder))];
    }
    if AnySet(borderColor) {
      ret := ret + [Rule("borderColor", Arr(filledColor))];
    }
  }

  /** `borders.forEach(...)`: each declaration writes its side of `border` and `borderColor`. */
  method MergeDeclarations(borders: seq<(string, string)>) returns (border: seq<Value>, borderColor: seq<Value>)
    ensures |border| == 4 && |borderColor| == 4
    ensures Sides(border, borderColor) == MergeAll(ReadBorders(borders))
  {
    ghost var ds := ReadBorders(borders);
    border := Unset;
    borderColor := Unset;
    var j := 0;
    while j < |borders|
      invariant 0 <= j <= |borders|
      invariant |border| == 4 && |borderColor| == 4
      invariant Sides(border, borderColor) == MergeAll(ds[..j])
    {
      border, borderColor := MergeOne(border, borderColor, borders[j]);
      assert ds[..j + 1][..j] == ds[..j];
      j := j + 1;
    }
    assert ds[..j] == ds;
  }

  /** One border declaration: `width > 0` onto its side (or all four) and, when it has a
      third word, the colour made of the words from the third on. */
  method MergeOne(border: seq<Value>, borderColor: seq<Value>, b: (string, string)) returns (border': seq<Value>, borderColor': seq<Value>)
    requires |border| == 4 && |borderColor| == 4
    ensures Sides(border', borderColor') == MergeStep(Sides(border, borderColor), ReadBorder(b))
  {
    var properties := Split(b.1, ' ');
    var index := SideIndex(b.0);
    border' := SetSide(border, index, Bool(WidthPositive(properties[0])));
    borderColor' := borderColor;
    if |properties| > 2 {
      borderColor' := SetSide(borderColor, index, Str(ParseColor(Join(properties[2..], ' '))));
    }
  }

  /** `if (index > -1) a[index] = v; else for (i = 0; i < 4; i++) a[i] = v` */
  method SetSide(a: seq<Value>, index: int, v: Value) returns (r: seq<Value>)
    requires |a| == 4 && -1 <= index < 4
    ensures r == SetSides(a, index, v)
  {
    if index > -1 {
      r := a[index := v];
    } else {
      r := SetAll(a, v);
    }
  }

  /** `for (i = 0; i < 4; i++) a[i] = v` */
  method SetAll(a: seq<Value>, v: Value) returns (r: seq<Value>)
    requires |a| == 4
    ensures r == [v, v, v, v]
  {
    r := a;
    for k := 0 to 4
      invariant |r| == 4
      invariant forall m | 0 <= m < k :: r[m] == v
    {
      r := r[k := v];
    }
  }

  /** `for (i = 0; i < 4; i++) if (a.length > 0 && typeof a[i] === "undefined") a[i] = d` */
  method FillGaps(a: seq<Value>, d: Value) returns (r: seq<Value>)
    requires |a| == 4
    ensures r == Fill(a, d)
  {
    r := a;
    for k := 0 to 4
      invariant |r| == 4
      invariant AnySet(r) == AnySet(a)
      invariant forall m | 0 <= m < k :: r[m] == Fill(a, d)[m]
      invariant forall m | k <= m < 4 :: r[m] == a[m]
    {
      if AnySet(r) && r[k].Undefined? {
        ghost var j :| 0 <= j < |r| && !r[j].Undefined?;
        r := r[k := d];
        assert !r[j].Undefined?;
      }
    }
  }

  // ---------------------------------------------------------------- margin properties

  /** The reordering uses every part, and nothing but the parts. */
  lemma {:induction false} MarginOrderParts(parts: seq<string>)
    ensures forall i | 0 <= i < |parts| :: exists k | 0 <= k < |MarginOrder(parts)| :: MarginOrder(parts)[k] == parts[i]
    ensures forall k | 0 <= k < |MarginOrder(parts)| :: exists i | 0 <= i < |parts| :: MarginOrder(parts)[k] == parts[i]
  {
    var o := MarginOrder(parts);
    forall i | 0 <= i < |parts| ensures exists k | 0 <= k < |o| :: o[k] == parts[i] {
      if |parts| == 1 {
        assert o[0] == parts[i];
      } else if |parts| == 2 {
        assert o[1 - i] == parts[i];
      } else if |parts| == 3 {
        if i == 0 { assert o[1] == parts[i]; }
        else if i == 1 { assert o[0] == parts[i]; }
        else { assert o[3] == parts[i]; }
      } else if |parts| == 4 {
        if i == 3 { assert o[0] == parts[i]; } else { assert o[i + 1] == parts[i]; }
      } else {
        assert o[i] == parts[i];
      }
    }
    forall k | 0 <= k < |o| ensures exists i | 0 <= i < |parts| :: o[k] == parts[i] {
      if |parts| == 1 {
        assert o[k] == parts[0];
      } else if |parts| == 2 {
        assert o[k] == parts[1 - k];
      } else if |parts| == 3 {
        if k == 0 || k == 2 { assert o[k] == parts[1]; }
        else if k == 1 { assert o[k] == parts[0]; }
        else { assert o[k] == parts[2]; }
      } else if |parts| == 4 {
        if k == 0 { assert o[k] == parts[3]; } else { assert o[k] == parts[k - 1]; }
      } else {
        assert o[k] == parts[k];
      }
    }
  }

  /** The conversion of a list of parts fails exactly when one part is refused. */
  lemma {:induction false} PointsRefused(p: seq<string>)
    ensures Points(p).None? <==> exists i | 0 <= i < |p| :: ConvertToUnit(p[i]).None?
    decreases |p|
  {
    if p != [] {
      PointsRefused(p[1..]);
      if exists i | 0 <= i < |p[1..]| :: ConvertToUnit(p[1..][i]).None? {
        var i :| 0 <= i < |p[1..]| && ConvertToUnit(p[1..][i]).None?;
        assert p[1..][i] == p[i + 1];
      }
      if exists i | 0 <= i < |p| :: ConvertToUnit(p[i]).None? {
        var i :| 0 <= i < |p| && ConvertToUnit(p[i]).None?;
        if i > 0 { assert p[1..][i - 1] == p[i]; }
      }
    }
  }

  /** The margin is refused exactly when one of the parts is not a length. */
  lemma {:induction false} MarginRefused(parts: seq<string>)
    ensures MarginOf(parts).None? <==> exists i | 0 <= i < |parts| :: ConvertToUnit(parts[i]).None?
  {
    var o := MarginOrder(parts);
    PointsRefused(o);
    MarginOrderParts(parts);
    if exists i | 0 <= i < |parts| :: ConvertToUnit(parts[i]).None? {
      var i :| 0 <= i < |parts| && ConvertToUnit(parts[i]).None?;
      var k :| 0 <= k < |o| && o[k] == parts[i];
      assert ConvertToUnit(o[k]).None?;
    }
  }

  /** When every part converts, the list of their values in points. */
  lemma {:induction false} PointsAccepted(p: seq<string>, xs: seq<real>)
    requires |xs| == |p|
    requires forall i | 0 <= i < |p| :: ConvertToUnit(p[i]) == Some(xs[i])
    ensures Points(p).Some? && |Points(p).value| == |xs|
    ensures forall i | 0 <= i < |xs| :: Points(p).value[i] == Num(xs[i])
    decreases |p|
  {
    if p != [] {
      assert forall i | 0 <= i < |p[1..]| :: ConvertToUnit(p[1..][i]) == Some(xs[1..][i]) by {
        forall i | 0 <= i < |p[1..]| ensures ConvertToUnit(p[1..][i]) == Some(xs[1..][i]) {
          assert p[1..][i] == p[i + 1] && xs[1..][i] == xs[i + 1];
        }
      }
      PointsAccepted(p[1..], xs[1..]);
      var rest := Points(p[1..]).value;
      assert Points(p) == Some([Num(xs[0])] + rest);
    }
  }

  /** One value: the same margin on all four sides. */
  lemma {:induction false} MarginOne(a: string, x: real)
    requires ConvertToUnit(a) == Some(x)
    ensures MarginOf([a]) == Some(Arr([Num(x), Num(x), Num(x), Num(x)]))
  {
    var o := MarginOrder([a]);
    assert o == [a, a, a, a];
    PointsAccepted(o, [x, x, x, x]);
    assert Points(o).value == [Num(x), Num(x), Num(x), Num(x)];
  }

  /** Two values `vertical horizontal`: only `[horizontal, vertical]`. */
  lemma {:induction false} MarginTwo(v: string, h: string, y: real, x: real)
    requires ConvertToUnit(v) == Some(y) && ConvertToUnit(h) == Some(x)
    ensures MarginOf([v, h]) == Some(Arr([Num(x), Num(y)]))
  {
    var o := MarginOrder([v, h]);
    assert o == [h, v];
    PointsAccepted(o, [x, y]);
    assert Points(o).value == [Num(x), Num(y)];
  }

  /** Three values `top horizontal bottom`: `[horizontal, top, horizontal, bottom]`. */
  lemma {:induction false} MarginThree(t: string, h: string, b: string, y: real, x: real, z: real)
    requires ConvertToUnit(t) == Some(y) && ConvertToUnit(h) == Some(x) && ConvertToUnit(b) == Some(z)
    ensures MarginOf([t, h, b]) == Some(Arr([Num(x), Num(y), Num(x), Num(z)]))
  {
    var o := MarginOrder([t, h, b]);
    assert o == [h, t, h, b];
    PointsAccepted(o, [x, y, x, z]);
    assert Points(o).value == [Num(x), Num(y), Num(x), Num(z)];
  }

  /** Four values `top right bottom left`: `[left, top, right, bottom]`. */
  lemma {:induction false} MarginFour(t: string, r: string, b: string, l: string, y: real, x: real, z: real, w: real)
    requires ConvertToUnit(t) == Some(y) && ConvertToUnit(r) == Some(x)
    requires ConvertToUnit(b) == Some(z) && ConvertToUnit(l) == Some(w)
    ensures MarginOf([t, r, b, l]) == Some(Arr([Num(w), Num(y), Num(x), Num(z)]))
  {
    var o := MarginOrder([t, r, b, l]);
    assert o == [l, t, r, b];
    PointsAccepted(o, [w, y, x, z]);
    assert Points(o).value == [Num(w), Num(y), Num(x), Num(z)];
  }

  /** A `margin` value written as its space-separated parts is read back part by part. */
  lemma {:induction false} MarginOfJoin(parts: seq<string>)
    requires |parts| >= 1 && forall i | 0 <= i < |parts| :: ' ' !in parts[i]
    ensures MarginValue(Join(parts, ' ')) == MarginOf(parts)
  {
    SplitJoin(parts, ' ');
  }

  // ---------------------------------------------------------------- border properties

  /** The declaration writes the width of side `i`. */
  predicate Covers(d: BorderDecl, i: int) {
    d.side == -1 || d.side == i
  }

  /** The declaration writes the colour of side `i`. */
  predicate CoversColor(d: BorderDecl, i: int) {
    d.color.Some? && Covers(d, i)
  }

  /** Each side's width is the one of the last declaration that names it (or all sides). */
  lemma {:induction false} LastWidth(ds: seq<BorderDecl>, i: int, k: int)
    requires forall j | 0 <= j < |ds| :: ValidDecl(ds[j])
    requires 0 <= i < 4 && 0 <= k < |ds| && Covers(ds[k], i)
    requires forall j | k < j < |ds| :: !Covers(ds[j], i)
    ensures MergeAll(ds).width[i] == ds[k].width
    decreases |ds|
  {
    var init := ds[..|ds| - 1];
    if k < |ds| - 1 {
      assert forall j | k < j < |init| :: !Covers(init[j], i) by {
        forall j | k < j < |init| ensures !Covers(init[j], i) { assert init[j] == ds[j]; }
      }
      assert init[k] == ds[k];
      LastWidth(init, i, k);
    }
  }

  /** A side no declaration names keeps no width. */
  lemma {:induction false} NoWidth(ds: seq<BorderDecl>, i: int)
    requires forall j | 0 <= j < |ds| :: ValidDecl(ds[j])
    requires 0 <= i < 4 && forall j | 0 <= j < |ds| :: !Covers(ds[j], i)
    ensures MergeAll(ds).width[i] == Undefined
    decreases |ds|
  {
    if ds != [] {
      var init := ds[..|ds| - 1];
      assert forall j | 0 <= j < |init| :: !Covers(init[j], i) by {
        forall j | 0 <= j < |init| ensures !Covers(init[j], i) { assert init[j] == ds[j]; }
      }
      NoWidth(init, i);
    }
  }

  /** Each side's colour is the one of the last declaration with a colour that names it. */
  lemma {:induction false} LastColor(ds: seq<BorderDecl>, i: int, k: int)
    requires forall j | 0 <= j < |ds| :: ValidDecl(ds[j])
    requires 0 <= i < 4 && 0 <= k < |ds| && CoversColor(ds[k], i)
    requires forall j | k < j < |ds| :: !CoversColor(ds[j], i)
    ensures MergeAll(ds).color[i] == ds[k].color.value
    decreases |ds|
  {
    var init := ds[..|ds| - 1];
    if k < |ds| - 1 {
      assert forall j | k < j < |init| :: !CoversColor(init[j], i) by {
        forall j | k < j < |init| ensures !CoversColor(init[j], i) { assert init[j] == ds[j]; }
      }
      assert init[k] == ds[k];
      LastColor(init, i, k);
    }
  }

  /** A side no declaration with a colour names keeps no colour. */
  lemma {:induction false} NoColor(ds: seq<BorderDecl>, i: int)
    requires forall j | 0 <= j < |ds| :: ValidDecl(ds[j])
    requires 0 <= i < 4 && forall j | 0 <= j < |ds| :: !CoversColor(ds[j], i)
    ensures MergeAll(ds).color[i] == Undefined
    decreases |ds|
  {
    if ds != [] {
      var init := ds[..|ds| - 1];
      assert forall j | 0 <= j < |init| :: !CoversColor(init[j], i) by {
        forall j | 0 <= j < |init| ensures !CoversColor(init[j], i) { assert init[j] == ds[j]; }
      }
      NoColor(init, i);
    }
  }

  /** The last declaration has written its width somewhere, and a colour was written
      exactly when some declaration has one. */
  lemma {:induction false} Written(ds: seq<BorderDecl>)
    requires forall j | 0 <= j < |ds| :: ValidDecl(ds[j])
    ensures AnySet(MergeAll(ds).width) <==> ds != []
    ensures AnySet(MergeAll(ds).color) <==> exists j | 0 <= j < |ds| :: ds[j].color.Some?
    decreases |ds|
  {
    if ds != [] {
      var init := ds[..|ds| - 1];
      var d := ds[|ds| - 1];
      var side := if d.side == -1 then 0 else d.side;
      assert MergeAll(ds).width[side] == d.width;
      Written(init);
      if d.color.Some? {
        assert MergeAll(ds).color[side] == d.color.value;
      } else {
        assert MergeAll(ds).color == MergeAll(init).color;
        assert (exists j | 0 <= j < |ds| :: ds[j].color.Some?) ==> exists j | 0 <= j < |init| :: init[j].color.Some? by {
          if exists j | 0 <= j < |ds| :: ds[j].color.Some? {
            var j :| 0 <= j < |ds| && ds[j].color.Some?;
            assert init[j] == ds[j];
          }
        }
      }
      if exists j | 0 <= j < |init| :: init[j].color.Some? {
        var j :| 0 <= j < |init| && init[j].color.Some?;
        assert ds[j] == init[j];
      }
    } else {
      assert MergeAll(ds) == Sides(Unset, Unset);
    }
  }

  /** At most a `border` rule and then a `borderColor` rule: the first exactly when there
      are declarations, the second exactly when one of them has a colour. */
  lemma {:induction false} SideRulesShape(ds: seq<BorderDecl>)
    requires forall j | 0 <= j < |ds| :: ValidDecl(ds[j])
    ensures var r := SideRules(ds);
      |r| <= 2
      && (ds == [] <==> r == [])
      && (ds != [] ==> r[0].key == "border" && r[0].value.Arr? && |r[0].value.items| == 4)
      && ((exists j | 0 <= j < |ds| :: ds[j].color.Some?) <==>
            (r != [] && r[|r| - 1].key == "borderColor"))
      && (r != [] && r[|r| - 1].key == "borderColor" ==>
            r[|r| - 1].value.Arr? && |r[|r| - 1].value.items| == 4)
  {
    Written(ds);
  }

  /** The width of side `i` in the `border` rule: the last declaration naming the side
      decides; a side none names is `true`. */
  lemma {:induction false} BorderRuleSide(ds: seq<BorderDecl>, i: int)
    requires forall j | 0 <= j < |ds| :: ValidDecl(ds[j])
    requires ds != [] && 0 <= i < 4
    ensures |SideRules(ds)| >= 1 && SideRules(ds)[0].key == "border"
    ensures SideRules(ds)[0].value.Arr? && |SideRules(ds)[0].value.items| == 4
    ensures (forall j | 0 <= j < |ds| :: !Covers(ds[j], i)) ==> SideRules(ds)[0].value.items[i] == Bool(true)
    ensures forall k | 0 <= k < |ds| && Covers(ds[k], i) && (forall j | k < j < |ds| :: !Covers(ds[j], i)) ::
      SideRules(ds)[0].value.items[i] == ds[k].width
  {
    Written(ds);
    if forall j | 0 <= j < |ds| :: !Covers(ds[j], i) {
      NoWidth(ds, i);
    }
    forall k | 0 <= k < |ds| && Covers(ds[k], i) && (forall j | k < j < |ds| :: !Covers(ds[j], i))
      ensures SideRules(ds)[0].value.items[i] == ds[k].width
    {
      LastWidth(ds, i, k);
    }
  }

  /** The colour of side `i` in the `borderColor` rule: the last declaration with a colour
      naming the side decides; a side none names is `#000000`. */
  lemma {:induction false} BorderColorSide(ds: seq<BorderDecl>, i: int)
    requires forall j | 0 <= j < |ds| :: ValidDecl(ds[j])
    requires (exists j | 0 <= j < |ds| :: ds[j].color.Some?) && 0 <= i < 4
    ensures var r := SideRules(ds); |r| == 2 && r[1].key == "borderColor" && r[1].value.Arr? && |r[1].value.items| == 4
    ensures (forall j | 0 <= j < |ds| :: !CoversColor(ds[j], i)) ==> SideRules(ds)[1].value.items[i] == Str("#000000")
    ensures forall k | 0 <= k < |ds| && CoversColor(ds[k], i) && (forall j | k < j < |ds| :: !CoversColor(ds[j], i)) ::
      SideRules(ds)[1].value.items[i] == ds[k].color.value
  {
    Written(ds);
    if forall j | 0 <= j < |ds| :: !CoversColor(ds[j], i) {
      NoColor(ds, i);
    }
    forall k | 0 <= k < |ds| && CoversColor(ds[k], i) && (forall j | k < j < |ds| :: !CoversColor(ds[j], i))
      ensures SideRules(ds)[1].value.items[i] == ds[k].color.value
    {
      LastColor(ds, i, k);
    }
  }

  lemma BorderSide(side: string)
    ensures ("border" + side)[6..6 + |side|] == side
  {
  }

  /** The side each border key names. */
  lemma {:induction false} SideOfBorder(k: string)
    requires k == "border"
    ensures SideIndex(k) == -1
  {
    assert !Contains(k, "-left") by { MissingChar(k, "-left", '-'); }
    assert !Contains(k, "-top") by { MissingChar(k, "-top", '-'); }
    assert !Contains(k, "-right") by { MissingChar(k, "-right", '-'); }
    assert !Contains(k, "-bottom") by { MissingChar(k, "-bottom", '-'); }
  }

  /** The side suffixes in the order `SideIndex` tests them. */
  const SideNames: seq<string> := ["-left", "-top", "-right", "-bottom"]

  /** Each of the four side keys names its side: `border-left` 0, `border-top` 1,
      `border-right` 2, `border-bottom` 3. */
  lemma {:induction false} SideOfNamed(i: nat)
    requires i < 4
    ensures SideIndex("border" + SideNames[i]) == i
  {
    var k := "border" + SideNames[i];
    SideFound(k, SideNames[i]);
    if i > 0 { MissingChar(k, "-left", 'l'); }
    if i > 1 { MissingChar(k, "-top", 'p'); }
    if i > 2 { MissingChar(k, "-right", 'i'); }
  }

  /** `border` followed by a side contains that side. */
  lemma SideFound(k: string, side: string)
    requires k == "border" + side
    ensures Contains(k, side)
  {
    BorderSide(side);
    ContainsAt(k, side, 6);
  }

  /** A declaration that names no side sets all four sides alike. */
  lemma {:induction false} AllSides(d: BorderDecl)
    requires ValidDecl(d) && d.side == -1
    ensures |SideRules([d])| >= 1 && SideRules([d])[0] == Rule("border", Arr([d.width, d.width, d.width, d.width]))
  {
    assert [d][..0] == [];
    Written([d]);
    var w := [d.width, d.width, d.width, d.width];
    assert MergeAll([d]).width == w;
    assert Fill(w, Bool(true)) == w;
  }

  /** A declaration naming one side sets that side; the other three get `true`. */
  lemma {:induction false} OneSide(d: BorderDecl)
    requires ValidDecl(d) && 0 <= d.side
    ensures var t := Bool(true);
      |SideRules([d])| >= 1 && SideRules([d])[0] == Rule("border", Arr([t, t, t, t][d.side := d.width]))
  {
    assert [d][..0] == [];
    Written([d]);
    var t := Bool(true);
    assert Fill(Unset[d.side := d.width], t) == [t, t, t, t][d.side := d.width];
  }

  /** `border: <width> ...` sets all four sides alike. */
  lemma {:induction false} PlainBorder(key: string, value: string)
    requires key == "border"
    ensures var w := Bool(WidthPositive(Split(value, ' ')[0]));
      |BorderRules([(key, value)])| >= 1
      && BorderRules([(key, value)])[0] == Rule("border", Arr([w, w, w, w]))
  {
    SideOfBorder(key);
    var d := ReadBorder((key, value));
    assert ReadBorders([(key, value)]) == [d];
    AllSides(d);
  }

  // ---------------------------------------------------------------- inherited styles (`ignore`)

  /** A string with a dash, camel-cased, still has a dash or has an upper-case letter. */
  lemma {:induction false} CamelCaseMarked(s: string)
    requires Contains(s, "-")
    ensures exists i | 0 <= i < |ToCamelCase(s)| :: ToCamelCase(s)[i] == '-' || IsAsciiUpper(ToCamelCase(s)[i])
    decreases |s|
  {
    var r := ToCamelCase(s);
    if s[0] == '-' {
      assert r[0] == '-' || IsAsciiUpper(r[0]);
    } else {
      assert !StartsWith(s, "-");
      CamelCaseMarked(s[1..]);
      var t := ToCamelCase(s[1..]);
      assert r == [s[0]] + t;
      var i :| 0 <= i < |t| && (t[i] == '-' || IsAsciiUpper(t[i]));
      assert r[i + 1] == t[i];
    }
  }

  /** The keys an ancestor's style never sets. */
  predicate Descendent(key: string) {
    key != "margin" && key != "width" && key != "height" && key != "border"
  }

  /** A key with a dash or an upper-case letter is none of those. */
  lemma {:induction false} MarkedDescendent(r: string, i: nat)
    requires i < |r| && (r[i] == '-' || IsAsciiUpper(r[i]))
    ensures Descendent(r)
  {
  }

  /** With `ignore` set a declaration is never kept as a border, and the rule it emits,
      if any, is not a margin, width, height or border. */
  lemma {:induction false} ClassifyIgnored(key: string, value: string, tag: string)
    ensures var c := Classify(key, value, tag, true);
      !c.Border? && (c.Emit? ==> Descendent(c.rule.key))
  {
    var c := Classify(key, value, tag, true);
    if c.Emit? && Contains(key, "-") && c.rule.key == ToCamelCase(key) {
      CamelCaseMarked(key);
      var r := ToCamelCase(key);
      var i :| 0 <= i < |r| && (r[i] == '-' || IsAsciiUpper(r[i]));
      MarkedDescendent(r, i);
    } else if c.Emit? {
      EmittedKeys(key, value, tag);
    }
  }

  /** The rule key of an emitted declaration, when `ignore` is set and the key is not
      camel-cased. */
  lemma EmittedKeys(key: string, value: string, tag: string)
    requires Classify(key, value, tag, true).Emit?
    ensures var k := Classify(key, value, tag, true).rule.key;
      k == ToCamelCase(key) || k == key || k in {"alignment", "bold", "decoration", "italics", "font",
        "color", "fillColor", "background", "leadingIndent", "preserveLeadingSpaces"}
    ensures Classify(key, value, tag, true).rule.key == key ==> Descendent(key)
  {
  }

  lemma {:induction false} ScanIgnored(defs: seq<seq<string>>, tag: string)
    ensures var s := Scan(defs, tag, true);
      s.borders == [] && forall i | 0 <= i < |s.rules| :: Descendent(s.rules[i].key)
    decreases |defs|
  {
    if defs != [] {
      ScanIgnored(defs[..|defs| - 1], tag);
      var def := defs[|defs| - 1];
      if |def| == 2 {
        ClassifyIgnored(Trim(def[0]), Trim(def[1]), tag);
      }
    }
  }

  /** `parseStyle(e, true)`, as applied to an ancestor, yields no margin, width, height or
      border rule, whatever the element declares. */
  lemma {:induction false} ParseStyleIgnored(e: ElementNode)
    ensures forall i | 0 <= i < |ParseStyleSpec(e, true)| :: Descendent(ParseStyleSpec(e, true)[i].key)
  {
    ScanIgnored(Definitions(Declarations(e)), ToUpper(e.name));
    assert BorderRules([]) == [] by {
      assert ReadBorders([]) == [];
      assert !AnySet(Unset);
    }
  }

  /** `s` does not start with `p`: they differ at `i`. */
  lemma {:induction false} Differs(s: string, p: string, i: nat)
    requires i < |s| && i < |p| && s[i] != p[i]
    ensures !StartsWith(s, p)
  {
  }

  /** Camel-casing text with one dash followed by a letter. */
  lemma {:induction false} CamelCaseAt(a: string, c: char, b: string)
    requires '-' !in a && '-' !in b && IsAsciiLower(c)
    ensures ToCamelCase(a + ['-', c] + b) == a + [UpperChar(c)] + b
    decreases |a|
  {
    if a == [] {
      assert ['-', c] + b == [a + ['-', c] + b][0];
      assert (a + ['-', c] + b)[2..] == b;
      CapitalizeAfterIdentity(b, '-');
    } else {
      CamelCaseAt(a[1..], c, b);
      assert (a + ['-', c] + b)[1..] == a[1..] + ['-', c] + b;
    }
  }

  /** A key none of the named cases takes is camel-cased when it has a dash, and passed
      on with its value in points when that converts, or as written. */
  lemma {:induction false} GenericKey(key: string, value: string, tag: string, ignore: bool)
    requires key != "margin" && key != "text-align" && key != "font-weight" && key != "text-decoration"
    requires key != "font-style" && key != "font-family" && key != "color" && key != "background-color"
    requires key != "text-indent" && key != "white-space" && !IsBorderKey(key)
    requires !(ignore && (StartsWith(key, "margin-") || key == "width" || key == "height"))
    requires !StartsWith(key, "padding") && value != ""
    ensures Classify(key, value, tag, ignore)
         == Emit(Rule(if Contains(key, "-") then ToCamelCase(key) else key, PointsOr(value)))
  {
  }

  /** `border-color` is not one of the border keys and no named case takes it, so
      `GenericKey` applies: it is passed on as `borderColor`, even from an ancestor. */
  lemma {:induction false} BorderColorKey(k: string)
    requires k == "border-color"
    ensures !IsBorderKey(k) && !StartsWith(k, "margin-") && !StartsWith(k, "padding")
    ensures |k| == 12 && Contains(k, "-") && ToCamelCase(k) == "borderColor"
  {
    Differs(k, "border-left", 7);
    Differs(k, "border-top", 7);
    Differs(k, "border-right", 7);
    Differs(k, "border-bottom", 7);
    Differs(k, "margin-", 0);
    Differs(k, "padding", 0);
    ContainsAt(k, "-", 6);
    assert k == "border" + ['-', 'c'] + "olor";
    CamelCaseAt("border", 'c', "olor");
  }

  // ---------------------------------------------------------------- font names

  lemma {:induction false} StripNoQuote(s: string, p: nat)
    ensures forall i | 0 <= i < |StripFrom(s, p)| :: StripFrom(s, p)[i] != '"'
    decreases |s| - p
  {
    if p < |s| {
      if s[p] == '"' {
        StripNoQuote(s, p + 1);
      } else if p == 0 && s[0] == '\'' {
        StripNoQuote(s, 1);
      } else if p == 0 {
        var k := |s| - |TrimStart(s)|;
        if k > 0 { StripNoQuote(s, k); } else { StripNoQuote(s, 1); }
      } else {
        StripNoQuote(s, p + 1);
      }
    }
  }

  lemma {:induction false} CapitalizeKeeps(s: string, sep: char, c: char)
    requires !IsAsciiUpper(c) && forall i | 0 <= i < |s| :: s[i] != c
    ensures forall i | 0 <= i < |CapitalizeAfter(s, sep)| :: CapitalizeAfter(s, sep)[i] != c
    decreases |s|
  {
    if s != [] {
      if |s| >= 2 && s[0] == sep && IsAsciiLower(s[1]) {
        CapitalizeKeeps(s[2..], sep, c);
        assert CapitalizeAfter(s, sep) == [UpperChar(s[1])] + CapitalizeAfter(s[2..], sep);
      } else {
        CapitalizeKeeps(s[1..], sep, c);
        assert CapitalizeAfter(s, sep) == [s[0]] + CapitalizeAfter(s[1..], sep);
      }
    }
  }

  /** The font name has no double quote, does not start with a lower-case letter, and
      no space in it is followed by a lower-case letter. */
  lemma {:induction false} FontNameShape(value: string)
    ensures var f := FontName(value);
      (forall i | 0 <= i < |f| :: f[i] != '"')
      && (f != [] ==> !IsAsciiLower(f[0]))
      && NoSepLower(f, ' ')
  {
    var stripped := StripFrom(Split(value, ',')[0], 0);
    StripNoQuote(Split(value, ',')[0], 0);
    var head := CapitalizeHead(stripped);
    assert forall i | 0 <= i < |head| :: head[i] != '"' by {
      if stripped != [] && IsAsciiLower(stripped[0]) {
        assert head == [UpperChar(stripped[0])] + stripped[1..];
      }
    }
    CapitalizeKeeps(head, ' ', '"');
    CapitalizeAfterComplete(head, ' ');
    if head != [] {
      CapitalizeFirst(head, ' ');
    }
  }

  // ---------------------------------------------------------------- border widths

  lemma {:induction false} WidthReplaceInteger(d: string, u: string)
    requires d != [] && AllDigits(d)
    requires u != [] && IsUnitHead(u[0]) && forall i | 0 <= i < |u| :: !IsDigit(u[i])
    ensures WidthReplace(d + u) == d + " "
  {
    var s := d + u;
    NumeralRuns(d, "", u);
    assert s[0] == d[0] && s[|d|] == u[0];
    assert s[|d|..] == u && NonDigitRun(u) == |u|;
    assert s[..|d|] == d;
    assert s[|d| + |u|..] == [];
  }

  /** A width written as an integer and a unit (`1px`, `2pt`) is that integer, and it
      counts exactly when it is above zero. */
  lemma {:induction false} WidthOfLength(d: string, u: string)
    requires d != [] && AllDigits(d)
    requires u != [] && IsUnitHead(u[0]) && forall i | 0 <= i < |u| :: !IsDigit(u[i])
    ensures BorderWidth(d + u) == d
    ensures WidthPositive(d + u) <==> DigitsValue(d) > 0
  {
    WidthReplaceInteger(d, u);
    assert Numeral(d, "") == d;
    NumeralEnds(d, "", "");
    assert d + "" == d;
    assert TrimStart(d + " ") == d + " ";
    assert (d + " ")[..|d + " "| - 1] == d;
    TrimNoSpace(d);
    NumeralToNumber(d, "", "");
    assert DecimalValue(d, "") == DigitsValue(d) as real;
  }

  /** A fractional width with nothing after it is not a number once the replace has run:
      `1.5` becomes `1 5`, so `border: 1.5` counts as no border. */
  lemma {:induction false} FractionalWidthAlone(t: string)
    requires t == "1.5"
    ensures BorderWidth(t) == "1 5" && !WidthPositive(t)
  {
    assert WidthReplace(t) == "1 5" by {
      assert DigitRun(t) == 1;
      assert DigitRun(t[2..]) == 1;
      assert WidthReplace(t[2..]) == "5";
    }
    assert BorderWidth(t) == "1 5" by {
      assert TrimStart("1 5") == "1 5";
      assert TrimEnd("1 5") == "1 5";
    }
    assert ToNumber("1 5") == NaN by {
      assert Trim("1 5") == "1 5";
      NoRadixPrefix("1 5");
      assert DigitRun("1 5") == 1;
      assert ExponentPart(" 5").None?;
    }
  }
}
