/**
  `applyStyle`: the target object receives, parent by parent from the outermost, the
  default properties of the parent's tag and then the rules of the parent's inline
  style. Margins, widths, heights and borders come only from the last parent (the
  element itself, when it is on the list), except that a TR passes on its whole
  inline style. `decoration` accumulates into a list; every other key keeps the last
  value written. Finally `style` is set to the class list: an `html-<tag>` token per
  parent, put in front unless it is already there (`html-body` never), and the
  tokens of each parent's `class` attribute, appended.
 */
module Cascade {
  import opened Strings
  import opened Values
  import opened Markup
  import opened Style
  import opened Defaults

  /** The items of an array value; none when `Array.isArray` fails. */
  function Items(v: Value): seq<Value> {
    if v.Arr? then v.items else []
  }

  /** `if (!Array.isArray(ret[key])) ret[key] = []; ret[key].push(v)` */
  function Push(ret: Props, key: string, v: Value): Props {
    ret[key := Arr(Items(Field(ret, key)) + [v])]
  }

  /** One `{key, value}` rule written into the target. */
  function ApplyRule(ret: Props, rule: Rule): Props {
    if rule.key == "decoration" then Push(ret, rule.key, rule.value) else ret[rule.key := rule.value]
  }

  /** `style.forEach(…)`: the rules written in order. */
  function ApplyRules(ret: Props, rules: seq<Rule>): Props
    decreases |rules|
  {
    if rules == [] then ret else ApplyRule(ApplyRules(ret, rules[..|rules| - 1]), rules[|rules| - 1])
  }

  /** Whether a default property is passed on: every one from the last parent, and from
      the others only those whose name mentions neither `margin` nor `border`. */
  predicate Inherited(key: string, ignore: bool) {
    !ignore || (!Contains(key, "margin") && !Contains(key, "border"))
  }

  /** The target after the loop over the parent's default properties `d`. Each key is
      written from its own default alone, so the order of `for … in` does not matter. */
  function CopyDefaultsSpec(ret: Props, d: Props, ignore: bool): Props {
    map k | k in ret.Keys + d.Keys && (k in ret || Inherited(k, ignore)) ::
      if k in d && Inherited(k, ignore) then
        (if k == "decoration" then Arr(Items(Field(ret, k)) + [d[k]]) else d[k])
      else ret[k]
  }

  /** The default properties of the parent's tag; none for a tag without defaults. */
  function TagDefaults(defaults: StyleTable, parent: ElementNode): Props {
    var name := ToLower(parent.name);
    if name in defaults then defaults[name] else map[]
  }

  /** The inline rules of every parent: a TR's are read in full whatever its place, every
      other parent but the last reads its own with `ignore` set. */
  function InlineRules(parents: seq<ElementNode>): (r: seq<seq<Rule>>)
    ensures |r| == |parents|
  {
    seq(|parents|, i requires 0 <= i < |parents| =>
      ParseStyleSpec(parents[i], ToLower(parents[i].name) != "tr" && i != |parents| - 1))
  }

  /** What one parent contributes: its tag's defaults `d`, then its inline `rules`. */
  function ParentStep(ret: Props, d: Props, ignore: bool, rules: seq<Rule>): Props {
    ApplyRules(CopyDefaultsSpec(ret, d, ignore), rules)
  }

  /** The target after the first `n` parents, whose inline rules are `inline`. */
  function StyleFold(ret: Props, parents: seq<ElementNode>, inline: seq<seq<Rule>>, n: nat, defaults: StyleTable): Props
    requires n <= |parents| == |inline|
    decreases n
  {
    if n == 0 then ret
    else ParentStep(StyleFold(ret, parents, inline, n - 1, defaults),
      TagDefaults(defaults, parents[n - 1]), n - 1 != |parents| - 1, inline[n - 1])
  }

  // ---------------------------------------------------------------- the class list

  function HtmlClass(parent: ElementNode): string {
    "html-" + ToLower(parent.name)
  }

  /** The non-empty parts of a space-separated list (`if (p) cssClass.push(p)`). */
  function NonEmpty(parts: seq<string>): seq<string>
    decreases |parts|
  {
    if parts == [] then []
    else (if parts[0] == "" then [] else [parts[0]]) + NonEmpty(parts[1..])
  }

  /** The tokens of the parent's `class` attribute. */
  function ClassTokens(parent: ElementNode): seq<string> {
    NonEmpty(Split(AttrOr(parent, "class"), ' '))
  }

  /** The class list after one more parent. */
  function AddClasses(css: seq<string>, parent: ElementNode): seq<string> {
    var h := HtmlClass(parent);
    (if h != "html-body" && h !in css then [h] + css else css) + ClassTokens(parent)
  }

  /** The class list after the first `n` parents. */
  function ClassFold(parents: seq<ElementNode>, n: nat): seq<string>
    requires n <= |parents|
    decreases n
  {
    if n == 0 then [] else AddClasses(ClassFold(parents, n - 1), parents[n - 1])
  }

  function Strs(css: seq<string>): (v: seq<Value>)
    ensures |v| == |css| && forall i | 0 <= i < |css| :: v[i] == Str(css[i])
  {
    seq(|css|, i requires 0 <= i < |css| => Str(css[i]))
  }

  /** What `applyStyle({ret, parents})` returns. */
  function ApplyStyleSpec(ret: Props, parents: seq<ElementNode>, defaults: StyleTable): Props {
    StyleFold(ret, parents, InlineRules(parents), |parents|, defaults)["style" := Arr(Strs(ClassFold(parents, |parents|)))]
  }

  // ---------------------------------------------------------------- the loops

  /** `applyStyle`, the `parents.forEach` loop. */
  method ApplyStyle(ret: Props, parents: seq<ElementNode>, defaults: StyleTable) returns (r: Props)
    ensures r == ApplyStyleSpec(ret, parents, defaults)
  {
    var cssClass: seq<string> := [];
    r := ret;
    var parentIndex := 0;
    while parentIndex < |parents|
      invariant 0 <= parentIndex <= |parents|
      invariant cssClass == ClassFold(parents, parentIndex)
      invariant r == StyleFold(ret, parents, InlineRules(parents), parentIndex, defaults)
    {
      cssClass := NextClasses(parents, parentIndex, cssClass);
      r := NextStyles(ret, parents, parentIndex, defaults, r);
      parentIndex := parentIndex + 1;
    }
    r := r["style" := Arr(Strs(cssClass))];
  }

  /** One turn of the loop, the class list. */
  method NextClasses(parents: seq<ElementNode>, n: nat, css: seq<string>) returns (r: seq<string>)
    requires n < |parents| && css == ClassFold(parents, n)
    ensures r == ClassFold(parents, n + 1)
  {
    r := ParentClasses(css, parents[n]);
  }

  /** One turn of the loop, the target: the defaults of the tag, then the inline style. */
  method NextStyles(ret: Props, parents: seq<ElementNode>, n: nat, defaults: StyleTable, cur: Props) returns (r: Props)
    requires n < |parents| && cur == StyleFold(ret, parents, InlineRules(parents), n, defaults)
    ensures r == StyleFold(ret, parents, InlineRules(parents), n + 1, defaults)
  {
    var parentNodeName := ToLower(parents[n].name);
    var ignore := n != |parents| - 1;
    r := cur;
    if parentNodeName in defaults {
      r := CopyDefaults(r, defaults[parentNodeName], ignore);
    } else {
      CopyNothing(cur, ignore);
    }
    var style := InlineStyle(parents, n);
    r := WriteRules(r, style);
    StyleFoldNext(ret, parents, InlineRules(parents), n, defaults);
  }

  /** A tag without defaults copies nothing. */
  lemma CopyNothing(ret: Props, ignore: bool)
    ensures CopyDefaultsSpec(ret, map[], ignore) == ret
  {
  }

  /** One more parent of the fold. */
  lemma StyleFoldNext(ret: Props, parents: seq<ElementNode>, inline: seq<seq<Rule>>, n: nat, defaults: StyleTable)
    requires n < |parents| == |inline|
    ensures StyleFold(ret, parents, inline, n + 1, defaults)
      == ParentStep(StyleFold(ret, parents, inline, n, defaults), TagDefaults(defaults, parents[n]), n != |parents| - 1, inline[n])
  {
  }

  /** `parseStyle(parent, ignore)` for the parent at `n`. */
  method InlineStyle(parents: seq<ElementNode>, n: nat) returns (style: seq<Rule>)
    requires n < |parents|
    ensures style == InlineRules(parents)[n]
  {
    var parentNodeName := ToLower(parents[n].name);
    var ignore := n != |parents| - 1;
    style := ParseStyle(parents[n], if parentNodeName == "tr" then false else ignore);
  }

  /** The class part of one turn: the `html-<tag>` token, then the `class` tokens. */
  method ParentClasses(css: seq<string>, parent: ElementNode) returns (r: seq<string>)
    ensures r == AddClasses(css, parent)
  {
    var htmlClass := HtmlClass(parent);
    r := css;
    if htmlClass != "html-body" && htmlClass !in r {
      r := [htmlClass] + r;
    }
    r := PushTokens(r, Split(AttrOr(parent, "class"), ' '));
  }

  /** `parentClass.split(' ').forEach(p => { if (p) cssClass.push(p) })` */
  method PushTokens(css: seq<string>, parentClass: seq<string>) returns (r: seq<string>)
    ensures r == css + NonEmpty(parentClass)
  {
    r := css;
    ghost var base := r;
    var i := 0;
    while i < |parentClass|
      invariant 0 <= i <= |parentClass|
      invariant r == base + NonEmpty(parentClass[..i])
    {
      NonEmptySnoc(parentClass[..i], parentClass[i]);
      assert parentClass[..i + 1] == parentClass[..i] + [parentClass[i]];
      if parentClass[i] != "" {
        r := r + [parentClass[i]];
      }
      i := i + 1;
    }
    assert parentClass[..i] == parentClass;
  }

  lemma {:induction false} NonEmptySnoc(parts: seq<string>, p: string)
    ensures NonEmpty(parts + [p]) == NonEmpty(parts) + (if p == "" then [] else [p])
    decreases |parts|
  {
    if parts == [] {
      assert [p][1..] == [];
    } else {
      assert (parts + [p])[1..] == parts[1..] + [p];
      NonEmptySnoc(parts[1..], p);
    }
  }

  /** The `for (style in defaultStyles[tag])` loop. */
  method CopyDefaults(ret: Props, d: Props, ignore: bool) returns (r: Props)
    ensures r == CopyDefaultsSpec(ret, d, ignore)
  {
    r := ret;
    var todo := d.Keys;
    ghost var done: set<string> := {};
    assert CopyDefaultsSpec(ret, Restrict(d, done), ignore) == ret;
    while todo != {}
      invariant todo + done == d.Keys && todo * done == {}
      invariant r == CopyDefaultsSpec(ret, Restrict(d, done), ignore)
      decreases todo
    {
      var style :| style in todo;
      CopyStep(ret, d, done, style, ignore);
      if Inherited(style, ignore) {
        if style == "decoration" {
          r := Push(r, style, d[style]);
        } else {
          r := r[style := d[style]];
        }
      }
      todo := todo - {style};
      done := done + {style};
    }
    assert Restrict(d, done) == d;
  }

  lemma CopyStep(ret: Props, d: Props, done: set<string>, k: string, ignore: bool)
    requires k in d && k !in done
    ensures var before := CopyDefaultsSpec(ret, Restrict(d, done), ignore);
      var after := CopyDefaultsSpec(ret, Restrict(d, done + {k}), ignore);
      after == if !Inherited(k, ignore) then before
               else if k == "decoration" then Push(before, k, d[k])
               else before[k := d[k]]
  {
    var s := Restrict(d, done);
    assert Restrict(d, done + {k}) == s[k := d[k]];
    CopyOneMore(ret, s, k, d[k], ignore);
  }

  /** One more default property `k` with value `v`. */
  lemma {:induction false} CopyOneMore(ret: Props, s: Props, k: string, v: Value, ignore: bool)
    requires k !in s
    ensures var before := CopyDefaultsSpec(ret, s, ignore);
      var after := CopyDefaultsSpec(ret, s[k := v], ignore);
      after == if !Inherited(k, ignore) then before
               else if k == "decoration" then Push(before, k, v)
               else before[k := v]
  {
    var before := CopyDefaultsSpec(ret, s, ignore);
    var after := CopyDefaultsSpec(ret, s[k := v], ignore);
    CopyOthers(ret, s, k, v, ignore);
    if !Inherited(k, ignore) {
      assert (k in after <==> k in before) && (k in before ==> after[k] == before[k]);
    } else {
      CopyAt(ret, s, k, v, ignore);
    }
  }

  /** One more default property changes no other key. */
  lemma CopyOthers(ret: Props, s: Props, k: string, v: Value, ignore: bool)
    requires k !in s
    ensures var before := CopyDefaultsSpec(ret, s, ignore);
      var after := CopyDefaultsSpec(ret, s[k := v], ignore);
      forall j | j != k :: (j in after <==> j in before) && (j in before ==> after[j] == before[j])
  {
  }

  /** An inherited default property writes its own key. */
  lemma CopyAt(ret: Props, s: Props, k: string, v: Value, ignore: bool)
    requires k !in s && Inherited(k, ignore)
    ensures var after := CopyDefaultsSpec(ret, s[k := v], ignore);
      k in after && after[k] == (if k == "decoration" then Arr(Items(Field(CopyDefaultsSpec(ret, s, ignore), k)) + [v]) else v)
  {
    assert Field(CopyDefaultsSpec(ret, s, ignore), k) == Field(ret, k);
  }

  /** The `style.forEach` loop. */
  method WriteRules(ret: Props, style: seq<Rule>) returns (r: Props)
    ensures r == ApplyRules(ret, style)
  {
    r := ret;
    var i := 0;
    while i < |style|
      invariant 0 <= i <= |style|
      invariant r == ApplyRules(ret, style[..i])
    {
      var stl := style[i];
      assert style[..i + 1][..i] == style[..i];
      if stl.key == "decoration" {
        r := Push(r, stl.key, stl.value);
      } else {
        r := r[stl.key := stl.value];
      }
      i := i + 1;
    }
    assert style[..i] == style;
  }

  // ---------------------------------------------------------------- what the cascade promises

  /** Rules that never name `k` leave `k` as it was. */
  lemma {:induction false} RulesUntouched(ret: Props, rules: seq<Rule>, k: string)
    requires forall i | 0 <= i < |rules| :: rules[i].key != k
    ensures var r := ApplyRules(ret, rules); (k in r <==> k in ret) && (k in ret ==> r[k] == ret[k])
    decreases |rules|
  {
    if rules != [] {
      RulesUntouched(ret, rules[..|rules| - 1], k);
    }
  }

  /** Last writer wins: a key other than `decoration` holds the value of the last rule
      that names it. */
  lemma {:induction false} LastRuleWins(ret: Props, rules: seq<Rule>, j: nat)
    requires j < |rules| && rules[j].key != "decoration"
    requires forall i | j < i < |rules| :: rules[i].key != rules[j].key
    ensures rules[j].key in ApplyRules(ret, rules) && ApplyRules(ret, rules)[rules[j].key] == rules[j].value
    decreases |rules|
  {
    if j < |rules| - 1 {
      LastRuleWins(ret, rules[..|rules| - 1], j);
    }
  }

  /** `decoration` accumulates: the decorations already there stay, in front. */
  lemma {:induction false} RulesKeepDecoration(ret: Props, rules: seq<Rule>)
    requires Field(ret, "decoration").Arr?
    ensures var d := Field(ApplyRules(ret, rules), "decoration");
      d.Arr? && Items(Field(ret, "decoration")) <= d.items
    decreases |rules|
  {
    if rules != [] {
      RulesKeepDecoration(ret, rules[..|rules| - 1]);
    }
  }

  /** The same for the defaults loop. */
  lemma {:induction false} DefaultsKeepDecoration(ret: Props, d: Props, ignore: bool)
    requires Field(ret, "decoration").Arr?
    ensures var r := Field(CopyDefaultsSpec(ret, d, ignore), "decoration");
      r.Arr? && Items(Field(ret, "decoration")) <= r.items
  {
    var k := "decoration";
    var r := CopyDefaultsSpec(ret, d, ignore);
    assert k in ret;
    assert k in r;
  }

  lemma {:induction false} ParentKeepsDecoration(cur: Props, d: Props, ignore: bool, rules: seq<Rule>)
    requires Field(cur, "decoration").Arr?
    ensures var r := Field(ParentStep(cur, d, ignore, rules), "decoration");
      r.Arr? && Items(Field(cur, "decoration")) <= r.items
  {
    DefaultsKeepDecoration(cur, d, ignore);
    RulesKeepDecoration(CopyDefaultsSpec(cur, d, ignore), rules);
  }

  /** Through the whole cascade: decorations are only ever appended to. */
  lemma {:induction false} CascadeKeepsDecoration(ret: Props, parents: seq<ElementNode>, inline: seq<seq<Rule>>,
                                                  n: nat, defaults: StyleTable)
    requires n <= |parents| == |inline| && Field(ret, "decoration").Arr?
    ensures var d := Field(StyleFold(ret, parents, inline, n, defaults), "decoration");
      d.Arr? && Items(Field(ret, "decoration")) <= d.items
    decreases n
  {
    if n > 0 {
      CascadeKeepsDecoration(ret, parents, inline, n - 1, defaults);
      ParentKeepsDecoration(StyleFold(ret, parents, inline, n - 1, defaults),
        TagDefaults(defaults, parents[n - 1]), n - 1 != |parents| - 1, inline[n - 1]);
    }
  }

  /** `applyStyle` keeps the decorations the target had and appends the new ones. */
  lemma ApplyStyleKeepsDecoration(ret: Props, parents: seq<ElementNode>, defaults: StyleTable)
    requires Field(ret, "decoration").Arr?
    ensures var d := Field(ApplyStyleSpec(ret, parents, defaults), "decoration");
      d.Arr? && Items(Field(ret, "decoration")) <= d.items
  {
    CascadeKeepsDecoration(ret, parents, InlineRules(parents), |parents|, defaults);
  }

  /** Parents whose defaults and inline rules never name `k` leave it as it was. */
  lemma CascadeUntouched(ret: Props, parents: seq<ElementNode>, inline: seq<seq<Rule>>,
                         n: nat, defaults: StyleTable, k: string)
    requires n <= |parents| == |inline|
    requires forall i | 0 <= i < n :: k !in TagDefaults(defaults, parents[i])
    requires forall i, j | 0 <= i < n && 0 <= j < |inline[i]| :: inline[i][j].key != k
    ensures var r := StyleFold(ret, parents, inline, n, defaults);
      (k in r <==> k in ret) && (k in ret ==> r[k] == ret[k])
  {
    CascadeUntouchedFrom(ret, parents, inline, 0, n, defaults, k);
  }

  /** The parents from `m` to `n`, when none of them names `k`, leave it as the first `m`
      left it. */
  lemma {:induction false} CascadeUntouchedFrom(ret: Props, parents: seq<ElementNode>, inline: seq<seq<Rule>>,
                                                m: nat, n: nat, defaults: StyleTable, k: string)
    requires m <= n <= |parents| == |inline|
    requires forall i | m <= i < n :: k !in TagDefaults(defaults, parents[i])
    requires forall i, j | m <= i < n && 0 <= j < |inline[i]| :: inline[i][j].key != k
    ensures var before := StyleFold(ret, parents, inline, m, defaults);
      var r := StyleFold(ret, parents, inline, n, defaults);
      (k in r <==> k in before) && (k in before ==> r[k] == before[k])
    decreases n
  {
    if m < n {
      CascadeUntouchedFrom(ret, parents, inline, m, n - 1, defaults, k);
      var cur := StyleFold(ret, parents, inline, n - 1, defaults);
      var d := TagDefaults(defaults, parents[n - 1]);
      RulesUntouched(CopyDefaultsSpec(cur, d, n - 1 != |parents| - 1), inline[n - 1], k);
    }
  }

  /** Last writer wins across the cascade: when parent `i` writes `v` to a key other than
      `decoration` (with its last inline rule `j` naming the key, or, when `j` is -1,
      with no inline rule naming it and its tag defaults passing it on), and no later
      parent's defaults or inline rules name the key, the key ends up holding `v`. */
  lemma CascadeLastWriter(ret: Props, parents: seq<ElementNode>, inline: seq<seq<Rule>>, i: nat, j: int,
                          n: nat, defaults: StyleTable, k: string, v: Value)
    requires i < n <= |parents| == |inline| && k != "decoration" && -1 <= j < |inline[i]|
    requires j >= 0 ==> inline[i][j] == Rule(k, v)
    requires j < 0 ==> k in TagDefaults(defaults, parents[i]) && TagDefaults(defaults, parents[i])[k] == v
                       && Inherited(k, i != |parents| - 1)
    requires forall q | j < q < |inline[i]| :: inline[i][q].key != k
    requires forall p | i < p < n :: k !in TagDefaults(defaults, parents[p])
    requires forall p, q | i < p < n && 0 <= q < |inline[p]| :: inline[p][q].key != k
    ensures var r := StyleFold(ret, parents, inline, n, defaults); k in r && r[k] == v
  {
    var cur := StyleFold(ret, parents, inline, i, defaults);
    var d := TagDefaults(defaults, parents[i]);
    var mid := CopyDefaultsSpec(cur, d, i != |parents| - 1);
    StyleFoldNext(ret, parents, inline, i, defaults);
    if j >= 0 {
      LastRuleWins(mid, inline[i], j);
    } else {
      assert k in mid && mid[k] == v;
      RulesUntouched(mid, inline[i], k);
    }
    CascadeUntouchedFrom(ret, parents, inline, i + 1, n, defaults, k);
  }

  /** The same for `applyStyle`, whose `style` key is the class list. */
  lemma {:induction false} ApplyStyleLastWriter(ret: Props, parents: seq<ElementNode>, defaults: StyleTable, i: nat, j: int, k: string, v: Value)
    requires i < |parents| && k != "decoration" && k != "style" && -1 <= j < |InlineRules(parents)[i]|
    requires j >= 0 ==> InlineRules(parents)[i][j] == Rule(k, v)
    requires j < 0 ==> k in TagDefaults(defaults, parents[i]) && TagDefaults(defaults, parents[i])[k] == v
                       && Inherited(k, i != |parents| - 1)
    requires forall q | j < q < |InlineRules(parents)[i]| :: InlineRules(parents)[i][q].key != k
    requires forall p | i < p < |parents| :: k !in TagDefaults(defaults, parents[p])
    requires forall p, q | i < p < |parents| && 0 <= q < |InlineRules(parents)[p]| :: InlineRules(parents)[p][q].key != k
    ensures var r := ApplyStyleSpec(ret, parents, defaults); k in r && r[k] == v
  {
    CascadeLastWriter(ret, parents, InlineRules(parents), i, j, |parents|, defaults, k, v);
  }

  /** No parent's tag defaults and no parent's inline rules name `k`. */
  predicate NotNamed(parents: seq<ElementNode>, defaults: StyleTable, k: string) {
    forall i | 0 <= i < |parents| ::
      k !in TagDefaults(defaults, parents[i])
      && forall j | 0 <= j < |InlineRules(parents)[i]| :: InlineRules(parents)[i][j].key != k
  }

  /** `applyStyle` changes no key but `style` that nothing in the cascade names. */
  lemma ApplyStyleUntouched(ret: Props, parents: seq<ElementNode>, defaults: StyleTable, k: string)
    requires k != "style" && NotNamed(parents, defaults, k)
    ensures var r := ApplyStyleSpec(ret, parents, defaults);
      (k in r <==> k in ret) && (k in ret ==> r[k] == ret[k])
  {
    CascadeUntouched(ret, parents, InlineRules(parents), |parents|, defaults, k);
  }

  /** With `ignore` set, the defaults loop skips every key containing `margin` or
      `border` (`marginBottom`, `borderColor`, ...). */
  lemma {:induction false} DefaultsKeepBoxes(ret: Props, d: Props, k: string)
    requires Contains(k, "margin") || Contains(k, "border")
    ensures var r := CopyDefaultsSpec(ret, d, true); (k in r <==> k in ret) && (k in ret ==> r[k] == ret[k])
  {
    assert !Inherited(k, true);
  }

  /** Parents before the last whose inline rules never name a key containing `margin` or
      `border` leave it as it was, whatever their tag defaults hold. */
  lemma {:induction false} CascadeBoxes(ret: Props, parents: seq<ElementNode>, inline: seq<seq<Rule>>,
                                        n: nat, defaults: StyleTable, k: string)
    requires n < |parents| == |inline| && (Contains(k, "margin") || Contains(k, "border"))
    requires forall i, j | 0 <= i < n && 0 <= j < |inline[i]| :: inline[i][j].key != k
    ensures var r := StyleFold(ret, parents, inline, n, defaults);
      (k in r <==> k in ret) && (k in ret ==> r[k] == ret[k])
    decreases n
  {
    if n > 0 {
      CascadeBoxes(ret, parents, inline, n - 1, defaults, k);
      var cur := StyleFold(ret, parents, inline, n - 1, defaults);
      var d := TagDefaults(defaults, parents[n - 1]);
      DefaultsKeepBoxes(cur, d, k);
      RulesUntouched(CopyDefaultsSpec(cur, d, true), inline[n - 1], k);
    }
  }

  /** The inline style of an ancestor other than a TR sets no margin, width, height or border. */
  lemma InlineAncestor(parents: seq<ElementNode>, i: nat)
    requires i < |parents| - 1 && ToLower(parents[i].name) != "tr"
    ensures forall j | 0 <= j < |InlineRules(parents)[i]| :: Descendent(InlineRules(parents)[i][j].key)
  {
    ParseStyleIgnored(parents[i]);
  }

  /** So `InlineRules(parents)` meets the hypothesis of `CascadeBoxes` for the parents
      before the last when none of them is a TR: margins and borders come only from the
      last parent. */
  lemma InlineAncestors(parents: seq<ElementNode>, k: string)
    requires |parents| > 0 && (k == "margin" || k == "border")
    requires forall i | 0 <= i < |parents| - 1 :: ToLower(parents[i].name) != "tr"
    ensures forall i, j | 0 <= i < |parents| - 1 && 0 <= j < |InlineRules(parents)[i]| :: InlineRules(parents)[i][j].key != k
  {
    forall i: nat | i < |parents| - 1
      ensures forall j | 0 <= j < |InlineRules(parents)[i]| :: InlineRules(parents)[i][j].key != k
    {
      InlineAncestor(parents, i);
    }
  }

  // ---------------------------------------------------------------- the class list

  lemma {:induction false} NonEmptyParts(parts: seq<string>)
    ensures forall t | t in NonEmpty(parts) :: t != "" && t in parts
    ensures forall i | 0 <= i < |parts| && parts[i] != "" :: parts[i] in NonEmpty(parts)
    decreases |parts|
  {
    if parts != [] {
      NonEmptyParts(parts[1..]);
      assert forall i | 1 <= i < |parts| :: parts[i] == parts[1..][i - 1];
    }
  }

  /** One more parent keeps every entry and adds its own class and tokens. */
  lemma AddClassesKeeps(css: seq<string>, parent: ElementNode)
    ensures forall t | t in css :: t in AddClasses(css, parent)
    ensures HtmlClass(parent) != "html-body" ==> HtmlClass(parent) in AddClasses(css, parent)
    ensures forall t | t in ClassTokens(parent) :: t in AddClasses(css, parent)
  {
  }

  /** No entry is ever dropped from the class list. */
  lemma {:induction false} ClassesGrow(parents: seq<ElementNode>, n: nat, m: nat)
    requires m <= n <= |parents|
    ensures forall t | t in ClassFold(parents, m) :: t in ClassFold(parents, n)
    decreases n
  {
    if m < n {
      ClassesGrow(parents, n - 1, m);
      var css := ClassFold(parents, n - 1);
      var next := ClassFold(parents, n);
      assert next == AddClasses(css, parents[n - 1]);
      AddClassesKeeps(css, parents[n - 1]);
      forall t | t in ClassFold(parents, m)
        ensures t in next
      {
        assert t in css;
      }
    }
  }

  /** A parent's own `html-<tag>` class (but `html-body`) and its class tokens end up on
      the list. */
  lemma {:induction false} ClassesKept(parents: seq<ElementNode>, n: nat, j: nat)
    requires j < n <= |parents|
    ensures HtmlClass(parents[j]) != "html-body" ==> HtmlClass(parents[j]) in ClassFold(parents, n)
    ensures forall t | t in ClassTokens(parents[j]) :: t in ClassFold(parents, n)
  {
    ClassesGrow(parents, n, j + 1);
    KeptOnward(ClassFold(parents, j), parents[j], ClassFold(parents, j + 1), ClassFold(parents, n));
  }

  lemma KeptOnward(css: seq<string>, parent: ElementNode, next: seq<string>, later: seq<string>)
    requires next == AddClasses(css, parent)
    requires forall t | t in next :: t in later
    ensures HtmlClass(parent) != "html-body" ==> HtmlClass(parent) in later
    ensures forall t | t in ClassTokens(parent) :: t in later
  {
    AddClassesKeeps(css, parent);
  }

  /** Every entry is a parent's `html-<tag>` class or one of a parent's class tokens. */
  lemma {:induction false} ClassesFromParents(parents: seq<ElementNode>, n: nat)
    requires n <= |parents|
    ensures forall t | t in ClassFold(parents, n) ::
      exists j | 0 <= j < n :: t == HtmlClass(parents[j]) || t in ClassTokens(parents[j])
    decreases n
  {
    if n > 0 {
      ClassesFromParents(parents, n - 1);
    }
  }

  lemma HtmlClassPrefix(parent: ElementNode)
    ensures StartsWith(HtmlClass(parent), "html-")
  {
    assert HtmlClass(parent)[..5] == "html-";
  }

  /** No `html-body`, and no `html-<tag>` entry twice. */
  predicate HtmlDistinct(css: seq<string>) {
    "html-body" !in css
    && forall i, j | 0 <= i < j < |css| && css[i] == css[j] :: !StartsWith(css[i], "html-")
  }

  lemma {:induction false} AddClassesDistinct(css: seq<string>, parent: ElementNode)
    requires HtmlDistinct(css)
    requires forall t | t in ClassTokens(parent) :: !StartsWith(t, "html-")
    ensures HtmlDistinct(AddClasses(css, parent))
  {
    var h := HtmlClass(parent);
    HtmlClassPrefix(parent);
    var front := if h != "html-body" && h !in css then [h] + css else css;
    var tokens := ClassTokens(parent);
    assert StartsWith("html-body", "html-");
    assert "html-body" !in tokens;
    assert HtmlDistinct(front) by {
      if front != css {
        forall i, j | 0 <= i < j < |front| && front[i] == front[j]
          ensures !StartsWith(front[i], "html-")
        {
          if i > 0 {
            assert front[i] == css[i - 1] && front[j] == css[j - 1];
          }
        }
      }
    }
    var all := front + tokens;
    forall i, j | 0 <= i < j < |all| && all[i] == all[j]
      ensures !StartsWith(all[i], "html-")
    {
      if j >= |front| {
        assert all[j] == tokens[j - |front|];
      } else {
        assert all[i] == front[i] && all[j] == front[j];
      }
    }
  }

  /** When no `class` attribute carries a token starting `html-`, the list has no
      `html-body` and no `html-<tag>` entry twice. */
  lemma {:induction false} ClassesDistinct(parents: seq<ElementNode>, n: nat)
    requires n <= |parents|
    requires forall j, t | 0 <= j < n && t in ClassTokens(parents[j]) :: !StartsWith(t, "html-")
    ensures HtmlDistinct(ClassFold(parents, n))
    decreases n
  {
    if n > 0 {
      ClassesDistinct(parents, n - 1);
      AddClassesDistinct(ClassFold(parents, n - 1), parents[n - 1]);
    }
  }
}
