/**
  The per-tag default styles the cascade starts from, and `changeDefaultStyles`, which
  merges the user's `defaultStyles` option into them: a falsy value removes a tag's
  defaults, an empty string removes one property, anything else is written over the
  defaults, and a tag there are no defaults for is added with the properties given.
 */
module Defaults {
  import opened Values

  /** Tag name (lower case) to its default properties. */
  type StyleTable = map<string, Props>

  /** The table `create` starts every conversion with. */
  const BuiltIn: StyleTable := map[
    "b" := map["bold" := Bool(true)],
    "strong" := map["bold" := Bool(true)],
    "u" := map["decoration" := Str("underline")],
    "del" := map["decoration" := Str("lineThrough")],
    "s" := map["decoration" := Str("lineThrough")],
    "em" := map["italics" := Bool(true)],
    "i" := map["italics" := Bool(true)],
    "h1" := map["fontSize" := Num(24.0), "bold" := Bool(true), "marginBottom" := Num(5.0)],
    "h2" := map["fontSize" := Num(22.0), "bold" := Bool(true), "marginBottom" := Num(5.0)],
    "h3" := map["fontSize" := Num(20.0), "bold" := Bool(true), "marginBottom" := Num(5.0)],
    "h4" := map["fontSize" := Num(18.0), "bold" := Bool(true), "marginBottom" := Num(5.0)],
    "h5" := map["fontSize" := Num(16.0), "bold" := Bool(true), "marginBottom" := Num(5.0)],
    "h6" := map["fontSize" := Num(14.0), "bold" := Bool(true), "marginBottom" := Num(5.0)],
    "a" := map["color" := Str("blue"), "decoration" := Str("underline")],
    "strike" := map["decoration" := Str("lineThrough")],
    "p" := map["margin" := Arr([Num(0.0), Num(5.0), Num(0.0), Num(10.0)])],
    "ul" := map["marginBottom" := Num(5.0), "marginLeft" := Num(5.0)],
    "table" := map["marginBottom" := Num(5.0)],
    "th" := map["bold" := Bool(true), "fillColor" := Str("#EEEEEE")]
  ]

  /** The properties of an existing tag after the override `o` (its enumerable
      properties): an empty string deletes, every other value is written. */
  function Merged(p: Props, o: Props): Props {
    map k | k in p.Keys + o.Keys && !(k in o && o[k] == Str("")) :: if k in o then o[k] else p[k]
  }

  /** Whether the override for one tag removes all of that tag's defaults. */
  predicate Removes(t: StyleTable, o: Props, tag: string) {
    tag in t && tag in o && !Truthy(o[tag])
  }

  /** What the tag `tag` maps to after the override; only called for tags that stay. */
  function ChangedTag(t: StyleTable, o: Props, tag: string): Props
    requires tag in t || tag in o
  {
    if tag !in o then t[tag]
    else if tag in t then Merged(t[tag], ForIn(o[tag]))
    else ForIn(o[tag])
  }

  /** The table after `changeDefaultStyles` with the override's enumerable
      properties `o`. Each tag is computed from its own entries alone, so the
      (unmodelled) order in which `for … in` visits the tags does not matter. */
  function ChangedStyles(t: StyleTable, o: Props): StyleTable {
    map tag | tag in t.Keys + o.Keys && !Removes(t, o, tag) :: ChangedTag(t, o, tag)
  }

  /** The part of `o` whose keys are in `done`. */
  function Restrict(o: Props, done: set<string>): Props {
    map k | k in o.Keys * done :: o[k]
  }

  /** `defaultStyles` of one conversion, which `changeDefaultStyles` edits in place. */
  class DefaultStyles {
    var styles: StyleTable

    constructor ()
      ensures styles == BuiltIn
    {
      styles := BuiltIn;
    }

    /** `changeDefaultStyles()` with `options.defaultStyles == overrides`. */
    method Change(overrides: Value)
      modifies this
      ensures styles == ChangedStyles(old(styles), ForIn(overrides))
    {
      var o := ForIn(overrides);
      ghost var t := styles;
      var todo := o.Keys;
      ghost var done: set<string> := {};
      while todo != {}
        invariant todo + done == o.Keys && todo * done == {}
        invariant styles == ChangedStyles(t, Restrict(o, done))
        decreases todo
      {
        var keyStyle :| keyStyle in todo;
        ChangeOneTag(t, o, done, keyStyle);
        todo := todo - {keyStyle};
        done := done + {keyStyle};
      }
      assert Restrict(o, done) == o;
    }

    /** One turn of the loop over the override's tags. */
    method ChangeOneTag(ghost t: StyleTable, o: Props, ghost done: set<string>, keyStyle: string)
      requires keyStyle in o && keyStyle !in done
      requires styles == ChangedStyles(t, Restrict(o, done))
      modifies this
      ensures styles == ChangedStyles(t, Restrict(o, done + {keyStyle}))
    {
      ghost var before := Restrict(o, done);
      ghost var after := Restrict(o, done + {keyStyle});
      assert after == before[keyStyle := o[keyStyle]];
      assert keyStyle in t ==> keyStyle in styles && styles[keyStyle] == t[keyStyle];
      if keyStyle in styles {
        if !Truthy(o[keyStyle]) {
          styles := map k | k in styles && k != keyStyle :: styles[k];
        } else {
          var merged := MergeProps(styles[keyStyle], ForIn(o[keyStyle]));
          styles := styles[keyStyle := merged];
        }
      } else {
        styles := styles[keyStyle := ForIn(o[keyStyle])];
      }
      assert styles == ChangedStyles(t, after) by {
        ChangedAt(t, before, keyStyle, o[keyStyle]);
      }
    }
  }

  /** The loop over one existing tag's override: `delete` for an empty string, an
      assignment for anything else. */
  method MergeProps(p: Props, o: Props) returns (r: Props)
    ensures r == Merged(p, o)
  {
    r := p;
    var todo := o.Keys;
    ghost var done: set<string> := {};
    assert Restrict(o, done) == map[];
    while todo != {}
      invariant todo + done == o.Keys && todo * done == {}
      invariant r == Merged(p, Restrict(o, done))
      decreases todo
    {
      var k :| k in todo;
      MergeStep(p, o, done, k);
      if o[k] == Str("") {
        r := map j | j in r && j != k :: r[j];
      } else {
        r := r[k := o[k]];
      }
      todo := todo - {k};
      done := done + {k};
    }
    assert Restrict(o, done) == o;
  }

  /** One more key of the override: deleted for an empty string, written otherwise. */
  lemma MergeStep(p: Props, o: Props, done: set<string>, k: string)
    requires k in o && k !in done
    ensures var before := Merged(p, Restrict(o, done));
      var after := Merged(p, Restrict(o, done + {k}));
      after == if o[k] == Str("") then (map j | j in before && j != k :: before[j]) else before[k := o[k]]
  {
    var s := Restrict(o, done);
    var s' := Restrict(o, done + {k});
    assert s' == s[k := o[k]];
    var before := Merged(p, s);
    var after := Merged(p, s');
    forall j | j != k
      ensures (j in after <==> j in before) && (j in before ==> after[j] == before[j])
    {
      assert (j in s' <==> j in s) && (j in s ==> s'[j] == s[j]);
    }
    if o[k] == Str("") {
      assert k !in after;
      assert after.Keys == before.Keys - {k};
    } else {
      assert k in after && after[k] == o[k];
      assert after.Keys == before.Keys + {k};
    }
  }

  /** Adding one tag's override changes that tag alone. */
  lemma {:induction false} ChangedAt(t: StyleTable, before: Props, tag: string, v: Value)
    requires tag !in before
    ensures var s := ChangedStyles(t, before); var s' := ChangedStyles(t, before[tag := v]);
      (tag in t && !Truthy(v) ==> s' == map k | k in s && k != tag :: s[k])
      && (tag in t && Truthy(v) ==> s' == s[tag := Merged(t[tag], ForIn(v))])
      && (tag !in t ==> s' == s[tag := ForIn(v)])
  {
    ChangedElsewhere(t, before, tag, v);
    var s, s' := ChangedStyles(t, before), ChangedStyles(t, before[tag := v]);
    if tag in t && !Truthy(v) {
      assert tag !in s';
      MapWithout(s, s', tag);
    } else if tag in t {
      assert tag in s' && s'[tag] == Merged(t[tag], ForIn(v));
      MapWith(s, s', tag);
    } else {
      assert tag in s' && s'[tag] == ForIn(v);
      MapWith(s, s', tag);
    }
  }

  /** The other tags' entries are the same after the override of `tag` is added. */
  lemma ChangedElsewhere(t: StyleTable, before: Props, tag: string, v: Value)
    requires tag !in before
    ensures var s, s' := ChangedStyles(t, before), ChangedStyles(t, before[tag := v]);
      forall k | k != tag :: (k in s <==> k in s') && (k in s ==> s[k] == s'[k])
  {
    var after := before[tag := v];
    forall k | k != tag
      ensures (k in ChangedStyles(t, before) <==> k in ChangedStyles(t, after))
      ensures k in ChangedStyles(t, before) ==> ChangedStyles(t, before)[k] == ChangedStyles(t, after)[k]
    {
      assert (k in before <==> k in after) && (k in before ==> before[k] == after[k]);
    }
  }

  lemma MapWithout(s: StyleTable, s': StyleTable, tag: string)
    requires tag !in s'
    requires forall k | k != tag :: (k in s <==> k in s') && (k in s ==> s[k] == s'[k])
    ensures s' == map k | k in s && k != tag :: s[k]
  {
  }

  lemma MapWith(s: StyleTable, s': StyleTable, tag: string)
    requires tag in s'
    requires forall k | k != tag :: (k in s <==> k in s') && (k in s ==> s[k] == s'[k])
    ensures s' == s[tag := s'[tag]]
  {
  }

  // ---------------------------------------------------------------- what the merge promises

  /** A falsy override removes a tag's defaults; a tag the override leaves alone keeps them. */
  lemma ChangeRemoves(t: StyleTable, o: Props, tag: string)
    ensures tag in t && tag in o && !Truthy(o[tag]) ==> tag !in ChangedStyles(t, o)
    ensures tag in t && tag !in o ==> tag in ChangedStyles(t, o) && ChangedStyles(t, o)[tag] == t[tag]
    ensures tag !in t && tag !in o ==> tag !in ChangedStyles(t, o)
  {
  }

  /** For a tag with defaults and a truthy override: an empty string removes the
      property, any other value replaces it, and properties not named keep theirs. */
  lemma ChangeProperty(t: StyleTable, o: Props, tag: string, k: string)
    requires tag in t && tag in o && Truthy(o[tag])
    ensures var s := ChangedStyles(t, o); var given := ForIn(o[tag]);
      tag in s
      && (k in given && given[k] == Str("") ==> k !in s[tag])
      && (k in given && given[k] != Str("") ==> k in s[tag] && s[tag][k] == given[k])
      && (k !in given ==> (k in s[tag] <==> k in t[tag]) && (k in t[tag] ==> s[tag][k] == t[tag][k]))
  {
  }

  /** A tag without defaults gets exactly the properties given, empty strings included. */
  lemma ChangeAdds(t: StyleTable, o: Props, tag: string)
    requires tag !in t && tag in o
    ensures tag in ChangedStyles(t, o) && ChangedStyles(t, o)[tag] == ForIn(o[tag])
  {
  }
}
