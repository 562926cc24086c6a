/** The class-variance resolver that every styled component uses.

    A table has base classes, per-axis option classes (axes in the declaration
    order of the `variants` object) and compound rules; a call receives the
    props the caller supplied. The resolver itself lives in the
    class-variance-authority package, which is not part of this model, so its
    behaviour is stated here as an explicit assumption:
    - a key the caller leaves undefined takes its `defaultVariants` value;
    - the output is the base classes, then the classes of the chosen option of
      each axis in declaration order, then the classes of every compound rule
      whose listed keys all equal the settled props, in declaration order;
    - an axis value that has no entry in the axis contributes nothing. */
module Variants {
  import opened Sequences
  import opened ClassNames

  /** One entry of the `variants` object: an axis name and its options. */
  datatype Axis<K, V(==)> = Axis(key: K, options: map<V, seq<Token>>)

  /** One entry of `compoundVariants`: the key/value pairs it lists and its classes. */
  datatype Compound<K, V> = Compound(conds: seq<(K, V)>, classes: seq<Token>)

  datatype Table<K(==), V(==)> = Table(
    base: seq<Token>,
    axes: seq<Axis<K, V>>,
    compounds: seq<Compound<K, V>>,
    defaults: map<K, V>)

  /** The props after absent keys have taken their default values. */
  function Settled<K(==), V(==)>(t: Table<K, V>, props: map<K, V>): map<K, V>
  {
    t.defaults + props
  }

  /** The classes of one option of an axis; a value the axis does not list has none. */
  function OptionClasses<K, V(==)>(a: Axis<K, V>, v: V): seq<Token>
  {
    if v in a.options then a.options[v] else []
  }

  /** The classes of a boolean axis whose `false` option is empty. */
  function FlagRow(b: bool, tokens: seq<Token>): seq<Token>
  {
    if b then tokens else []
  }

  /** A height utility (`h-…`). */
  predicate IsHeight(t: Token)
  {
    |t| > 2 && t[0] == 'h' && t[1] == '-'
  }

  /** A width utility (`w-…`). */
  predicate IsWidth(t: Token)
  {
    |t| > 2 && t[0] == 'w' && t[1] == '-'
  }

  /** The classes an axis contributes for the settled props. */
  function AxisClasses<K(==), V(==)>(a: Axis<K, V>, full: map<K, V>): seq<Token>
  {
    if a.key in full then OptionClasses(a, full[a.key]) else []
  }

  /** A compound rule applies when every key it lists has exactly its value. */
  predicate Matches<K(==), V(==)>(conds: seq<(K, V)>, full: map<K, V>)
  {
    forall j | 0 <= j < |conds| :: conds[j].0 in full && full[conds[j].0] == conds[j].1
  }

  function CompoundClasses<K(==), V(==)>(c: Compound<K, V>, full: map<K, V>): seq<Token>
  {
    if Matches(c.conds, full) then c.classes else []
  }

  function AxisFragments<K(==), V(==)>(axes: seq<Axis<K, V>>, full: map<K, V>): seq<seq<Token>>
  {
    seq(|axes|, i requires 0 <= i < |axes| => AxisClasses(axes[i], full))
  }

  function CompoundFragments<K(==), V(==)>(cs: seq<Compound<K, V>>, full: map<K, V>): seq<seq<Token>>
  {
    seq(|cs|, i requires 0 <= i < |cs| => CompoundClasses(cs[i], full))
  }

  /** The class fragments in output order: base, each axis, each compound rule. */
  function Fragments<K(==), V(==)>(t: Table<K, V>, props: map<K, V>): seq<seq<Token>>
  {
    var full := Settled(t, props);
    [t.base] + AxisFragments(t.axes, full) + CompoundFragments(t.compounds, full)
  }

  /** The resolved class tokens (the variant function's result, split into tokens). */
  function Resolve<K(==), V(==)>(t: Table<K, V>, props: map<K, V>): seq<Token>
  {
    Concat(Fragments(t, props))
  }

  /** How many compound rules apply. */
  function MatchCount<K(==), V(==)>(cs: seq<Compound<K, V>>, full: map<K, V>): nat
  {
    if |cs| == 0 then 0 else (if Matches(cs[0].conds, full) then 1 else 0) + MatchCount(cs[1..], full)
  }

  /** The output is the base classes, then the axis classes, then the compound classes. */
  lemma ResolveParts<K, V>(t: Table<K, V>, props: map<K, V>)
    ensures Resolve(t, props)
         == t.base
          + Concat(AxisFragments(t.axes, Settled(t, props)))
          + Concat(CompoundFragments(t.compounds, Settled(t, props)))
  {
    var full := Settled(t, props);
    var fa, fc := AxisFragments(t.axes, full), CompoundFragments(t.compounds, full);
    ConcatAppend([t.base] + fa, fc);
    ConcatAppend([t.base], fa);
    assert Concat([t.base]) == t.base + Concat([t.base][1..]);
  }

  /** Every resolution starts with the base classes. */
  lemma BaseFirst<K, V>(t: Table<K, V>, props: map<K, V>)
    ensures t.base <= Resolve(t, props)
  {
    ResolveParts(t, props);
  }

  /** A token is in the output iff it is a base class, a class of the chosen
      option of some axis, or a class of some compound rule that applies. */
  lemma InResolve<K, V>(t: Table<K, V>, props: map<K, V>, x: Token)
    ensures x in Resolve(t, props)
        <==> || x in t.base
             || (exists i | 0 <= i < |t.axes| :: x in AxisClasses(t.axes[i], Settled(t, props)))
             || (exists i | 0 <= i < |t.compounds| ::
                   Matches(t.compounds[i].conds, Settled(t, props)) && x in t.compounds[i].classes)
  {
    var full := Settled(t, props);
    var fa, fc := AxisFragments(t.axes, full), CompoundFragments(t.compounds, full);
    ResolveParts(t, props);
    InConcat(fa, x);
    InConcat(fc, x);
    if x in Concat(fc) {
      var i :| 0 <= i < |fc| && x in fc[i];
      assert Matches(t.compounds[i].conds, full) && x in t.compounds[i].classes;
    }
    if exists i | 0 <= i < |t.compounds| :: Matches(t.compounds[i].conds, full) && x in t.compounds[i].classes {
      var i :| 0 <= i < |t.compounds| && Matches(t.compounds[i].conds, full) && x in t.compounds[i].classes;
      assert x in fc[i];
    }
    if exists i | 0 <= i < |t.axes| :: x in AxisClasses(t.axes[i], full) {
      var i :| 0 <= i < |t.axes| && x in AxisClasses(t.axes[i], full);
      assert x in fa[i];
    }
  }

  /** Leaving a key undefined is the same as passing its default value. */
  lemma DefaultFills<K, V>(t: Table<K, V>, props: map<K, V>, k: K)
    requires k !in props && k in t.defaults
    ensures Resolve(t, props) == Resolve(t, props[k := t.defaults[k]])
  {
    assert Settled(t, props) == Settled(t, props[k := t.defaults[k]]);
  }

  /** Passing the settled props explicitly changes nothing. */
  lemma SettledIsStable<K, V>(t: Table<K, V>, props: map<K, V>)
    ensures Resolve(t, Settled(t, props)) == Resolve(t, props)
  {
    assert Settled(t, Settled(t, props)) == Settled(t, props);
  }

  lemma {:induction false} CountZero<K, V>(cs: seq<Compound<K, V>>, full: map<K, V>)
    requires forall i | 0 <= i < |cs| :: !Matches(cs[i].conds, full)
    ensures MatchCount(cs, full) == 0
  {
    if |cs| > 0 {
      CountZero(cs[1..], full);
    }
  }

  /** When rule `j` is the only rule that applies, exactly one rule applies. */
  lemma {:induction false} CountOne<K, V>(cs: seq<Compound<K, V>>, full: map<K, V>, j: nat)
    requires j < |cs|
    requires forall i | 0 <= i < |cs| :: Matches(cs[i].conds, full) <==> i == j
    ensures MatchCount(cs, full) == 1
  {
    if j == 0 {
      CountZero(cs[1..], full);
    } else {
      CountOne(cs[1..], full, j - 1);
    }
  }

  /** When rule `j` is the only rule that applies, the compound part of the
      output is exactly that rule's classes. */
  lemma OnlyCompound<K, V>(cs: seq<Compound<K, V>>, full: map<K, V>, j: nat)
    requires j < |cs|
    requires forall i | 0 <= i < |cs| :: Matches(cs[i].conds, full) <==> i == j
    ensures Concat(CompoundFragments(cs, full)) == cs[j].classes
    ensures MatchCount(cs, full) == 1
  {
    ConcatOnly(CompoundFragments(cs, full), j);
    CountOne(cs, full, j);
  }

  /** Three listed keys: the rule applies iff each holds. */
  lemma MatchesUpTo3<K, V>(conds: seq<(K, V)>, full: map<K, V>)
    requires |conds| <= 3
    ensures Matches(conds, full)
        <==> && (|conds| > 0 ==> conds[0].0 in full && full[conds[0].0] == conds[0].1)
             && (|conds| > 1 ==> conds[1].0 in full && full[conds[1].0] == conds[1].1)
             && (|conds| > 2 ==> conds[2].0 in full && full[conds[2].0] == conds[2].1)
  {
  }

  /** No compound rule lists key `k`. */
  predicate Unlisted<K(==), V>(cs: seq<Compound<K, V>>, k: K)
  {
    forall r, j | 0 <= r < |cs| && 0 <= j < |cs[r].conds| :: cs[r].conds[j].0 != k
  }

  /** Setting a key that only axis `i` reads and no compound rule lists
      replaces that axis's fragment and leaves every other fragment alone. */
  lemma OneFragmentChanges<K, V>(t: Table<K, V>, props: map<K, V>, i: nat, v: V)
    requires i < |t.axes|
    requires forall j | 0 <= j < |t.axes| && j != i :: t.axes[j].key != t.axes[i].key
    requires Unlisted(t.compounds, t.axes[i].key)
    ensures Fragments(t, props[t.axes[i].key := v]) == Fragments(t, props)[1 + i := OptionClasses(t.axes[i], v)]
  {
    var k := t.axes[i].key;
    var full, full' := Settled(t, props), Settled(t, props[k := v]);
    assert full' == full[k := v];
    var fa, fa' := AxisFragments(t.axes, full), AxisFragments(t.axes, full');
    forall j | 0 <= j < |t.axes| && j != i
      ensures fa'[j] == fa[j]
    {
    }
    forall r | 0 <= r < |t.compounds|
      ensures Matches(t.compounds[r].conds, full') == Matches(t.compounds[r].conds, full)
    {
    }
    assert CompoundFragments(t.compounds, full') == CompoundFragments(t.compounds, full);
  }

  /** Changing a key that only axis `i` reads and no compound rule lists changes
      the output in one place only: the classes of that axis. */
  lemma OnlyAxisChanges<K, V>(t: Table<K, V>, props: map<K, V>, i: nat, v: V)
    requires i < |t.axes|
    requires forall j | 0 <= j < |t.axes| && j != i :: t.axes[j].key != t.axes[i].key
    requires Unlisted(t.compounds, t.axes[i].key)
    ensures exists pre, post ::
      && Resolve(t, props) == pre + AxisClasses(t.axes[i], Settled(t, props)) + post
      && Resolve(t, props[t.axes[i].key := v]) == pre + OptionClasses(t.axes[i], v) + post
  {
    var fs := Fragments(t, props);
    OneFragmentChanges(t, props, i, v);
    ConcatUpdate(fs, 1 + i, OptionClasses(t.axes[i], v));
  }
}
