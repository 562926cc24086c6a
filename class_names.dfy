/** Class-name tokens and the `cn` helper: clsx flattening of the inputs
    followed by the tailwind-merge pass that keeps, of the tokens that set the
    same utility, only the last. */
module ClassNames {
  import opened Sequences
  import opened Wrappers

  /** One class-name token: a maximal run of non-whitespace characters. */
  type Token = string

  predicate HasPrefix(t: string, pre: string)
  {
    |pre| <= |t| && t[..|pre|] == pre
  }

  predicate IsSpace(c: char)
  {
    c == ' ' || c == '\t' || c == '\n' || c == '\r' || c == '\U{000C}'
  }

  /** A well-formed token: non-empty and without whitespace. */
  predicate IsWord(t: string)
  {
    t != [] && forall i | 0 <= i < |t| :: !IsSpace(t[i])
  }

  /** The whitespace-separated tokens of `s`, in order. */
  function Split(s: string): (r: seq<Token>)
    ensures forall i | 0 <= i < |r| :: IsWord(r[i])
    ensures s != [] && !IsSpace(s[0]) ==> r != [] && |r[0]| > 0 && r[0][0] == s[0]
    decreases |s|
  {
    if s == [] then []
    else if IsSpace(s[0]) then Split(s[1..])
    else if |s| > 1 && !IsSpace(s[1]) then
      var rest := Split(s[1..]);
      [[s[0]] + rest[0]] + rest[1..]
    else [[s[0]]] + Split(s[1..])
  }

  /** The tokens joined by single spaces. */
  function Join(ts: seq<string>): string
  {
    if |ts| == 0 then ""
    else if |ts| == 1 then ts[0]
    else ts[0] + " " + Join(ts[1..])
  }

  /** The tokens of each string, one string after another. */
  function SplitAll(ps: seq<string>): seq<Token>
  {
    if ps == [] then [] else Split(ps[0]) + SplitAll(ps[1..])
  }

  /** A space between two strings separates their tokens. */
  lemma {:induction false} SplitAround(x: string, y: string)
    ensures Split(x + " " + y) == Split(x) + Split(y)
    decreases |x|
  {
    var s := x + " " + y;
    if x == [] {
      assert s[1..] == y;
    } else {
      assert s[0] == x[0] && s[1..] == x[1..] + " " + y;
      SplitAround(x[1..], y);
      if !IsSpace(x[0]) && |x| > 1 && !IsSpace(x[1]) {
        assert s[1] == x[1];
      } else if !IsSpace(x[0]) && |x| == 1 {
        assert s[1] == ' ';
        assert Split(x[1..]) == [];
      }
    }
  }

  /** Splitting the joined strings gives the tokens of each string in turn. */
  lemma {:induction false} SplitJoin(ps: seq<string>)
    ensures Split(Join(ps)) == SplitAll(ps)
  {
    if |ps| == 1 {
      assert SplitAll(ps[1..]) == [];
    } else if |ps| > 1 {
      SplitJoin(ps[1..]);
      SplitAround(ps[0], Join(ps[1..]));
    }
  }

  /** A word splits into itself. */
  lemma {:induction false} SplitWord(t: string)
    requires IsWord(t)
    ensures Split(t) == [t]
    decreases |t|
  {
    if |t| > 1 {
      SplitWord(t[1..]);
      assert [t[0]] + t[1..] == t;
    } else {
      assert t[1..] == [] && [t[0]] == t;
    }
  }

  lemma {:induction false} SplitAllWords(ts: seq<string>)
    requires forall i | 0 <= i < |ts| :: IsWord(ts[i])
    ensures SplitAll(ts) == ts
  {
    if ts != [] {
      SplitWord(ts[0]);
      SplitAllWords(ts[1..]);
    }
  }

  /** Joining words and splitting the result gives the words back. */
  lemma WordsRoundTrip(ts: seq<Token>)
    requires forall i | 0 <= i < |ts| :: IsWord(ts[i])
    ensures Split(Join(ts)) == ts
  {
    SplitJoin(ts);
    SplitAllWords(ts);
  }

  /** A clsx argument: a string, a boolean, null or undefined, an array of
      arguments, or an object whose keys are included when their value is true. */
  datatype ClassValue =
    | Str(s: string)
    | Bool(b: bool)
    | Nil
    | Arr(items: seq<ClassValue>)
    | Obj(entries: seq<(string, bool)>)

  /** The keys of the entries whose value is true. */
  function TrueKeys(entries: seq<(string, bool)>): (r: seq<string>)
    ensures forall i | 0 <= i < |r| :: r[i] != ""
  {
    if entries == [] then []
    else (if entries[0].1 && entries[0].0 != "" then [entries[0].0] else []) + TrueKeys(entries[1..])
  }

  /** The non-empty strings the arguments contribute, in argument order. */
  function Flatten(vs: seq<ClassValue>): (r: seq<string>)
    ensures forall i | 0 <= i < |r| :: r[i] != ""
    decreases vs
  {
    if vs == [] then [] else Pieces(vs[0]) + Flatten(vs[1..])
  }

  /** The strings one argument contributes. */
  function Pieces(v: ClassValue): (r: seq<string>)
    ensures forall i | 0 <= i < |r| :: r[i] != ""
    decreases v
  {
    match v
    case Str(s) => if s == "" then [] else [s]
    case Bool(_) => []
    case Nil => []
    case Arr(items) => Flatten(items)
    case Obj(entries) => TrueKeys(entries)
  }

  /** clsx: the contributed strings joined by single spaces. */
  function Clsx(vs: seq<ClassValue>): string
  {
    Join(Flatten(vs))
  }

  /** A component's optional `className` prop as a cn argument: undefined
      contributes nothing. */
  function UserClass(c: Option<string>): ClassValue
  {
    if c.Some? then Str(c.value) else Nil
  }

  /** The family prefixes whose members set the same CSS property: a later
      member of a family overrides an earlier one under the same modifiers. */
  const Families: seq<string> := [
    "p-", "px-", "py-", "pt-", "pr-", "pb-", "pl-",
    "mx-", "my-", "m-",
    "h-", "w-", "min-w-", "gap-",
    "bg-", "rounded-", "shadow-", "opacity-", "z-", "cursor-", "duration-"]

  /** What two tokens must share to conflict: the modifiers (`hover:`,
      `disabled:`, ...) and the family, or, for a token outside every family,
      the whole token. */
  datatype ConflictKey = Family(modifiers: string, family: string) | Exact(token: Token)

  /** The index of the last ':' in `t`, or -1. */
  function LastColon(t: string): (r: int)
    ensures -1 <= r < |t|
    ensures r >= 0 ==> t[r] == ':'
    ensures forall i | r < i < |t| :: t[i] != ':'
  {
    if t == [] then -1
    else if t[|t| - 1] == ':' then |t| - 1
    else LastColon(t[..|t| - 1])
  }

  /** The first family whose prefix `u` carries with something after it. */
  function FamilyOf(u: string, fs: seq<string>): (r: Option<string>)
    ensures r.Some? ==> r.value in fs && HasPrefix(u, r.value)
  {
    if fs == [] then None
    else if |fs[0]| < |u| && HasPrefix(u, fs[0]) then Some(fs[0])
    else FamilyOf(u, fs[1..])
  }

  /** The `text-` values that are font sizes rather than colours. */
  const FontSizes: seq<string> := [
    "xs", "sm", "base", "lg", "xl", "2xl", "3xl", "4xl", "5xl", "6xl", "7xl", "8xl", "9xl"]

  /** The `text-` values that set alignment, wrapping or overflow. */
  const TextKeywords: seq<string> := [
    "left", "center", "right", "justify", "start", "end",
    "wrap", "nowrap", "balance", "pretty", "ellipsis", "clip"]

  /** The `border-` values that set a width or a style. */
  const BorderKeywords: seq<string> := [
    "0", "2", "4", "8", "solid", "dashed", "dotted", "double", "hidden", "none", "collapse", "separate"]

  /** A `border-` value that names one side (`border-x`, `border-t-2`, ...). */
  predicate IsSide(v: string)
  {
    |v| >= 1 && v[0] in "xytrblse" && (|v| == 1 || v[1] == '-')
  }

  /** The families whose members are told apart by value rather than by
      prefix: font sizes and text colours share `text-`, border widths and
      border colours share `border-`; any other value is a colour. */
  function ValueFamily(u: string): (r: Option<string>)
    ensures r.Some? ==> r.value in {"font-size", "text-color", "border-color"}
    ensures r == Some("font-size") <==> |u| > 5 && HasPrefix(u, "text-") && u[5..] in FontSizes
    ensures r == Some("text-color") <==> |u| > 5 && HasPrefix(u, "text-") && u[5..] !in FontSizes && u[5..] !in TextKeywords
    ensures r == Some("border-color") <==> |u| > 7 && HasPrefix(u, "border-") && u[7..] !in BorderKeywords && !IsSide(u[7..])
  {
    if |u| > 5 && HasPrefix(u, "text-") then
      var v := u[5..];
      assert !HasPrefix(u, "border-") by {
        assert u[..5][0] == u[0] == 't';
      }
      if v in FontSizes then Some("font-size") else if v in TextKeywords then None else Some("text-color")
    else if |u| > 7 && HasPrefix(u, "border-") then
      var v := u[7..];
      if v in BorderKeywords || IsSide(v) then None else Some("border-color")
    else None
  }

  function KeyOf(t: Token): ConflictKey
  {
    var i := LastColon(t);
    var u := t[i + 1..];
    match FamilyOf(u, Families)
    case Some(f) => Family(t[..i + 1], f)
    case None =>
      var v := ValueFamily(u);
      if v.Some? then Family(t[..i + 1], v.value) else Exact(t)
  }

  /** The keys of a token list. */
  function KeysOf<K>(ts: seq<Token>, key: Token -> K): set<K>
  {
    set t | t in ts :: key(t)
  }

  /** tailwind-merge: drop every token that a later token of the same key overrides. */
  function Merge<K(==)>(ts: seq<Token>, key: Token -> K): (r: seq<Token>)
    ensures forall x | x in r :: x in ts
  {
    if ts == [] then []
    else if key(ts[0]) in KeysOf(ts[1..], key) then Merge(ts[1..], key)
    else [ts[0]] + Merge(ts[1..], key)
  }

  /** No two tokens of `r` share a key. */
  predicate NoConflicts<K(==)>(r: seq<Token>, key: Token -> K)
  {
    forall i, j | 0 <= i < j < |r| :: key(r[i]) != key(r[j])
  }

  /** No two tokens of a merge result conflict. */
  lemma {:induction false} MergeUniqueKeys<K>(ts: seq<Token>, key: Token -> K)
    ensures NoConflicts(Merge(ts, key), key)
  {
    if ts != [] {
      MergeUniqueKeys(ts[1..], key);
      var m := Merge(ts[1..], key);
      if key(ts[0]) !in KeysOf(ts[1..], key) {
        var r := [ts[0]] + m;
        assert Merge(ts, key) == r;
        forall i, j | 0 <= i < j < |r|
          ensures key(r[i]) != key(r[j])
        {
          assert r[j] == m[j - 1];
          if i == 0 {
            assert r[0] == ts[0] && r[j] in ts[1..];
            assert key(r[j]) in KeysOf(ts[1..], key);
          } else {
            assert r[i] == m[i - 1];
            assert key(m[i - 1]) != key(m[j - 1]);
          }
        }
      } else {
        assert Merge(ts, key) == m;
      }
    }
  }

  /** The last token of `ts` with key `k`, if any. */
  function LastWithKey<K(==)>(ts: seq<Token>, key: Token -> K, k: K): (r: Option<Token>)
    ensures r.Some? ==> r.value in ts && key(r.value) == k
    ensures r.None? <==> k !in KeysOf(ts, key)
  {
    if ts == [] then None
    else match LastWithKey(ts[1..], key, k)
      case Some(t) => Some(t)
      case None => if key(ts[0]) == k then Some(ts[0]) else None
  }

  /** A token survives the merge iff it is the last token of its key: of the
      tokens that conflict, only the last is kept. */
  lemma {:induction false} MergeKeepsLast<K>(ts: seq<Token>, key: Token -> K, t: Token)
    ensures t in Merge(ts, key) <==> LastWithKey(ts, key, key(t)) == Some(t)
  {
    if ts != [] {
      MergeKeepsLast(ts[1..], key, t);
      if key(ts[0]) !in KeysOf(ts[1..], key) {
        assert Merge(ts, key) == [ts[0]] + Merge(ts[1..], key);
      }
    }
  }

  /** Tokens that do not conflict all survive, in their order. */
  lemma {:induction false} MergeNoConflicts<K>(ts: seq<Token>, key: Token -> K)
    requires NoConflicts(ts, key)
    ensures Merge(ts, key) == ts
  {
    if ts != [] {
      assert NoConflicts(ts[1..], key) by {
        forall i, j | 0 <= i < j < |ts| - 1
          ensures key(ts[1..][i]) != key(ts[1..][j])
        {
          assert ts[1..][i] == ts[i + 1] && ts[1..][j] == ts[j + 1];
        }
      }
      MergeNoConflicts(ts[1..], key);
      assert [ts[0]] + ts[1..] == ts;
    }
  }

  /** Merging twice is merging once. */
  lemma MergeIdempotent<K>(ts: seq<Token>, key: Token -> K)
    ensures Merge(Merge(ts, key), key) == Merge(ts, key)
  {
    MergeUniqueKeys(ts, key);
    MergeNoConflicts(Merge(ts, key), key);
  }

  /** `a` is `b` with some elements left out, the rest in their order. */
  predicate IsSubsequence(a: seq<Token>, b: seq<Token>)
    decreases |b|
  {
    if a == [] then true
    else if b == [] then false
    else (a[0] == b[0] && IsSubsequence(a[1..], b[1..])) || IsSubsequence(a, b[1..])
  }

  lemma {:induction false} SubsequenceOfSelf(b: seq<Token>)
    ensures IsSubsequence(b, b)
  {
    if b != [] {
      SubsequenceOfSelf(b[1..]);
    }
  }

  /** The survivors keep the order they had in the input. */
  lemma {:induction false} MergeKeepsOrder<K>(ts: seq<Token>, key: Token -> K)
    ensures IsSubsequence(Merge(ts, key), ts)
  {
    if ts != [] {
      MergeKeepsOrder(ts[1..], key);
      var m := Merge(ts[1..], key);
      if key(ts[0]) !in KeysOf(ts[1..], key) {
        var r := [ts[0]] + m;
        assert Merge(ts, key) == r && r[1..] == m;
      } else {
        assert Merge(ts, key) == m;
        if m != [] {
          assert IsSubsequence(m, ts[1..]);
        }
      }
    }
  }

  /** The tokens of `a` whose key no token of `b` has. */
  function Outlived<K(==)>(a: seq<Token>, b: seq<Token>, key: Token -> K): (r: seq<Token>)
    ensures forall t | t in r :: t in a
  {
    if a == [] then []
    else if key(a[0]) in KeysOf(b, key) then Outlived(a[1..], b, key)
    else [a[0]] + Outlived(a[1..], b, key)
  }

  lemma KeysOfAppend<K>(a: seq<Token>, b: seq<Token>, key: Token -> K)
    ensures KeysOf(a + b, key) == KeysOf(a, key) + KeysOf(b, key)
  {
  }

  /** The keys left in `a` are those `b` does not override. */
  lemma {:induction false} OutlivedKeys<K>(a: seq<Token>, b: seq<Token>, key: Token -> K)
    ensures KeysOf(Outlived(a, b, key), key) == KeysOf(a, key) - KeysOf(b, key)
  {
    if a != [] {
      OutlivedKeys(a[1..], b, key);
      KeysOfAppend([a[0]], a[1..], key);
      assert [a[0]] + a[1..] == a;
      if key(a[0]) !in KeysOf(b, key) {
        KeysOfAppend([a[0]], Outlived(a[1..], b, key), key);
      }
    }
  }

  /** Merging a token in front of `s`. */
  lemma MergeCons<K>(x: Token, s: seq<Token>, key: Token -> K)
    ensures Merge([x] + s, key) == if key(x) in KeysOf(s, key) then Merge(s, key) else [x] + Merge(s, key)
  {
    assert ([x] + s)[0] == x && ([x] + s)[1..] == s;
  }

  lemma Regroup3(a: seq<Token>, b: seq<Token>, c: seq<Token>)
    ensures a + (b + c) == (a + b) + c
  {
  }

  /** The step of `MergeAppend` for a first token that `b` does not override. */
  lemma MergeAppendKept<K>(x: Token, rest: seq<Token>, b: seq<Token>, key: Token -> K)
    requires key(x) !in KeysOf(b, key)
    requires Merge(rest + b, key) == Merge(Outlived(rest, b, key), key) + Merge(b, key)
    ensures Merge([x] + (rest + b), key) == Merge(Outlived([x] + rest, b, key), key) + Merge(b, key)
  {
    var o := Outlived(rest, b, key);
    assert ([x] + rest)[0] == x && ([x] + rest)[1..] == rest;
    assert Outlived([x] + rest, b, key) == [x] + o;
    KeysOfAppend(rest, b, key);
    OutlivedKeys(rest, b, key);
    assert key(x) in KeysOf(rest + b, key) <==> key(x) in KeysOf(o, key);
    MergeCons(x, o, key);
    MergeCons(x, rest + b, key);
    if key(x) !in KeysOf(o, key) {
      Regroup3([x], Merge(o, key), Merge(b, key));
    }
  }

  /** Merging a concatenation: the tokens of `b` all survive as in `Merge(b)`,
      and of `a` only those whose key `b` does not override, so a later
      argument overrides an earlier one. */
  lemma {:induction false} MergeAppend<K>(a: seq<Token>, b: seq<Token>, key: Token -> K)
    ensures Merge(a + b, key) == Merge(Outlived(a, b, key), key) + Merge(b, key)
  {
    if a == [] {
      assert a + b == b;
    } else {
      var x := a[0];
      assert (a + b)[0] == x && (a + b)[1..] == a[1..] + b;
      MergeAppend(a[1..], b, key);
      KeysOfAppend(a[1..], b, key);
      if key(x) in KeysOf(b, key) {
        assert Merge(a + b, key) == Merge(a[1..] + b, key);
      } else {
        MergeAppendKept(x, a[1..], b, key);
      }
    }
  }

  /** A token followed later by a different token of its key does not survive. */
  lemma OverriddenByLater<K>(a: seq<Token>, b: seq<Token>, x: Token, y: Token, key: Token -> K)
    requires x in a && x !in b && y in b && key(x) == key(y)
    ensures x !in Merge(a + b, key)
  {
    MergeAppend(a, b, key);
    OutlivedKeys(a, b, key);
    assert key(y) in KeysOf(b, key);
    assert key(x) !in KeysOf(Outlived(a, b, key), key);
  }

  /** Tokens at the end of which no two conflict all survive. */
  lemma TrailingTokensSurvive<K>(a: seq<Token>, b: seq<Token>, key: Token -> K)
    requires NoConflicts(b, key)
    ensures forall x | x in b :: x in Merge(a + b, key)
  {
    MergeAppend(a, b, key);
    MergeNoConflicts(b, key);
  }

  /** clsx, then a last-wins merge under conflict key `key`, then the
      survivors joined by single spaces. */
  function CnBy<K(==)>(vs: seq<ClassValue>, key: Token -> K): string
  {
    Join(Merge(Split(Clsx(vs)), key))
  }

  /** cn: clsx followed by tailwind-merge, whose conflict key is `KeyOf`. */
  function Cn(vs: seq<ClassValue>): string
  {
    CnBy(vs, KeyOf)
  }

  /** Merged words, joined, split back into themselves. */
  lemma MergeRoundTrip<K>(ts: seq<Token>, key: Token -> K)
    requires forall i | 0 <= i < |ts| :: IsWord(ts[i])
    ensures Split(Join(Merge(ts, key))) == Merge(ts, key)
  {
    var m := Merge(ts, key);
    forall i | 0 <= i < |m|
      ensures IsWord(m[i])
    {
      assert m[i] in ts;
    }
    WordsRoundTrip(m);
  }

  /** Of two conflicting words, the later alone survives. */
  lemma MergePair<K>(x: Token, y: Token, key: Token -> K)
    requires key(x) == key(y)
    ensures Merge([x, y], key) == [y]
  {
    assert [x] + [y] == [x, y] && [y] + [] == [y];
    assert key(x) in KeysOf([y], key);
    MergeCons(x, [y], key);
    MergeCons(y, [], key);
  }

  /** The tokens `cn` merges. */
  function Tokens(vs: seq<ClassValue>): seq<Token>
  {
    Split(Clsx(vs))
  }

  lemma {:induction false} FlattenAppend(a: seq<ClassValue>, b: seq<ClassValue>)
    ensures Flatten(a + b) == Flatten(a) + Flatten(b)
  {
    if a == [] {
      assert a + b == b;
    } else {
      assert (a + b)[0] == a[0] && (a + b)[1..] == a[1..] + b;
      FlattenAppend(a[1..], b);
    }
  }

  lemma {:induction false} SplitAllAppend(a: seq<string>, b: seq<string>)
    ensures SplitAll(a + b) == SplitAll(a) + SplitAll(b)
  {
    if a == [] {
      assert a + b == b;
    } else {
      assert (a + b)[0] == a[0] && (a + b)[1..] == a[1..] + b;
      SplitAllAppend(a[1..], b);
    }
  }

  /** The tokens are those of every contributed string, in argument order, so
      joining the strings first changes nothing. */
  lemma TokensOfPieces(vs: seq<ClassValue>)
    ensures Tokens(vs) == SplitAll(Flatten(vs))
  {
    SplitJoin(Flatten(vs));
  }

  /** Equal contributed strings give equal results. */
  lemma SameTokensSameCn<K>(vs: seq<ClassValue>, ws: seq<ClassValue>, key: Token -> K)
    requires SplitAll(Flatten(vs)) == SplitAll(Flatten(ws))
    ensures Tokens(vs) == Tokens(ws) && CnBy(vs, key) == CnBy(ws, key)
  {
    TokensOfPieces(vs);
    TokensOfPieces(ws);
  }

  /** A single non-empty string argument gives its own tokens. */
  lemma OneString(z: string)
    requires z != ""
    ensures Tokens([Str(z)]) == Split(z)
  {
    assert Flatten([Str(z)]) == [z] + Flatten([]);
  }

  /** No arguments give the empty string. */
  lemma CnOfNothing<K>(key: Token -> K)
    ensures CnBy([], key) == ""
  {
  }

  /** A boolean, null or undefined argument contributes nothing, wherever it stands. */
  lemma NoClassArgument<K>(a: seq<ClassValue>, v: ClassValue, b: seq<ClassValue>, key: Token -> K)
    requires v.Bool? || v.Nil?
    ensures CnBy(a + [v] + b, key) == CnBy(a + b, key)
  {
    NoClassPieces(a, v, b);
  }

  lemma NoClassPieces(a: seq<ClassValue>, v: ClassValue, b: seq<ClassValue>)
    requires v.Bool? || v.Nil?
    ensures Flatten(a + [v] + b) == Flatten(a + b)
  {
    FlattenAppend(a + [v], b);
    FlattenAppend(a, [v]);
    FlattenAppend(a, b);
    assert Flatten([v]) == Pieces(v) + Flatten([]);
  }

  /** An array argument counts as its elements, in order, in its place. */
  lemma ArrayArgument<K>(a: seq<ClassValue>, xs: seq<ClassValue>, b: seq<ClassValue>, key: Token -> K)
    ensures CnBy(a + [Arr(xs)] + b, key) == CnBy(a + xs + b, key)
  {
    ArrayPieces(a, xs, b);
  }

  lemma ArrayPieces(a: seq<ClassValue>, xs: seq<ClassValue>, b: seq<ClassValue>)
    ensures Flatten(a + [Arr(xs)] + b) == Flatten(a + xs + b)
  {
    var front := [Arr(xs)] + b;
    assert a + [Arr(xs)] + b == a + front && a + xs + b == a + (xs + b);
    FlattenAppend(a, front);
    FlattenAppend(a, xs + b);
    FlattenAppend(xs, b);
    assert front[0] == Arr(xs) && front[1..] == b;
  }

  /** An object argument contributes exactly its non-empty keys whose value is true. */
  lemma {:induction false} ObjectArgument(es: seq<(string, bool)>, k: string)
    ensures k in TrueKeys(es) <==> k != "" && (k, true) in es
  {
    if es != [] {
      ObjectArgument(es[1..], k);
      assert es == [es[0]] + es[1..];
    }
  }

  /** Splitting into separate arguments or joining them into one string with a
      space gives the same result: conflicts resolve across arguments as within one. */
  lemma ArgumentsMergeAsOne<K>(x: string, y: string, key: Token -> K)
    ensures CnBy([Str(x), Str(y)], key) == CnBy([Str(x + " " + y)], key)
  {
    var vs, ws := [Str(x), Str(y)], [Str(x + " " + y)];
    FlattenAppend([Str(x)], [Str(y)]);
    assert vs == [Str(x)] + [Str(y)];
    SplitAllAppend(Flatten([Str(x)]), Flatten([Str(y)]));
    assert SplitAll(Flatten([Str(x)])) == Split(x);
    assert SplitAll(Flatten([Str(y)])) == Split(y);
    assert Flatten(ws) == [x + " " + y];
    SplitAround(x, y);
    SameTokensSameCn(vs, ws, key);
  }

  /** The output is the merged tokens separated by single spaces: splitting it
      gives them back. */
  lemma CnWellFormed<K>(vs: seq<ClassValue>, key: Token -> K)
    ensures Split(CnBy(vs, key)) == Merge(Tokens(vs), key)
  {
    MergeRoundTrip(Tokens(vs), key);
  }

  /** Tokens of which no two conflict come out all, in input order, single-spaced. */
  lemma CnWithoutConflicts<K>(vs: seq<ClassValue>, key: Token -> K)
    requires NoConflicts(Tokens(vs), key)
    ensures CnBy(vs, key) == Join(Tokens(vs))
  {
    MergeNoConflicts(Tokens(vs), key);
  }

  /** Of two conflicting tokens in separate arguments, the later wins. */
  lemma LaterArgumentWins<K>(x: Token, y: Token, key: Token -> K)
    requires IsWord(x) && IsWord(y) && key(x) == key(y)
    ensures CnBy([Str(x), Str(y)], key) == y
  {
    ArgumentsMergeAsOne(x, y, key);
    SplitAround(x, y);
    SplitWord(x);
    SplitWord(y);
    OneString(x + " " + y);
    MergePair(x, y, key);
  }

  /** Applying cn to its own output changes nothing. */
  lemma CnIdempotent<K>(vs: seq<ClassValue>, key: Token -> K)
    ensures CnBy([Str(CnBy(vs, key))], key) == CnBy(vs, key)
  {
    var out := CnBy(vs, key);
    CnWellFormed(vs, key);
    MergeIdempotent(Tokens(vs), key);
    if out != "" {
      OneString(out);
    } else {
      assert Flatten([Str(out)]) == [];
    }
  }

  /** The tokens of consecutive arguments are those of each part in turn. */
  lemma TokensAppend(a: seq<ClassValue>, b: seq<ClassValue>)
    ensures Tokens(a + b) == Tokens(a) + Tokens(b)
  {
    TokensOfPieces(a + b);
    TokensOfPieces(a);
    TokensOfPieces(b);
    FlattenAppend(a, b);
    SplitAllAppend(Flatten(a), Flatten(b));
  }

  /** The last argument wins every conflict: the output is the surviving
      tokens of the earlier arguments, none of which shares a key with a token
      of the last argument, followed by the merged tokens of the last argument. */
  lemma LastArgumentWins<K>(front: seq<ClassValue>, v: ClassValue, key: Token -> K)
    ensures exists pre ::
      && Split(CnBy(front + [v], key)) == pre + Merge(Tokens([v]), key)
      && forall t | t in pre :: t in Tokens(front) && key(t) !in KeysOf(Tokens([v]), key)
  {
    var f, u := Tokens(front), Tokens([v]);
    TokensAppend(front, [v]);
    CnWellFormed(front + [v], key);
    MergeAppend(f, u, key);
    var o := Outlived(f, u, key);
    OutlivedKeys(f, u, key);
    var pre := Merge(o, key);
    forall t | t in pre
      ensures t in f && key(t) !in KeysOf(u, key)
    {
      assert t in o;
      assert key(t) in KeysOf(o, key);
    }
    assert Split(CnBy(front + [v], key)) == pre + Merge(u, key);
  }

  /** A word given as a conditional argument after a fixed string of words
      appears in the output exactly when its condition holds: as the last
      token it survives every merge, and a merge keeps only input tokens. */
  lemma TrailingFlag<K>(base: seq<Token>, w: Token, on: bool, key: Token -> K)
    requires base != [] && forall i | 0 <= i < |base| :: IsWord(base[i])
    requires IsWord(w) && w !in base
    ensures w in Split(CnBy([Str(Join(base)), if on then Str(w) else Bool(false)], key)) <==> on
  {
    var j := Join(base);
    WordsRoundTrip(base);
    assert j != "";
    OneString(j);
    var vs := [Str(j), if on then Str(w) else Bool(false)];
    CnWellFormed(vs, key);
    if on {
      TokensAppend([Str(j)], [Str(w)]);
      assert vs == [Str(j)] + [Str(w)];
      OneString(w);
      SplitWord(w);
      MergeAppend(base, [w], key);
      MergeCons(w, [], key);
    } else {
      assert vs == [Str(j)] + [Bool(false)] + [] && [Str(j)] + [] == [Str(j)];
      NoClassArgument([Str(j)], Bool(false), [], key);
      CnWellFormed([Str(j)], key);
    }
  }

  /** A single-digit padding token such as `p-4`. */
  predicate IsPadding(t: Token)
  {
    |t| == 3 && t[0] == 'p' && t[1] == '-' && '0' <= t[2] <= '9'
  }

  /** Two padding tokens are one family, so the later one wins, whether they
      come as two arguments or in one string: `cn("p-4 p-2")` is "p-2". */
  lemma PaddingLastWins(x: Token, y: Token)
    requires IsPadding(x) && IsPadding(y)
    ensures Cn([Str(x), Str(y)]) == y
    ensures Cn([Str(x + " " + y)]) == y
  {
    PaddingKey(x);
    PaddingKey(y);
    LaterArgumentWins(x, y, KeyOf);
    ArgumentsMergeAsOne(x, y, KeyOf);
  }

  lemma PaddingKey(t: Token)
    requires IsPadding(t)
    ensures IsWord(t) && KeyOf(t) == Family("", "p-")
  {
    NoColon(t);
    assert t[0..] == t && t[..0] == "";
    PaddingFamily(t);
  }

  lemma NoColon(t: Token)
    requires |t| == 3 && t[0] != ':' && t[1] != ':' && t[2] != ':'
    ensures LastColon(t) == -1
  {
    assert t[..2][..1] == t[..1];
    assert t[..2][..1][..0] == [];
  }

  lemma PaddingFamily(t: Token)
    requires |t| == 3 && t[0] == 'p' && t[1] == '-'
    ensures FamilyOf(t, Families) == Some("p-")
  {
    assert t[..2] == "p-";
    assert Families[0] == "p-";
  }

  /** A single-digit horizontal padding token such as `px-4`. */
  predicate IsPaddingX(t: Token)
  {
    |t| == 4 && t[0] == 'p' && t[1] == 'x' && t[2] == '-' && '0' <= t[3] <= '9'
  }

  /** Two horizontal padding tokens are one family, so the later wins:
      `cn("px-2", "px-4")` is "px-4". */
  lemma PaddingXLastWins(x: Token, y: Token)
    requires IsPaddingX(x) && IsPaddingX(y)
    ensures Cn([Str(x), Str(y)]) == y
  {
    PaddingXKey(x);
    PaddingXKey(y);
    LaterArgumentWins(x, y, KeyOf);
  }

  lemma PaddingXKey(t: Token)
    requires IsPaddingX(t)
    ensures IsWord(t) && KeyOf(t) == Family("", "px-")
  {
    NoColon4(t);
    PaddingXFamily(t);
    KeyWithoutModifiers(t, "px-");
    PaddingXIsWord(t);
  }

  lemma PaddingXIsWord(t: Token)
    requires IsPaddingX(t)
    ensures IsWord(t)
  {
    assert !IsSpace(t[0]) && !IsSpace(t[1]) && !IsSpace(t[2]) && !IsSpace(t[3]);
  }

  /** A token without modifiers is keyed by its family alone. */
  lemma KeyWithoutModifiers(t: Token, f: string)
    requires LastColon(t) == -1 && FamilyOf(t, Families) == Some(f)
    ensures KeyOf(t) == Family("", f)
  {
    assert t[0..] == t && t[..0] == "";
  }

  lemma NoColon4(t: Token)
    requires |t| == 4 && t[0] != ':' && t[1] != ':' && t[2] != ':' && t[3] != ':'
    ensures LastColon(t) == -1
  {
    assert t[..3][..2] == t[..2];
    NoColon(t[..3]);
  }

  lemma PaddingXFamily(t: Token)
    requires |t| == 4 && t[0] == 'p' && t[1] == 'x' && t[2] == '-'
    ensures FamilyOf(t, Families) == Some("px-")
  {
    assert Families[0] == "p-" && !HasPrefix(t, "p-");
    assert Families[1..][0] == "px-" && t[..3] == "px-";
  }

  /** A token without a `:` has no modifiers. */
  lemma NoModifiers(t: Token)
    requires ':' !in t
    ensures LastColon(t) == -1 && t[LastColon(t) + 1..] == t && t[..LastColon(t) + 1] == ""
  {
  }

  /** No family of `fs` is a prefix of `u` when all of them differ from it in
      the first two characters. */
  lemma {:induction false} NoPrefixFamily(u: string, fs: seq<string>)
    requires |u| >= 2
    requires forall j | 0 <= j < |fs| :: |fs[j]| >= 2 && (fs[j][0] != u[0] || fs[j][1] != u[1])
    ensures FamilyOf(u, fs) == None
  {
    if fs != [] {
      NoPrefixFamily(u, fs[1..]);
    }
  }

  /** Every prefix family, by its first two characters. */
  lemma FamilyStarts(j: int)
    requires 0 <= j < |Families|
    ensures |Families[j]| >= 2
    ensures Families[j][0] != 't' && (Families[j][0] == 'b' ==> Families[j][1] == 'g')
  {
  }

  lemma ValueTokenStart(u: string)
    requires HasPrefix(u, "text-") || HasPrefix(u, "border-")
    ensures (u[0] == 't' && u[1] == 'e') || (u[0] == 'b' && u[1] == 'o')
  {
    if HasPrefix(u, "text-") {
      assert u[0] == u[..5][0] && u[1] == u[..5][1];
    } else {
      assert u[0] == u[..7][0] && u[1] == u[..7][1];
    }
  }

  /** No prefix family starts like `text-` or `border-`. */
  lemma ValueTokensHaveNoPrefixFamily(u: string)
    requires |u| > 5 && (HasPrefix(u, "text-") || HasPrefix(u, "border-"))
    ensures FamilyOf(u, Families) == None
  {
    ValueTokenStart(u);
    forall j | 0 <= j < |Families|
      ensures |Families[j]| >= 2 && (Families[j][0] != u[0] || Families[j][1] != u[1])
    {
      FamilyStarts(j);
    }
    NoPrefixFamily(u, Families);
  }

  /** A text colour such as `text-on-primary`: a `text-` token that is
      neither a font size nor an alignment, wrapping or overflow keyword. */
  predicate IsTextColour(t: Token)
  {
    ':' !in t && |t| > 5 && HasPrefix(t, "text-") && t[5..] !in FontSizes && t[5..] !in TextKeywords
  }

  /** A border colour such as `border-outline`: a `border-` token that names
      neither a width, a style nor a side. */
  predicate IsBorderColour(t: Token)
  {
    ':' !in t && |t| > 7 && HasPrefix(t, "border-") && t[7..] !in BorderKeywords && !IsSide(t[7..])
  }

  lemma TextColourKey(t: Token)
    requires IsTextColour(t)
    ensures KeyOf(t) == Family("", "text-color")
  {
    NoModifiers(t);
    ValueTokensHaveNoPrefixFamily(t);
  }

  lemma BorderColourKey(t: Token)
    requires IsBorderColour(t)
    ensures KeyOf(t) == Family("", "border-color")
  {
    NoModifiers(t);
    ValueTokensHaveNoPrefixFamily(t);
  }

  /** A font size such as `text-sm`. */
  predicate IsFontSize(t: Token)
  {
    ':' !in t && |t| > 5 && HasPrefix(t, "text-") && t[5..] in FontSizes
  }

  lemma FontSizeKey(t: Token)
    requires IsFontSize(t)
    ensures KeyOf(t) == Family("", "font-size")
  {
    NoModifiers(t);
    ValueTokensHaveNoPrefixFamily(t);
  }

  /** Of two text colours, or of two border colours, the later wins. */
  lemma ColoursLastWins(x: Token, y: Token)
    requires IsWord(x) && IsWord(y)
    requires (IsTextColour(x) && IsTextColour(y)) || (IsBorderColour(x) && IsBorderColour(y))
    ensures Cn([Str(x), Str(y)]) == y
  {
    SameColourKey(x, y);
    LaterArgumentWins(x, y, KeyOf);
  }

  lemma SameColourKey(x: Token, y: Token)
    requires (IsTextColour(x) && IsTextColour(y)) || (IsBorderColour(x) && IsBorderColour(y))
    ensures KeyOf(x) == KeyOf(y)
  {
    if IsTextColour(x) && IsTextColour(y) {
      TextColourKey(x);
      TextColourKey(y);
    } else {
      BorderColourKey(x);
      BorderColourKey(y);
    }
  }

  /** A font size and a text colour do not conflict, though both start with `text-`. */
  lemma FontSizeIsNotColour(x: Token, z: Token)
    requires IsTextColour(x) && IsFontSize(z)
    ensures KeyOf(z) != KeyOf(x)
  {
    TextColourKey(x);
    FontSizeKey(z);
  }

  /** Families whose first character differs from that of `u` can be skipped. */
  lemma {:induction false} FamilySkip(u: string, fs: seq<string>, k: nat)
    requires u != [] && k <= |fs|
    requires forall j | 0 <= j < k :: fs[j] != [] && fs[j][0] != u[0]
    ensures FamilyOf(u, fs) == FamilyOf(u, fs[k..])
  {
    if k > 0 {
      FamilySkip(u, fs[1..], k - 1);
      assert fs[1..][k - 1..] == fs[k..];
    }
  }

  /** A background such as `bg-primary`. */
  predicate IsBackground(t: Token)
  {
    ':' !in t && |t| > 3 && HasPrefix(t, "bg-")
  }

  lemma BackgroundKey(t: Token)
    requires IsBackground(t)
    ensures KeyOf(t) == Family("", "bg-")
  {
    NoModifiers(t);
    assert t[0] == t[..3][0] == 'b';
    FamilySkip(t, Families, 14);
    assert Families[14..][0] == "bg-";
  }

  /** Backgrounds, text colours and border colours do not conflict with one another. */
  lemma ColourKindsDiffer(b: Token, x: Token, z: Token)
    requires IsBackground(b) && IsTextColour(x) && IsBorderColour(z)
    ensures KeyOf(b) != KeyOf(x) && KeyOf(b) != KeyOf(z) && KeyOf(x) != KeyOf(z)
  {
    BackgroundKey(b);
    TextColourKey(x);
    BorderColourKey(z);
  }

  /** A text colour followed later by another text colour does not survive. */
  lemma TextColourOverridden(a: seq<Token>, b: seq<Token>, x: Token, y: Token)
    requires IsTextColour(x) && IsTextColour(y) && x in a && x !in b && y in b
    ensures x !in Merge(a + b, KeyOf)
  {
    SameColourKey(x, y);
    OverriddenByLater(a, b, x, y, KeyOf);
  }

  /** A background followed later by another background does not survive. */
  lemma BackgroundOverridden(a: seq<Token>, b: seq<Token>, x: Token, y: Token)
    requires IsBackground(x) && IsBackground(y) && x in a && x !in b && y in b
    ensures x !in Merge(a + b, KeyOf)
  {
    BackgroundKey(x);
    BackgroundKey(y);
    OverriddenByLater(a, b, x, y, KeyOf);
  }

  /** A background, a text colour and a border colour at the end all survive. */
  lemma ColoursAtEndSurvive(a: seq<Token>, x: Token, y: Token, z: Token)
    requires IsBackground(x) && IsTextColour(y) && IsBorderColour(z)
    ensures x in Merge(a + [x, y, z], KeyOf) && y in Merge(a + [x, y, z], KeyOf) && z in Merge(a + [x, y, z], KeyOf)
  {
    ColourKindsDiffer(x, y, z);
    ThreeKeys(x, y, z, KeyOf);
    TrailingTokensSurvive(a, [x, y, z], KeyOf);
  }

  lemma ThreeKeys<K>(x: Token, y: Token, z: Token, key: Token -> K)
    requires key(x) != key(y) && key(x) != key(z) && key(y) != key(z)
    ensures NoConflicts([x, y, z], key)
  {
  }

  /** A border colour followed later by another border colour does not survive. */
  lemma BorderColourOverridden(a: seq<Token>, b: seq<Token>, x: Token, y: Token)
    requires IsBorderColour(x) && IsBorderColour(y) && x in a && x !in b && y in b
    ensures x !in Merge(a + b, KeyOf)
  {
    SameColourKey(x, y);
    OverriddenByLater(a, b, x, y, KeyOf);
  }

  /** A `text-` class whose value is neither a font size nor a keyword. */
  lemma TextOf(s: string)
    requires s != [] && ':' !in s && s !in FontSizes && s !in TextKeywords
    ensures IsTextColour("text-" + s)
  {
    var t := "text-" + s;
    assert t[..5] == "text-" && t[5..] == s;
  }

  /** A `bg-` class with a plain value is a background colour. */
  lemma BackgroundOf(s: string)
    requires s != [] && ':' !in s
    ensures IsBackground("bg-" + s)
  {
    var t := "bg-" + s;
    assert t[..3] == "bg-";
  }
}
