/** Sequence helpers shared by the class-list models: flattening a list of
    class fragments (what `cx`/`clsx` do with nested arrays) and filtering. */
module Sequences {

  /** The concatenation of every fragment, in order. */
  function Concat<T>(fs: seq<seq<T>>): seq<T>
  {
    if |fs| == 0 then [] else fs[0] + Concat(fs[1..])
  }

  lemma {:induction false} ConcatAppend<T>(a: seq<seq<T>>, b: seq<seq<T>>)
    ensures Concat(a + b) == Concat(a) + Concat(b)
  {
    if |a| == 0 {
      assert a + b == b;
    } else {
      assert (a + b)[1..] == a[1..] + b;
      ConcatAppend(a[1..], b);
    }
  }

  lemma ConcatCons<T>(x: seq<T>, fs: seq<seq<T>>)
    ensures Concat([x] + fs) == x + Concat(fs)
  {
    assert ([x] + fs)[1..] == fs;
  }

  lemma Concat3<T>(a: seq<T>, b: seq<T>, c: seq<T>)
    ensures Concat([a, b, c]) == a + b + c
  {
    ConcatCons(c, []);
    ConcatCons(b, [c]);
    ConcatCons(a, [b, c]);
    assert [a] + [b, c] == [a, b, c];
    assert [b] + [c] == [b, c];
    assert [c] + [] == [c];
  }

  lemma Concat5<T>(a: seq<T>, b: seq<T>, c: seq<T>, d: seq<T>, e: seq<T>)
    ensures Concat([a, b, c, d, e]) == a + b + c + d + e
  {
    Concat3(c, d, e);
    ConcatCons(b, [c, d, e]);
    ConcatCons(a, [b, c, d, e]);
    assert [a] + [b, c, d, e] == [a, b, c, d, e];
    assert [b] + [c, d, e] == [b, c, d, e];
  }

  lemma Concat6<T>(a: seq<T>, b: seq<T>, c: seq<T>, d: seq<T>, e: seq<T>, f: seq<T>)
    ensures Concat([a, b, c, d, e, f]) == a + b + c + d + e + f
  {
    Concat5(b, c, d, e, f);
    ConcatCons(a, [b, c, d, e, f]);
    assert [a] + [b, c, d, e, f] == [a, b, c, d, e, f];
  }

  /** Fragment `k` sits between the fragments before it and those after it. */
  lemma ConcatAround<T>(fs: seq<seq<T>>, k: nat)
    requires k < |fs|
    ensures Concat(fs) == Concat(fs[..k]) + fs[k] + Concat(fs[k + 1..])
  {
    var before, after := fs[..k], fs[k..];
    assert fs == before + after;
    ConcatAppend(before, after);
    assert after[1..] == fs[k + 1..];
  }

  /** Replacing fragment `k` changes the concatenation at that fragment only. */
  lemma ConcatUpdate<T>(fs: seq<seq<T>>, k: nat, x: seq<T>)
    requires k < |fs|
    ensures Concat(fs) == Concat(fs[..k]) + fs[k] + Concat(fs[k + 1..])
    ensures Concat(fs[k := x]) == Concat(fs[..k]) + x + Concat(fs[k + 1..])
  {
    var gs := fs[k := x];
    ConcatAround(fs, k);
    ConcatAround(gs, k);
    assert gs[..k] == fs[..k];
    assert gs[k + 1..] == fs[k + 1..];
  }

  /** Fragments that are all empty concatenate to nothing. */
  lemma {:induction false} ConcatAllEmpty<T>(fs: seq<seq<T>>)
    requires forall i | 0 <= i < |fs| :: fs[i] == []
    ensures Concat(fs) == []
  {
    if |fs| > 0 {
      ConcatAllEmpty(fs[1..]);
    }
  }

  /** When every fragment but `j` is empty, the concatenation is fragment `j`. */
  lemma ConcatOnly<T>(fs: seq<seq<T>>, j: nat)
    requires j < |fs|
    requires forall i | 0 <= i < |fs| && i != j :: fs[i] == []
    ensures Concat(fs) == fs[j]
  {
    ConcatAround(fs, j);
    ConcatAllEmpty(fs[..j]);
    ConcatAllEmpty(fs[j + 1..]);
  }

  /** An element occurs in the concatenation iff it occurs in some fragment. */
  lemma {:induction false} InConcat<T>(fs: seq<seq<T>>, x: T)
    ensures x in Concat(fs) <==> exists i | 0 <= i < |fs| :: x in fs[i]
  {
    if |fs| > 0 {
      InConcat(fs[1..], x);
      if x in Concat(fs[1..]) {
        var i :| 0 <= i < |fs[1..]| && x in fs[1..][i];
        assert x in fs[i + 1];
      }
      if exists i | 0 <= i < |fs| :: x in fs[i] {
        var i :| 0 <= i < |fs| && x in fs[i];
        if i > 0 {
          assert x in fs[1..][i - 1];
        }
      }
    }
  }

  /** The elements of `s` that satisfy `p`, in order. */
  function Filter<T>(s: seq<T>, p: T -> bool): seq<T>
  {
    if |s| == 0 then [] else (if p(s[0]) then [s[0]] else []) + Filter(s[1..], p)
  }

  lemma {:induction false} FilterAppend<T>(a: seq<T>, b: seq<T>, p: T -> bool)
    ensures Filter(a + b, p) == Filter(a, p) + Filter(b, p)
  {
    if |a| == 0 {
      assert a + b == b;
    } else {
      var x := a[0];
      assert (a + b)[0] == x;
      assert (a + b)[1..] == a[1..] + b;
      FilterAppend(a[1..], b, p);
      calc {
        Filter(a + b, p);
        (if p(x) then [x] else []) + Filter(a[1..] + b, p);
        (if p(x) then [x] else []) + (Filter(a[1..], p) + Filter(b, p));
      }
    }
  }

  /** Filtering a sequence none of whose elements satisfy `p` leaves nothing. */
  lemma {:induction false} FilterNone<T>(s: seq<T>, p: T -> bool)
    requires forall i | 0 <= i < |s| :: !p(s[i])
    ensures Filter(s, p) == []
  {
    if |s| > 0 {
      FilterNone(s[1..], p);
    }
  }

  /** Filtering a sequence all of whose elements satisfy `p` keeps it whole. */
  lemma {:induction false} FilterAll<T>(s: seq<T>, p: T -> bool)
    requires forall i | 0 <= i < |s| :: p(s[i])
    ensures Filter(s, p) == s
  {
    if |s| > 0 {
      FilterAll(s[1..], p);
      assert [s[0]] + s[1..] == s;
    }
  }

  /** Filtering out an element that is there shortens the sequence. */
  lemma {:induction false} FilterShorter<T>(s: seq<T>, p: T -> bool, x: T)
    requires x in s && !p(x)
    ensures |Filter(s, p)| < |s|
  {
    if s[0] != x {
      FilterShorter(s[1..], p, x);
    }
    FilterNoLonger(s[1..], p);
  }

  lemma {:induction false} FilterNoLonger<T>(s: seq<T>, p: T -> bool)
    ensures |Filter(s, p)| <= |s|
  {
    if |s| > 0 {
      FilterNoLonger(s[1..], p);
    }
  }

  /** Filtering keeps exactly the elements that satisfy `p`. */
  lemma {:induction false} InFilter<T>(s: seq<T>, p: T -> bool, x: T)
    ensures x in Filter(s, p) <==> x in s && p(x)
  {
    if |s| > 0 {
      InFilter(s[1..], p, x);
      assert s == [s[0]] + s[1..];
    }
  }

  /** Putting `x` between two parts of a middle section leaves the parts around it in place. */
  lemma Splice<T>(front: seq<T>, a: seq<T>, x: seq<T>, c: seq<T>, back: seq<T>)
    ensures front + (a + c) + back == (front + a) + (c + back)
    ensures front + (a + x + c) + back == (front + a) + x + (c + back)
  {
  }

  /** Putting `x` at the end of a middle section leaves the parts around it in place. */
  lemma SpliceEnd<T>(front: seq<T>, a: seq<T>, x: seq<T>, back: seq<T>)
    ensures front + (a + []) + back == (front + a) + back
    ensures front + (a + x) + back == (front + a) + x + back
  {
  }

  /** Ways of grouping a row of five parts around one of its middle parts, with
      that part present or empty. */
  lemma Regroup<T>(r0: seq<T>, r1: seq<T>, r2: seq<T>, r3: seq<T>, r4: seq<T>)
    ensures r0 + r1 + r2 + r3 + r4 == (r0 + r1) + r2 + (r3 + r4)
    ensures r0 + r1 + [] + r3 + r4 == (r0 + r1) + (r3 + r4)
    ensures r0 + r1 + r2 + r3 + r4 == (r0 + r1 + r2) + r3 + r4
    ensures r0 + r1 + r2 + [] + r4 == (r0 + r1 + r2) + r4
  {
  }

  /** Empty parts between three parts of a row leave the row unchanged. */
  lemma DropEmpties<T>(a: seq<T>, b: seq<T>, c: seq<T>)
    ensures a + [] + b + [] + c == a + b + c
  {
  }

  /** A three-part middle section may be written without its brackets. */
  lemma Unbracket<T>(front: seq<T>, a: seq<T>, b: seq<T>, c: seq<T>, back: seq<T>)
    ensures front + (a + b + c) + back == front + a + b + c + back
  {
  }

  /** A two-part middle section, possibly with an empty part between, may be
      written without its brackets. */
  lemma Unbracket2<T>(front: seq<T>, a: seq<T>, b: seq<T>, back: seq<T>)
    ensures front + (a + [] + b) + back == front + a + b + back
  {
  }

  /** An element missing from `a` and `b` occurs in `a + b + [y]` iff it is `y`. */
  lemma InLast<T>(a: seq<T>, b: seq<T>, x: T, y: T)
    requires x !in a && x !in b
    ensures x in a + b + [y] <==> x == y
  {
  }

  /** What a prefix holds, the whole sequence holds. */
  lemma InPrefix<T>(a: seq<T>, b: seq<T>, x: T)
    requires a <= b && x in a
    ensures x in b
  {
    var i :| 0 <= i < |a| && a[i] == x;
    assert b[i] == x;
  }
}
