/** The ripple hook: the ripples on screen, the key counter and the removal
    timers each press schedules. A press spawns one ripple whose radius reaches
    every corner of the element; a removal timer firing removes its ripple. */
module Ripples {
  import opened Wrappers
  import opened Sequences

  /** One ripple: its key, its origin relative to the element, and its diameter. */
  datatype Ripple = Ripple(key: nat, x: real, y: real, size: real)

  /** The element's bounding rectangle at the time of the press. */
  datatype Rect = Rect(left: real, top: real, width: real, height: real)

  /** The hook's options as the caller passes them; an absent field takes its default. */
  datatype Options = Options(disabled: Option<bool>, color: Option<string>, duration: Option<nat>)

  datatype Settings = Settings(disabled: bool, color: string, duration: nat)

  const DefaultColor: string := "currentColor"
  const DefaultDuration: nat := 450

  /** The options with their defaults filled in. */
  function Settle(o: Options): (s: Settings)
    ensures s.disabled <==> o.disabled == Some(true)
    ensures s.color == (if o.color.Some? then o.color.value else DefaultColor)
    ensures s.duration == (if o.duration.Some? then o.duration.value else DefaultDuration)
  {
    Settings(o.disabled.GetOr(false), o.color.GetOr(DefaultColor), o.duration.GetOr(DefaultDuration))
  }

  function Max(a: real, b: real): real
  {
    if a < b then b else a
  }

  function Sq(a: real): real
  {
    a * a
  }

  /** The squared distance from the origin to the farthest corner: the square of
      the sum of squares whose root, doubled, is the ripple's diameter. */
  function Reach(x: real, y: real, w: real, h: real): real
  {
    Sq(Max(x, w - x)) + Sq(Max(y, h - y))
  }

  lemma SqBelow(a: real, b: real)
    requires -b <= a <= b
    ensures Sq(a) <= Sq(b)
  {
    if a >= 0.0 {
      assert a * a <= a * b <= b * b;
    } else {
      assert a * a <= (-a) * b <= b * b;
    }
  }

  /** A circle of radius `r` with `r * r == Reach(...)` around the origin covers
      every corner of a `w` by `h` element, wherever the origin lies. */
  lemma ReachesCorners(x: real, y: real, w: real, h: real, cx: real, cy: real)
    requires w >= 0.0 && h >= 0.0
    requires (cx == 0.0 || cx == w) && (cy == 0.0 || cy == h)
    ensures Sq(cx - x) + Sq(cy - y) <= Reach(x, y, w, h)
  {
    SqBelow(cx - x, Max(x, w - x));
    SqBelow(cy - y, Max(y, h - y));
  }

  /** The ripples other than those with key `k`, in their order. */
  function Without(rs: seq<Ripple>, k: nat): (r: seq<Ripple>)
    ensures forall t | t in r :: t in rs && t.key != k
    ensures forall t | t in rs && t.key != k :: t in r
  {
    var keep := (t: Ripple) => t.key != k;
    InFilterAll(rs, keep);
    Filter(rs, keep)
  }

  lemma InFilterAll(rs: seq<Ripple>, p: Ripple -> bool)
    ensures forall t :: t in Filter(rs, p) <==> t in rs && p(t)
  {
    forall t {
      InFilter(rs, p, t);
    }
  }

  /** Removing a key no ripple has changes nothing. */
  lemma WithoutAbsent(rs: seq<Ripple>, k: nat)
    requires forall i | 0 <= i < |rs| :: rs[i].key != k
    ensures Without(rs, k) == rs
  {
    FilterAll(rs, (t: Ripple) => t.key != k);
  }

  /** Removing a key keeps the other ripples in their order. */
  lemma WithoutKeepsOrder(rs: seq<Ripple>, k: nat)
    requires KeysIncrease(rs)
    ensures KeysIncrease(Without(rs, k))
  {
    FilterKeepsIncrease(rs, k);
  }

  predicate KeysIncrease(rs: seq<Ripple>)
  {
    forall i, j | 0 <= i < j < |rs| :: rs[i].key < rs[j].key
  }

  lemma {:induction false} FilterKeepsIncrease(rs: seq<Ripple>, k: nat)
    requires KeysIncrease(rs)
    ensures KeysIncrease(Filter(rs, (t: Ripple) => t.key != k))
  {
    var p := (t: Ripple) => t.key != k;
    if rs != [] {
      assert KeysIncrease(rs[1..]) by {
        forall i, j | 0 <= i < j < |rs| - 1
          ensures rs[1..][i].key < rs[1..][j].key
        {
          assert rs[1..][i] == rs[i + 1] && rs[1..][j] == rs[j + 1];
        }
      }
      FilterKeepsIncrease(rs[1..], k);
      var rest := Filter(rs[1..], p);
      if p(rs[0]) {
        var r := [rs[0]] + rest;
        forall i, j | 0 <= i < j < |r|
          ensures r[i].key < r[j].key
        {
          assert r[j] == rest[j - 1];
          InFilter(rs[1..], p, r[j]);
          if i > 0 {
            assert r[i] == rest[i - 1];
          } else {
            var m :| 0 <= m < |rs| - 1 && rs[1..][m] == r[j];
            assert rs[m + 1] == r[j];
          }
        }
      }
    }
  }

  /** One rendered ripple span: its classes, its place, its size and its style. */
  datatype RippleView = RippleView(
    key: nat, className: seq<string>, left: real, top: real, width: real, height: real,
    transform: string, backgroundColor: string, animationDurationMs: nat)

  /** The clipping container around the ripple spans. */
  datatype RippleContainer = RippleContainer(className: seq<string>, spans: seq<RippleView>)

  const ContainerClasses: seq<string> := ["pointer-events-none", "absolute", "inset-0", "overflow-hidden", "rounded-[inherit]"]
  const RippleClasses: seq<string> := ["animate-ripple", "absolute", "rounded-full", "opacity-12"]
  /** Each span starts centred on its origin and scaled to nothing; the animation grows it. */
  const RippleTransform: string := "translate(-50%, -50%) scale(0)"

  class RippleHook {
    /** The ripples on screen, oldest first. */
    var ripples: seq<Ripple>
    /** The next key to hand out. */
    var counter: nat
    /** The keys whose removal timer has not fired yet, in the order scheduled. */
    var timers: seq<nat>

    /** Keys increase along the list and stay below the counter; each ripple on
        screen still has its removal timer pending. */
    ghost predicate Valid()
      reads this
    {
      && KeysIncrease(ripples)
      && (forall i | 0 <= i < |ripples| :: ripples[i].key < counter && ripples[i].key in timers)
      && (forall i | 0 <= i < |timers| :: timers[i] < counter)
    }

    constructor ()
      ensures ripples == [] && counter == 0 && timers == []
      ensures Valid()
    {
      ripples, counter, timers := [], 0, [];
    }

    /** A mouse press at client coordinates on an element with bounding
        rectangle `rect`. `root` stands for `Math.sqrt` of the reach. Disabled,
        nothing changes; otherwise one ripple with a fresh key is appended at
        the element-relative origin and its removal is scheduled. */
    method Press(opts: Options, clientX: real, clientY: real, rect: Rect, root: real)
      requires Valid()
      requires !Settle(opts).disabled ==>
        root >= 0.0 && root * root == Reach(clientX - rect.left, clientY - rect.top, rect.width, rect.height)
      modifies this
      ensures Valid()
      ensures Settle(opts).disabled ==> ripples == old(ripples) && counter == old(counter) && timers == old(timers)
      ensures !Settle(opts).disabled ==>
        && ripples == old(ripples) + [Ripple(old(counter), clientX - rect.left, clientY - rect.top, root * 2.0)]
        && counter == old(counter) + 1
        && timers == old(timers) + [old(counter)]
    {
      if Settle(opts).disabled {
        return;
      }
      var x := clientX - rect.left;
      var y := clientY - rect.top;
      var size := root * 2.0;
      var key := counter;
      counter := counter + 1;
      ripples := ripples + [Ripple(key, x, y, size)];
      timers := timers + [key];
    }

    /** The removal timer scheduled for `key` fires: the ripple with that key
        goes, the others stay in their order, and the timer is no longer pending. */
    method Expire(key: nat)
      requires Valid()
      modifies this
      ensures Valid()
      ensures ripples == Without(old(ripples), key)
      ensures timers == Filter(old(timers), (t: nat) => t != key)
      ensures counter == old(counter)
    {
      var pending := (t: nat) => t != key;
      WithoutKeepsOrder(ripples, key);
      ghost var before, scheduled := ripples, timers;
      ripples := Without(ripples, key);
      timers := Filter(timers, pending);
      forall j | 0 <= j < |timers|
        ensures timers[j] < counter
      {
        InFilter(scheduled, pending, timers[j]);
      }
      forall j | 0 <= j < |ripples|
        ensures ripples[j].key < counter && ripples[j].key in timers
      {
        assert ripples[j] in before;
        InFilter(scheduled, pending, ripples[j].key);
      }
    }

    /** What the hook renders: nothing while disabled, otherwise a clipping
        container holding one span per ripple, centred on its origin, as wide
        and as high as its diameter. */
    function Render(opts: Options): (r: Option<RippleContainer>)
      reads this
      ensures r.None? <==> Settle(opts).disabled
      ensures r.Some? ==> r.value.className == ContainerClasses
      ensures r.Some? ==> |r.value.spans| == |ripples| && forall i | 0 <= i < |ripples| ::
        && r.value.spans[i].key == ripples[i].key
        && r.value.spans[i].className == RippleClasses
        && r.value.spans[i].left == ripples[i].x && r.value.spans[i].top == ripples[i].y
        && r.value.spans[i].width == r.value.spans[i].height == ripples[i].size
        && r.value.spans[i].transform == RippleTransform
        && r.value.spans[i].backgroundColor == Settle(opts).color
        && r.value.spans[i].animationDurationMs == Settle(opts).duration
    {
      var s := Settle(opts);
      if s.disabled then None
      else Some(RippleContainer(ContainerClasses, seq(|ripples|, i requires 0 <= i < |ripples| reads this =>
        RippleView(ripples[i].key, RippleClasses, ripples[i].x, ripples[i].y, ripples[i].size, ripples[i].size,
          RippleTransform, s.color, s.duration))))
    }
  }

  /** Ripples with increasing keys, each key among `ts`, are no more than `ts`. */
  lemma {:induction false} FewerRipplesThanKeys(rs: seq<Ripple>, ts: seq<nat>)
    requires KeysIncrease(rs)
    requires forall i | 0 <= i < |rs| :: rs[i].key in ts
    ensures |rs| <= |ts|
  {
    if rs != [] {
      var k := rs[0].key;
      var others := (t: nat) => t != k;
      var rest := Filter(ts, others);
      FilterShorter(ts, others, k);
      forall i | 0 <= i < |rs| - 1
        ensures rs[1..][i].key in rest
      {
        assert rs[1..][i] == rs[i + 1];
        InFilter(ts, others, rs[i + 1].key);
      }
      assert KeysIncrease(rs[1..]) by {
        forall i, j | 0 <= i < j < |rs| - 1
          ensures rs[1..][i].key < rs[1..][j].key
        {
          assert rs[1..][i] == rs[i + 1] && rs[1..][j] == rs[j + 1];
        }
      }
      FewerRipplesThanKeys(rs[1..], rest);
    }
  }

  /** There are never more ripples on screen than pending removal timers, so
      once every timer has fired no ripple is left. */
  lemma AllTimersFired(h: RippleHook)
    requires h.Valid()
    ensures |h.ripples| <= |h.timers|
    ensures h.timers == [] ==> h.ripples == []
  {
    FewerRipplesThanKeys(h.ripples, h.timers);
  }
}
