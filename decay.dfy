/** The jitter-tolerant "event map" both aligners build from a 0/1 pulse train:
    a forward pass `o[i] = max(o[i], 0.9 * o[i-1])` for i = 1 .. n-1, then a
    backward pass `o[i] = max(o[i], 0.9 * o[i+1])` for i = n-2 down to 1.
    The backward loop stops at index 1, so index 0 keeps its value. */
module Decay {

  function Max(a: real, b: real): real { if a >= b then a else b }

  /** Every entry lies in [0, 1]. */
  predicate InUnit(s: seq<real>) {
    forall i :: 0 <= i < |s| ==> 0.0 <= s[i] <= 1.0
  }

  /** Every entry is at least the corresponding entry of `s`. */
  predicate Dominates(r: seq<real>, s: seq<real>) {
    |r| == |s| && forall i :: 0 <= i < |s| ==> r[i] >= s[i]
  }

  /** Entry `i` of `s` after the forward pass. */
  function ForwardAt(s: seq<real>, i: nat): real
    requires i < |s|
  {
    if i == 0 then s[0] else Max(s[i], 0.9 * ForwardAt(s, i - 1))
  }

  /** Entry `i` (1 <= i <= n-1) of `f` after the backward pass: the last entry
      is kept, every other one becomes the larger of itself and 0.9 times its
      successor's new value. */
  function BackwardAt(f: seq<real>, i: nat): real
    requires 1 <= i < |f|
    decreases |f| - i
  {
    if i == |f| - 1 then f[i] else Max(f[i], 0.9 * BackwardAt(f, i + 1))
  }

  /** The series after the forward pass. */
  function Forward(s: seq<real>): (r: seq<real>)
    ensures |r| == |s| && forall i :: 0 <= i < |s| ==> r[i] == ForwardAt(s, i)
  {
    seq(|s|, i requires 0 <= i < |s| => ForwardAt(s, i))
  }

  /** The series after the backward pass; index 0 is never visited. */
  function Backward(f: seq<real>): (r: seq<real>)
    ensures |r| == |f| && (|f| > 0 ==> r[0] == f[0])
    ensures forall i :: 1 <= i < |f| ==> r[i] == BackwardAt(f, i)
  {
    seq(|f|, i requires 0 <= i < |f| => if i == 0 then f[0] else BackwardAt(f, i))
  }

  /** The two passes in sequence. */
  function EventMap(s: seq<real>): (r: seq<real>)
    ensures |r| == |s|
    ensures |s| > 0 ==> r[0] == s[0]
  {
    Backward(Forward(s))
  }

  // ---------------------------------------------------------------------------
  // The in-place loops

  /** `for i in range(1, len(o)): o[i] = max(o[i], o[i-1] * 0.9)` */
  method DecayForward(a: array<real>)
    modifies a
    ensures a[..] == Forward(old(a[..]))
  {
    ghost var s := a[..];
    if a.Length == 0 {
      return;
    }
    for i := 1 to a.Length
      invariant forall k :: 0 <= k < i ==> a[k] == ForwardAt(s, k)
      invariant forall k :: i <= k < a.Length ==> a[k] == s[k]
    {
      a[i] := Max(a[i], a[i - 1] * 0.9);
    }
    assert forall k :: 0 <= k < a.Length ==> a[..][k] == Forward(s)[k];
  }

  /** `for i in range(len(o) - 2, 0, -1): o[i] = max(o[i], o[i+1] * 0.9)` */
  method DecayBackward(a: array<real>)
    modifies a
    ensures a[..] == Backward(old(a[..]))
  {
    ghost var s := a[..];
    var i := a.Length - 2;
    while i >= 1
      invariant -2 <= i <= a.Length - 2
      invariant forall k :: 0 <= k < a.Length && (k <= i || k == 0) ==> a[k] == s[k]
      invariant forall k :: i < k < a.Length && 1 <= k ==> a[k] == BackwardAt(s, k)
    {
      a[i] := Max(a[i], a[i + 1] * 0.9);
      i := i - 1;
    }
    assert forall k :: 0 <= k < a.Length ==> a[..][k] == Backward(s)[k];
  }

  // ---------------------------------------------------------------------------
  // Properties of the finished event map

  /** The forward pass keeps [0, 1] and never lowers an entry. */
  lemma {:induction false} ForwardAtBounds(s: seq<real>, i: nat)
    requires InUnit(s) && i < |s|
    ensures s[i] <= ForwardAt(s, i) <= 1.0
  {
    if i > 0 { ForwardAtBounds(s, i - 1); }
  }

  /** The backward pass keeps [0, 1] and never lowers an entry. */
  lemma {:induction false} BackwardAtBounds(f: seq<real>, i: nat)
    requires InUnit(f) && 1 <= i < |f|
    ensures f[i] <= BackwardAt(f, i) <= 1.0
    decreases |f| - i
  {
    if i < |f| - 1 { BackwardAtBounds(f, i + 1); }
  }

  lemma ForwardShape(s: seq<real>)
    requires InUnit(s)
    ensures Dominates(Forward(s), s) && InUnit(Forward(s))
  {
    forall i | 0 <= i < |s| ensures s[i] <= Forward(s)[i] <= 1.0 {
      ForwardAtBounds(s, i);
    }
  }

  lemma BackwardShape(f: seq<real>)
    requires InUnit(f)
    ensures Dominates(Backward(f), f) && InUnit(Backward(f))
  {
    forall i | 1 <= i < |f| ensures f[i] <= Backward(f)[i] <= 1.0 {
      BackwardAtBounds(f, i);
    }
  }

  /** The arithmetic of one step: a non-negative value above its forward-pass
      value stays above 0.9 times whatever the backward pass made of its predecessor. */
  lemma DecayStep(d0: real, d1: real, f0: real, f1: real)
    requires d0 == Max(f0, 0.9 * d1) && d1 >= f1 >= 0.9 * f0 && d1 >= 0.0
    ensures d1 >= 0.9 * d0
  {
  }

  /** Going forward, the finished map never drops by more than a factor 0.9:
      the backward pass keeps the forward pass's guarantee. */
  lemma EventMapForwardDecay(s: seq<real>, i: int)
    requires InUnit(s) && 1 <= i < |s|
    ensures EventMap(s)[i] >= 0.9 * EventMap(s)[i - 1]
  {
    var f := Forward(s);
    var d := EventMap(s);
    ForwardShape(s);
    BackwardShape(f);
    assert f[i] == Max(s[i], 0.9 * f[i - 1]);
    if i == 1 {
      assert d[0] == f[0];
    } else {
      DecayStep(d[i - 1], d[i], f[i - 1], f[i]);
    }
  }

  /** The event map of a pulse train in [0, 1]: no entry is lowered, the
      entries stay in [0, 1], every pulse of height 1 keeps height 1, index 0
      keeps its value, and the map decays by at most a factor 0.9 per step in
      both directions (forward for every i >= 1, backward only for
      1 <= i <= n-2). */
  lemma EventMapShape(s: seq<real>)
    requires InUnit(s)
    ensures Dominates(EventMap(s), s) && InUnit(EventMap(s))
    ensures forall i :: 0 <= i < |s| && s[i] == 1.0 ==> EventMap(s)[i] == 1.0
    ensures |s| > 0 ==> EventMap(s)[0] == s[0]
    ensures forall i :: 1 <= i < |s| ==> EventMap(s)[i] >= 0.9 * EventMap(s)[i - 1]
    ensures forall i :: 1 <= i < |s| - 1 ==> EventMap(s)[i] >= 0.9 * EventMap(s)[i + 1]
  {
    var f := Forward(s);
    ForwardShape(s);
    BackwardShape(f);
    forall i | 1 <= i < |s| ensures EventMap(s)[i] >= 0.9 * EventMap(s)[i - 1] {
      EventMapForwardDecay(s, i);
    }
    forall i | 1 <= i < |s| - 1 ensures EventMap(s)[i] >= 0.9 * EventMap(s)[i + 1] {
      BackwardAtBounds(f, i + 1);
    }
  }
}
