/** Sequence vocabulary shared by the models: removal, weighted sums, first index of a match. */
module Sequences {

  datatype Option<+T> = None | Some(value: T)

  function Min(x: nat, y: nat): nat {
    if x <= y then x else y
  }

  /** `s` without its element at position `k`. */
  function RemoveAt<T>(s: seq<T>, k: nat): seq<T>
    requires k < |s|
  {
    s[..k] + s[k + 1..]
  }

  lemma RemoveAtTail<T>(s: seq<T>, k: nat)
    requires k + 1 < |s|
    ensures RemoveAt(s, k + 1) == [s[0]] + RemoveAt(s[1..], k)
  {
  }

  /** Index of the first element that satisfies `p`, or the length when there is none. */
  function FirstWhere<T>(s: seq<T>, p: T -> bool): (k: nat)
    ensures k <= |s|
    ensures k < |s| ==> p(s[k])
    ensures forall j :: 0 <= j < k ==> !p(s[j])
  {
    if s == [] || p(s[0]) then 0 else 1 + FirstWhere(s[1..], p)
  }

  /** The total weight of `s`, the weight of an element being `f` of it. */
  function Sum<T>(s: seq<T>, f: T -> nat): nat {
    if s == [] then 0 else Sum(s[..|s| - 1], f) + f(s[|s| - 1])
  }

  lemma SumPush<T>(s: seq<T>, x: T, f: T -> nat)
    ensures Sum(s + [x], f) == Sum(s, f) + f(x)
  {
    assert (s + [x])[..|s|] == s;
  }

  lemma {:induction false} SumAppend<T>(s: seq<T>, t: seq<T>, f: T -> nat)
    ensures Sum(s + t, f) == Sum(s, f) + Sum(t, f)
  {
    if t == [] {
      assert s + t == s;
    } else {
      var front, last := t[..|t| - 1], t[|t| - 1];
      assert s + t == (s + front) + [last];
      SumAppend(s, front, f);
      SumPush(s + front, last, f);
    }
  }

  lemma {:induction false} SumRemove<T>(s: seq<T>, k: nat, f: T -> nat)
    requires k < |s|
    ensures Sum(s, f) == Sum(RemoveAt(s, k), f) + f(s[k])
  {
    var front, last := s[..|s| - 1], s[|s| - 1];
    if k == |s| - 1 {
      assert RemoveAt(s, k) == front;
    } else {
      SumRemove(front, k, f);
      assert RemoveAt(s, k) == RemoveAt(front, k) + [last];
      SumPush(RemoveAt(front, k), last, f);
    }
  }

  /** An element of positive weight makes the sum positive. */
  lemma SumCovers<T>(s: seq<T>, k: nat, f: T -> nat)
    requires k < |s|
    ensures Sum(s, f) >= f(s[k])
  {
    SumRemove(s, k, f);
  }

  /** A positive sum has an element of positive weight. */
  lemma {:induction false} SumWitness<T>(s: seq<T>, f: T -> nat) returns (k: nat)
    requires Sum(s, f) > 0
    ensures k < |s| && f(s[k]) > 0
  {
    if f(s[|s| - 1]) > 0 {
      k := |s| - 1;
    } else {
      k := SumWitness(s[..|s| - 1], f);
    }
  }

  /** The state that the steps `ts`, taken in order, lead to. */
  function Fold<S, T>(f: (S, T) -> S, s: S, ts: seq<T>): S {
    if ts == [] then s else f(Fold(f, s, ts[..|ts| - 1]), ts[|ts| - 1])
  }

  lemma FoldPush<S, T>(f: (S, T) -> S, s: S, ts: seq<T>, t: T)
    ensures Fold(f, s, ts + [t]) == f(Fold(f, s, ts), t)
  {
    assert (ts + [t])[..|ts|] == ts;
  }

  lemma {:induction false} FoldAppend<S, T>(f: (S, T) -> S, s: S, ts: seq<T>, us: seq<T>)
    ensures Fold(f, s, ts + us) == Fold(f, Fold(f, s, ts), us)
  {
    if us == [] {
      assert ts + us == ts;
    } else {
      var m := |us| - 1;
      FoldAppend(f, s, ts, us[..m]);
      FoldPush(f, s, ts + us[..m], us[m]);
      assert ts + us == ts + us[..m] + [us[m]];
    }
  }
}
