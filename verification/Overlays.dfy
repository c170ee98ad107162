/** Maps laid over one another, as repeated upserts lay rows over a table. */
module Overlays {

  ghost predicate Compatible<K, V>(a: map<K, V>, b: map<K, V>) {
    forall k <- a :: k in b ==> a[k] == b[k]
  }

  ghost predicate AllCompatible<K, V>(ms: seq<map<K, V>>) {
    forall i, j | 0 <= i < |ms| && 0 <= j < |ms| :: Compatible(ms[i], ms[j])
  }

  ghost function Overlay<K, V>(base: map<K, V>, ms: seq<map<K, V>>): map<K, V>
    decreases |ms|
  {
    if ms == [] then base else Overlay(base, ms[..|ms| - 1]) + ms[|ms| - 1]
  }

  lemma OverlayOne<K, V>(base: map<K, V>, front: seq<map<K, V>>, top: map<K, V>)
    ensures Overlay(base, front + [top]) == Overlay(base, front) + top
  {
    assert (front + [top])[..|front|] == front;
  }

  ghost predicate Holds<K, V>(ms: seq<map<K, V>>, k: K) {
    exists i :: 0 <= i < |ms| && k in ms[i]
  }

  /** Among compatible maps, any that holds a key decides its value. */
  lemma {:induction false} OverlayAt<K, V>(base: map<K, V>, ms: seq<map<K, V>>, k: K)
    requires AllCompatible(ms)
    ensures k in Overlay(base, ms) <==> k in base || Holds(ms, k)
    ensures forall i | 0 <= i < |ms| && k in ms[i] :: Overlay(base, ms)[k] == ms[i][k]
    ensures !Holds(ms, k) && k in base ==> Overlay(base, ms)[k] == base[k]
    decreases |ms|
  {
    if ms != [] {
      var n := |ms| - 1;
      var front := ms[..n];
      assert forall i | 0 <= i < n :: front[i] == ms[i];
      OverlayAt(base, front, k);
      assert k in ms[n] ==> Holds(ms, k);
      if Holds(front, k) {
        var i :| 0 <= i < n && k in front[i];
        assert k in ms[i] && Compatible(ms[i], ms[n]);
      } else if Holds(ms, k) {
        var i :| 0 <= i < |ms| && k in ms[i];
        assert i == n || k in front[i];
      }
    }
  }

  ghost predicate Within<K, V>(a: map<K, V>, b: map<K, V>) {
    forall k <- a :: k in b && a[k] == b[k]
  }

  lemma SomeCompatible<K, V>(some: seq<map<K, V>>, all: seq<map<K, V>>)
    requires AllCompatible(all) && forall m <- some :: m in all
    ensures AllCompatible(some)
  {
    forall i, j | 0 <= i < |some| && 0 <= j < |some|
      ensures Compatible(some[i], some[j])
    {
      assert some[i] in all && some[j] in all;
    }
  }

  lemma OverlaySameAt<K, V>(base: map<K, V>, some: seq<map<K, V>>, all: seq<map<K, V>>, k: K)
    requires AllCompatible(all) && AllCompatible(some)
    requires forall m <- some :: m in all
    requires forall m <- all :: m in some || Within(m, base)
    ensures k in Overlay(base, some) <==> k in Overlay(base, all)
    ensures k in Overlay(base, some) ==> Overlay(base, some)[k] == Overlay(base, all)[k]
  {
    OverlayAt(base, some, k);
    OverlayAt(base, all, k);
    if Holds(some, k) {
      var i :| 0 <= i < |some| && k in some[i];
      assert some[i] in all;
      var j :| 0 <= j < |all| && all[j] == some[i];
      assert Holds(all, k);
    } else if Holds(all, k) {
      var i :| 0 <= i < |all| && k in all[i];
      assert all[i] in all && all[i] !in some;
    }
  }

  /** Overlays agree if they use the same maps, but for maps the base already contains. */
  lemma OverlaySame<K, V>(base: map<K, V>, some: seq<map<K, V>>, all: seq<map<K, V>>)
    requires AllCompatible(all)
    requires forall m <- some :: m in all
    requires forall m <- all :: m in some || Within(m, base)
    ensures Overlay(base, some) == Overlay(base, all)
  {
    SomeCompatible(some, all);
    var a, b := Overlay(base, some), Overlay(base, all);
    forall k <- a.Keys + b.Keys
      ensures k in a && k in b && a[k] == b[k]
    {
      OverlaySameAt(base, some, all, k);
    }
    assert a.Keys == b.Keys;
  }
}
