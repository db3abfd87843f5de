/** The `k` largest members of a finite set of row ids: what
    `id NOT IN (SELECT id ... ORDER BY id DESC LIMIT k)` keeps. */
module EventIds {
  function Above(ids: set<nat>, i: nat): set<nat> {
    set j | j in ids && j > i
  }

  function Top(ids: set<nat>, k: nat): set<nat> {
    set i | i in ids && |Above(ids, i)| < k
  }

  lemma MinExists(ids: set<nat>) returns (m: nat)
    requires ids != {}
    ensures m in ids && forall x | x in ids :: m <= x
    decreases |ids|
  {
    var first :| first in ids;
    m := first;
    var smaller := set x | x in ids && x < first;
    if smaller != {} {
      SubsetSize(smaller, ids - {first});
      m := MinExists(smaller);
      forall x | x in ids ensures m <= x {
        if x < first {
          assert x in smaller;
        }
      }
    } else {
      forall x | x in ids ensures m <= x {
        assert x !in smaller;
      }
    }
  }

  lemma SubsetSize<T>(a: set<T>, b: set<T>)
    requires a <= b
    ensures |a| <= |b|
  {
    assert b == a + (b - a);
    assert |b| == |a| + |b - a|;
  }

  /** Everything from the lowest kept id upwards is kept. */
  lemma TopIsUpwardClosed(ids: set<nat>, k: nat, low: nat, high: nat)
    requires low in Top(ids, k) && high in ids && low <= high
    ensures high in Top(ids, k)
  {
    SubsetSize(Above(ids, high), Above(ids, low));
  }

  lemma {:induction false} TopSize(ids: set<nat>, k: nat)
    ensures |Top(ids, k)| == if |ids| <= k then |ids| else k
    decreases |ids|
  {
    if ids == {} {
      assert Top(ids, k) == {};
    } else {
      var m := MinExists(ids);
      var rest := ids - {m};
      TopSize(rest, k);
      assert Above(ids, m) == rest;
      forall i | i in rest ensures Above(ids, i) == Above(rest, i) {}
      if |rest| < k {
        assert Top(ids, k) == Top(rest, k) + {m};
      } else {
        assert Top(ids, k) == Top(rest, k);
      }
    }
  }

  /** Dropping low ids early changes nothing: the survivors of an early cut,
      together with later arrivals, have the same top `k` as if no cut had
      been made. */
  lemma TopAbsorbs(a: set<nat>, b: set<nat>, k: nat)
    ensures Top(Top(a, k) + b, k) == Top(a + b, k)
  {
    var kept := Top(a, k);
    forall i | i in Top(a + b, k) ensures i in Top(kept + b, k) {
      SubsetSize(Above(kept + b, i), Above(a + b, i));
      if i !in b {
        SubsetSize(Above(a, i), Above(a + b, i));
      }
    }
    forall i | i in Top(kept + b, k) ensures i in Top(a + b, k) {
      if Above(a, i) <= kept {
        assert Above(a + b, i) == Above(kept + b, i);
      } else {
        var j :| j in Above(a, i) && j !in kept;
        ManyKeptAbove(a, k, j);
        SubsetSize(Above(kept, j), Above(kept + b, i));
        assert false;
      }
    }
  }

  lemma ManyKeptAbove(a: set<nat>, k: nat, j: nat)
    requires j in a && j !in Top(a, k)
    ensures |Above(Top(a, k), j)| >= k
  {
    var upper := Above(a, j);
    TopSize(upper, k);
    forall i | i in Top(upper, k) ensures i in Above(Top(a, k), j) {
      assert Above(upper, i) == Above(a, i);
    }
    SubsetSize(Top(upper, k), Above(Top(a, k), j));
  }

  lemma SmallestExists(ids: set<nat>)
    requires ids != {}
    ensures exists m :: m in ids && forall x | x in ids :: m <= x
  {
    var m := MinExists(ids);
  }

  function Smallest(ids: set<nat>): (m: nat)
    requires ids != {}
    ensures m in ids && forall x | x in ids :: m <= x
  {
    SmallestExists(ids);
    var m :| m in ids && forall x | x in ids :: m <= x;
    m
  }

  /** The ids in ascending order: `ORDER BY id DESC`, reversed. */
  function Ascending(ids: set<nat>): (s: seq<nat>)
    ensures |s| == |ids|
    ensures forall i :: 0 <= i < |s| ==> s[i] in ids
    ensures forall x :: x in ids ==> x in s
    ensures forall i, j :: 0 <= i < j < |s| ==> s[i] < s[j]
    decreases |ids|
  {
    if ids == {} then
      []
    else
      var m := Smallest(ids);
      [m] + Ascending(ids - {m})
  }
}
