/** The key orders of the source's `std::map`s: the first key that a loop over a map meets is the least one. */
module Order {
  import opened CombatEvents

  ghost predicate TotalOrder<T(!new)>(leq: (T, T) -> bool) {
    && (forall x, y :: leq(x, y) || leq(y, x))
    && (forall x, y :: leq(x, y) && leq(y, x) ==> x == y)
    && (forall x, y, z :: leq(x, y) && leq(y, z) ==> leq(x, z))
  }

  ghost predicate IsLeast<T(!new)>(leq: (T, T) -> bool, x: T, s: set<T>) {
    x in s && forall y :: y in s ==> leq(x, y)
  }

  lemma {:induction false} LeastExists<T(!new)>(leq: (T, T) -> bool, s: set<T>)
    requires TotalOrder(leq) && s != {}
    ensures exists x :: IsLeast(leq, x, s)
    decreases |s|
  {
    var x :| x in s;
    var rest := s - {x};
    if rest == {} {
      assert s == {x};
      assert IsLeast(leq, x, s);
    } else {
      LeastExists(leq, rest);
      var y :| IsLeast(leq, y, rest);
      assert s == rest + {x};
      assert IsLeast(leq, if leq(x, y) then x else y, s);
    }
  }

  lemma LeastUnique<T(!new)>(leq: (T, T) -> bool, s: set<T>, x: T, y: T)
    requires TotalOrder(leq) && IsLeast(leq, x, s) && IsLeast(leq, y, s)
    ensures x == y
  {
  }

  predicate IdLeq(a: u64, b: u64) {
    a <= b
  }

  lemma IdOrder()
    ensures TotalOrder(IdLeq)
  {
  }

  /** `std::string` compares byte by byte. */
  predicate NameLeq(a: seq<u8>, b: seq<u8>) {
    if a == [] then true
    else if b == [] then false
    else if a[0] != b[0] then a[0] < b[0]
    else NameLeq(a[1..], b[1..])
  }

  /** The names agree up to a place at which the first one ends or has the smaller byte. */
  ghost predicate FirstDifference(a: seq<u8>, b: seq<u8>, k: nat) {
    k <= |a| && k <= |b| && a[..k] == b[..k] && (k == |a| || (k < |b| && a[k] < b[k]))
  }

  lemma {:induction false} NameLeqMeans(a: seq<u8>, b: seq<u8>)
    ensures NameLeq(a, b) <==> exists k :: FirstDifference(a, b, k)
  {
    if a == [] {
      assert FirstDifference(a, b, 0);
    } else if b != [] && a[0] == b[0] {
      NameLeqMeans(a[1..], b[1..]);
      if k: nat :| FirstDifference(a[1..], b[1..], k) {
        assert a[..k + 1] == [a[0]] + a[1..][..k] && b[..k + 1] == [b[0]] + b[1..][..k];
        assert FirstDifference(a, b, k + 1);
      }
      if k: nat :| FirstDifference(a, b, k) {
        assert a[1..][..k - 1] == a[..k][1..] && b[1..][..k - 1] == b[..k][1..];
        assert FirstDifference(a[1..], b[1..], k - 1);
      }
    } else {
      FirstBytesDiffer(a, b);
    }
  }

  lemma SamePrefix(a: seq<u8>, b: seq<u8>, k: nat)
    requires a != [] && b != [] && k > 0
    ensures FirstDifference(a, b, k) ==> a[0] == b[0]
  {
    if FirstDifference(a, b, k) {
      assert a[..k][0] == b[..k][0];
    }
  }

  lemma FirstBytesDiffer(a: seq<u8>, b: seq<u8>)
    requires a != [] && (b == [] || a[0] != b[0])
    ensures (exists k :: FirstDifference(a, b, k)) <==> b != [] && a[0] < b[0]
  {
    if b != [] {
      forall k: nat | k > 0 ensures FirstDifference(a, b, k) ==> a[0] == b[0] {
        SamePrefix(a, b, k);
      }
      assert a[0] < b[0] ==> FirstDifference(a, b, 0);
    }
  }

  lemma {:induction false} NameTotal(a: seq<u8>, b: seq<u8>)
    ensures NameLeq(a, b) || NameLeq(b, a)
  {
    if a != [] && b != [] {
      NameTotal(a[1..], b[1..]);
    }
  }

  lemma {:induction false} NameAntisymmetric(a: seq<u8>, b: seq<u8>)
    requires NameLeq(a, b) && NameLeq(b, a)
    ensures a == b
  {
    if a != [] && b != [] {
      NameAntisymmetric(a[1..], b[1..]);
      assert a == [a[0]] + a[1..] && b == [b[0]] + b[1..];
    }
  }

  lemma {:induction false} NameTransitive(a: seq<u8>, b: seq<u8>, c: seq<u8>)
    requires NameLeq(a, b) && NameLeq(b, c)
    ensures NameLeq(a, c)
  {
    if a != [] && b != [] && c != [] && a[0] == b[0] == c[0] {
      NameTransitive(a[1..], b[1..], c[1..]);
    }
  }

  lemma NameOrder()
    ensures TotalOrder(NameLeq)
  {
    forall a, b ensures NameLeq(a, b) || NameLeq(b, a) {
      NameTotal(a, b);
    }
    forall a, b | NameLeq(a, b) && NameLeq(b, a) ensures a == b {
      NameAntisymmetric(a, b);
    }
    forall a, b, c | NameLeq(a, b) && NameLeq(b, c) ensures NameLeq(a, c) {
      NameTransitive(a, b, c);
    }
  }

  // ----- Where the loops over the maps start

  method FirstId(ids: set<u64>) returns (first: u64)
    requires ids != {}
    ensures IsLeast(IdLeq, first, ids)
  {
    first :| first in ids;
    var rest := ids - {first};
    while rest != {}
      invariant rest <= ids && first in ids
      invariant forall id :: id in ids && id !in rest ==> first <= id
      decreases |rest|
    {
      var id :| id in rest;
      rest := rest - {id};
      if id < first {
        first := id;
      }
    }
  }

  method FirstName(names: set<seq<u8>>) returns (first: seq<u8>)
    requires names != {}
    ensures IsLeast(NameLeq, first, names)
  {
    NameOrder();
    first :| first in names;
    var rest := names - {first};
    while rest != {}
      invariant rest <= names && first in names
      invariant forall name :: name in names && name !in rest ==> NameLeq(first, name)
      decreases |rest|
    {
      var name :| name in rest;
      rest := rest - {name};
      if NameLeq(name, first) {
        first := name;
      }
    }
  }
}
