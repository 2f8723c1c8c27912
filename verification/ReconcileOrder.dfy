/** The order a sweep visits slots in (internal/reconcile/actions.go, sortedSlots). */
module ReconcileOrder {

  predicate Ascending(s: seq<int>) { forall i, j :: 0 <= i < j < |s| ==> s[i] < s[j] }

  /** Keys of the slot map in ascending order; there is one such list. */
  ghost predicate Listing(s: seq<int>, keys: set<int>) {
    Ascending(s) && forall x :: x in s <==> x in keys
  }

  lemma {:induction false} ListingUnique(a: seq<int>, b: seq<int>, keys: set<int>)
    requires Listing(a, keys) && Listing(b, keys)
    ensures a == b
    decreases a
  {
    if b != [] {
      assert b[0] in b;
    }
    if a != [] {
      assert a[0] in a && a[0] in b && b[0] in a;
      assert a[0] == b[0] by {
        var i :| 0 <= i < |b| && b[i] == a[0];
        var j :| 0 <= j < |a| && a[j] == b[0];
      }
      var rest := keys - {a[0]};
      forall x ensures (x in a[1..] <==> x in rest) && (x in b[1..] <==> x in rest) {
        assert a == [a[0]] + a[1..] && b == [b[0]] + b[1..];
        assert x in a <==> x == a[0] || x in a[1..];
        assert x in b <==> x == b[0] || x in b[1..];
        assert a[0] !in a[1..] && b[0] !in b[1..];
      }
      ListingUnique(a[1..], b[1..], rest);
      assert a == [a[0]] + a[1..] && b == [b[0]] + b[1..];
    }
  }

  method InsertSlot(s: seq<int>, x: int, ghost keys: set<int>) returns (out: seq<int>)
    requires Listing(s, keys) && x !in keys
    ensures Listing(out, keys + {x})
  {
    var i := |s|;
    while i > 0 && s[i - 1] > x
      invariant 0 <= i <= |s|
      invariant forall j :: i <= j < |s| ==> x < s[j]
    {
      i := i - 1;
    }
    assert x !in s && i < |s| ==> x < s[i];
    out := s[..i] + [x] + s[i..];
    InsertedListing(s, i, x, keys);
  }

  lemma InsertedListing(s: seq<int>, i: nat, x: int, keys: set<int>)
    requires Listing(s, keys) && x !in keys && i <= |s|
    requires (i > 0 ==> s[i - 1] < x) && (i < |s| ==> x < s[i])
    ensures Listing(s[..i] + [x] + s[i..], keys + {x})
  {
    var out := s[..i] + [x] + s[i..];
    forall y ensures y in out <==> y in keys + {x} {
      assert s == s[..i] + s[i..];
      assert y in s <==> y in s[..i] || y in s[i..];
    }
    assert forall j :: 0 <= j < i ==> s[j] <= s[i - 1];
    assert forall j :: i <= j < |s| ==> s[i] <= s[j];
    assert Ascending(out);
  }

  /** Collects the keys in any order, keeping them sorted. */
  method SortedSlots(keys: set<int>) returns (out: seq<int>)
    ensures Listing(out, keys)
  {
    hide Listing;
    out := [];
    var left := keys;
    assert Listing([], {}) by { NoSlots(); }
    assert keys - left == {};
    while left != {}
      invariant left <= keys && Listing(out, keys - left)
      decreases |left|
    {
      Inhabited(left);
      var x :| x in left;
      out := InsertSlot(out, x, keys - left);
      assert keys - (left - {x}) == keys - left + {x};
      left := left - {x};
    }
    assert keys - left == keys;
  }

  lemma Inhabited(keys: set<int>)
    requires keys != {}
    ensures exists x :: x in keys
  {
    if forall x :: x !in keys {
      Uninhabited(keys);
    }
  }

  lemma Uninhabited(keys: set<int>)
    requires forall x :: x !in keys
    ensures keys == {}
  {
    assert forall x | x in keys :: false;
    assert |keys| == 0;
  }

  lemma NoSlots()
    ensures Listing([], {})
  {
  }
}
