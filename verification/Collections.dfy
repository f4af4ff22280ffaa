/** Optional values, and the orders in which Go may range over a set. */
module Collections {

  datatype Option<+T> = None | Some(value: T)

  ghost predicate Enumerates<T(!new)>(order: seq<T>, s: set<T>) {
    && (forall x :: x in order <==> x in s)
    && (forall i, j :: 0 <= i < j < |order| ==> order[i] != order[j])
  }

  ghost function Enumeration<T(!new)>(s: set<T>): (order: seq<T>)
    ensures Enumerates(order, s)
  {
    if s == {} then []
    else
      var x :| x in s;
      [x] + Enumeration(s - {x})
  }

  lemma {:induction false} EnumerationIsSet<T(!new)>(order: seq<T>, s: set<T>)
    requires Enumerates(order, s)
    ensures multiset(order) == multiset(s)
  {
    if order == [] {
      assert forall x :: x in s ==> x in order;
    } else {
      var rest := order[1..];
      assert order == [order[0]] + rest;
      forall x ensures x in rest <==> x in s - {order[0]} {
        if x in rest {
          var i :| 0 <= i < |rest| && rest[i] == x;
          assert order[i + 1] == x;
        }
      }
      EnumerationIsSet(rest, s - {order[0]});
    }
  }

  /** `idx` holds the numbers of `s`, from the least to the greatest. */
  ghost predicate Ascends(idx: seq<nat>, s: set<nat>) {
    && (forall i :: i in idx <==> i in s)
    && (forall a, b :: 0 <= a < b < |idx| ==> idx[a] < idx[b])
  }

  lemma AscendsSnoc(idx: seq<nat>, s: set<nat>, n: nat)
    requires Ascends(idx, s) && forall i :: i in s ==> i < n
    ensures Ascends(idx + [n], s + {n})
  {
    assert forall a :: 0 <= a < |idx| ==> idx[a] in idx;
  }

  /** The items at the given places. */
  ghost function Chosen<T>(items: seq<T>, idx: seq<nat>): seq<T>
    requires forall i :: i in idx ==> i < |items|
  {
    seq(|idx|, k requires 0 <= k < |idx| => assert idx[k] in idx; items[idx[k]])
  }

  lemma ChosenSnoc<T>(items: seq<T>, idx: seq<nat>, x: T)
    requires forall i :: i in idx ==> i < |items|
    ensures forall i :: i in idx + [|items|] ==> i < |items + [x]|
    ensures Chosen(items + [x], idx) == Chosen(items, idx)
    ensures Chosen(items + [x], idx + [|items|]) == Chosen(items, idx) + [x]
  {
    assert forall k :: 0 <= k < |idx| ==> idx[k] in idx;
    assert forall k :: 0 <= k < |idx| ==> (items + [x])[idx[k]] == items[idx[k]];
  }

  /** The items of `keep`, in the order they are in. */
  function Filtered<T(==)>(items: seq<T>, keep: set<T>): seq<T> {
    if items == [] then []
    else
      var last := items[|items| - 1];
      Filtered(items[..|items| - 1], keep) + if last in keep then [last] else []
  }

  lemma {:induction false} FilteredInOrder<T>(items: seq<T>, keep: set<T>) returns (idx: seq<nat>)
    ensures Ascends(idx, set i | 0 <= i < |items| && items[i] in keep)
    ensures (forall i :: i in idx ==> i < |items|) && Filtered(items, keep) == Chosen(items, idx)
  {
    if items == [] {
      idx := [];
    } else {
      var front, last := items[..|items| - 1], items[|items| - 1];
      assert items == front + [last];
      idx := FilteredInOrder(front, keep);
      ChosenSnoc(front, idx, last);
      var before := set i | 0 <= i < |front| && front[i] in keep;
      var after := set i | 0 <= i < |items| && items[i] in keep;
      if last in keep {
        assert after == before + {|front|};
        AscendsSnoc(idx, before, |front|);
        idx := idx + [|front|];
      } else {
        assert after == before;
      }
    }
  }

  lemma {:induction false} FilteredTwice<T>(items: seq<T>, a: set<T>, b: set<T>)
    ensures Filtered(Filtered(items, a), b) == Filtered(items, a * b)
  {
    if items != [] {
      var front, last := items[..|items| - 1], items[|items| - 1];
      FilteredTwice(front, a, b);
      var kept := Filtered(front, a);
      assert (kept + [last])[..|kept|] == kept;
      assert last !in a ==> Filtered(items, a) == kept;
      assert last !in a * b ==> Filtered(items, a * b) == Filtered(front, a * b);
    }
  }

  method UnsortedList<T(!new,==)>(s: set<T>) returns (order: seq<T>)
    ensures Enumerates(order, s)
  {
    order := [];
    var rest := s;
    while rest != {}
      invariant rest <= s
      invariant Enumerates(order, s - rest)
      decreases rest
    {
      var x :| x in rest;
      order := order + [x];
      rest := rest - {x};
    }
    assert s - rest == s;
  }
}
