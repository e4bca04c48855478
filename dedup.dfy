/**
 * The name-based deduplication `generateCombinedOutput` applies to each of
 * the five lists of the schemas it merges: an item is kept when it has a
 * name and no earlier item (nor the `seen` set it starts from) had that
 * name; the `seen` set grows by each kept name.
 */
module Dedup {
  import opened Wrappers

  /** The names the items of `xs` carry. */
  function NamesOf<T>(xs: seq<T>, nameOf: T -> Option<string>): set<string> {
    if xs == [] then {}
    else
      var x := xs[|xs| - 1];
      NamesOf(xs[..|xs| - 1], nameOf) + (if nameOf(x).Some? then {nameOf(x).value} else {})
  }

  /** The items the merge keeps from `xs` when `seen` already holds some names, in order. */
  function Unseen<T>(xs: seq<T>, nameOf: T -> Option<string>, seen: set<string>): seq<T> {
    if xs == [] then []
    else
      var front, x := xs[..|xs| - 1], xs[|xs| - 1];
      Unseen(front, nameOf, seen)
        + (if nameOf(x).Some? && nameOf(x).value !in seen + NamesOf(front, nameOf) then [x] else [])
  }

  /** `xs[i]` is named, its name is not in `seen` and no earlier item has it. */
  predicate FirstOfItsName<T>(xs: seq<T>, nameOf: T -> Option<string>, seen: set<string>, i: int)
    requires 0 <= i < |xs|
  {
    nameOf(xs[i]).Some? && nameOf(xs[i]).value !in seen
    && forall j :: 0 <= j < i ==> nameOf(xs[j]) != nameOf(xs[i])
  }

  lemma {:induction false} NamesOfMeans<T>(xs: seq<T>, nameOf: T -> Option<string>)
    ensures forall n :: n in NamesOf(xs, nameOf) <==> exists i :: 0 <= i < |xs| && nameOf(xs[i]) == Some(n)
    decreases |xs|
  {
    if xs != [] {
      var k := |xs| - 1;
      NamesOfMeans(xs[..k], nameOf);
      forall n | n in NamesOf(xs, nameOf)
        ensures exists i :: 0 <= i < |xs| && nameOf(xs[i]) == Some(n)
      {
        if n in NamesOf(xs[..k], nameOf) {
          var i :| 0 <= i < k && nameOf(xs[..k][i]) == Some(n);
          assert xs[..k][i] == xs[i];
        }
      }
      forall n | exists i :: 0 <= i < |xs| && nameOf(xs[i]) == Some(n)
        ensures n in NamesOf(xs, nameOf)
      {
        var i :| 0 <= i < |xs| && nameOf(xs[i]) == Some(n);
        if i < k {
          assert xs[..k][i] == xs[i];
        }
      }
    }
  }

  lemma {:induction false} NamesOfMissing<T>(xs: seq<T>, nameOf: T -> Option<string>, n: string)
    requires forall i :: 0 <= i < |xs| ==> nameOf(xs[i]) != Some(n)
    ensures n !in NamesOf(xs, nameOf)
    decreases |xs|
  {
    if xs != [] {
      var k := |xs| - 1;
      assert forall i :: 0 <= i < k ==> xs[..k][i] == xs[i];
      NamesOfMissing(xs[..k], nameOf, n);
    }
  }

  lemma {:induction false} NamesOfAppend<T>(a: seq<T>, b: seq<T>, nameOf: T -> Option<string>)
    ensures NamesOf(a + b, nameOf) == NamesOf(a, nameOf) + NamesOf(b, nameOf)
    decreases |b|
  {
    if b == [] {
      assert a + b == a;
    } else {
      var k := |b| - 1;
      assert (a + b)[..|a + b| - 1] == a + b[..k];
      NamesOfAppend(a, b[..k], nameOf);
    }
  }

  /** Merging two lists is merging the first, then the second with the first's names seen. */
  lemma {:induction false} UnseenAppend<T>(a: seq<T>, b: seq<T>, nameOf: T -> Option<string>, seen: set<string>)
    ensures Unseen(a + b, nameOf, seen) == Unseen(a, nameOf, seen) + Unseen(b, nameOf, seen + NamesOf(a, nameOf))
    decreases |b|
  {
    if b == [] {
      assert a + b == a;
    } else {
      var k := |b| - 1;
      assert (a + b)[..|a + b| - 1] == a + b[..k];
      UnseenAppend(a, b[..k], nameOf, seen);
      NamesOfAppend(a, b[..k], nameOf);
    }
  }

  /** Every kept item is an item of the list, has a name, and that name was not seen before. */
  lemma {:induction false} UnseenSound<T>(xs: seq<T>, nameOf: T -> Option<string>, seen: set<string>)
    ensures forall y :: y in Unseen(xs, nameOf, seen) ==> y in xs && nameOf(y).Some? && nameOf(y).value !in seen
    decreases |xs|
  {
    if xs != [] {
      var k := |xs| - 1;
      UnseenSound(xs[..k], nameOf, seen);
      assert xs == xs[..k] + [xs[k]];
    }
  }

  /** No two items of `xs` share a name. */
  predicate NamesDistinct<T>(xs: seq<T>, nameOf: T -> Option<string>) {
    forall i, j :: 0 <= i < j < |xs| ==> nameOf(xs[i]) != nameOf(xs[j])
  }

  /** The name of `x`, as a set of at most one element. */
  function NameSet<T>(x: T, nameOf: T -> Option<string>): set<string> {
    if nameOf(x).Some? then {nameOf(x).value} else {}
  }

  lemma NamesOfSnoc<T>(xs: seq<T>, x: T, nameOf: T -> Option<string>)
    ensures NamesOf(xs + [x], nameOf) == NamesOf(xs, nameOf) + NameSet(x, nameOf)
  {
    assert (xs + [x])[..|xs|] == xs;
  }

  /** The kept names are exactly the names of the list that were not seen before. */
  lemma {:induction false} UnseenNames<T>(xs: seq<T>, nameOf: T -> Option<string>, seen: set<string>)
    ensures NamesOf(Unseen(xs, nameOf, seen), nameOf) == NamesOf(xs, nameOf) - seen
    decreases |xs|
  {
    if xs != [] {
      var k := |xs| - 1;
      var front, x := xs[..k], xs[k];
      var kept := Unseen(front, nameOf, seen);
      UnseenNames(front, nameOf, seen);
      assert NamesOf(xs, nameOf) == NamesOf(front, nameOf) + NameSet(x, nameOf);
      if nameOf(x).Some? && nameOf(x).value !in seen + NamesOf(front, nameOf) {
        assert Unseen(xs, nameOf, seen) == kept + [x];
        NamesOfSnoc(kept, x, nameOf);
      } else {
        assert Unseen(xs, nameOf, seen) == kept;
        assert NameSet(x, nameOf) <= seen + NamesOf(front, nameOf);
      }
    }
  }

  /** Appending an item whose name the list does not carry keeps the names distinct. */
  lemma DistinctSnoc<T>(xs: seq<T>, x: T, nameOf: T -> Option<string>)
    requires NamesDistinct(xs, nameOf) && nameOf(x).Some? && nameOf(x).value !in NamesOf(xs, nameOf)
    ensures NamesDistinct(xs + [x], nameOf)
  {
    NamesOfMeans(xs, nameOf);
    var u := xs + [x];
    forall i, j | 0 <= i < j < |u|
      ensures nameOf(u[i]) != nameOf(u[j])
    {
      assert u[i] == xs[i];
      if j < |xs| {
        assert u[j] == xs[j];
      }
    }
  }

  /** No two kept items share a name. */
  lemma {:induction false} UnseenDistinct<T>(xs: seq<T>, nameOf: T -> Option<string>, seen: set<string>)
    ensures NamesDistinct(Unseen(xs, nameOf, seen), nameOf)
    decreases |xs|
  {
    if xs != [] {
      var k := |xs| - 1;
      var front, x := xs[..k], xs[k];
      var kept := Unseen(front, nameOf, seen);
      UnseenDistinct(front, nameOf, seen);
      if nameOf(x).Some? && nameOf(x).value !in seen + NamesOf(front, nameOf) {
        assert Unseen(xs, nameOf, seen) == kept + [x];
        UnseenNames(front, nameOf, seen);
        DistinctSnoc(kept, x, nameOf);
      } else {
        assert Unseen(xs, nameOf, seen) == kept;
      }
    }
  }

  /** Every item that is the first of its name, among names not seen before, is kept. */
  lemma {:induction false} UnseenKeepsFirst<T>(xs: seq<T>, nameOf: T -> Option<string>, seen: set<string>, i: int)
    requires 0 <= i < |xs| && FirstOfItsName(xs, nameOf, seen, i)
    ensures xs[i] in Unseen(xs, nameOf, seen)
    decreases |xs|
  {
    var k := |xs| - 1;
    var front := xs[..k];
    if i < k {
      assert front[i] == xs[i];
      assert FirstOfItsName(front, nameOf, seen, i);
      UnseenKeepsFirst(front, nameOf, seen, i);
    } else {
      NamesOfMeans(front, nameOf);
    }
  }

  /** Every kept item is the first of its name among names not seen before. */
  lemma {:induction false} UnseenOnlyFirst<T>(xs: seq<T>, nameOf: T -> Option<string>, seen: set<string>)
    ensures forall y :: y in Unseen(xs, nameOf, seen) ==> exists i :: 0 <= i < |xs| && y == xs[i] && FirstOfItsName(xs, nameOf, seen, i)
    decreases |xs|
  {
    if xs != [] {
      var k := |xs| - 1;
      var front, x := xs[..k], xs[k];
      UnseenOnlyFirst(front, nameOf, seen);
      forall y | y in Unseen(xs, nameOf, seen)
        ensures exists i :: 0 <= i < |xs| && y == xs[i] && FirstOfItsName(xs, nameOf, seen, i)
      {
        if y in Unseen(front, nameOf, seen) {
          var i :| 0 <= i < k && y == front[i] && FirstOfItsName(front, nameOf, seen, i);
          assert front[i] == xs[i];
          assert FirstOfItsName(xs, nameOf, seen, i);
        } else {
          NamesOfMeans(front, nameOf);
          assert y == x;
          assert FirstOfItsName(xs, nameOf, seen, k);
        }
      }
    }
  }

  /** The items among the first `n` of `xs` that are the first of their name, in the order of `xs`. */
  function FirstsUpTo<T>(xs: seq<T>, nameOf: T -> Option<string>, seen: set<string>, n: nat): seq<T>
    requires n <= |xs|
  {
    if n == 0 then []
    else FirstsUpTo(xs, nameOf, seen, n - 1) + (if FirstOfItsName(xs, nameOf, seen, n - 1) then [xs[n - 1]] else [])
  }

  /** Whether an item is the first of its name does not depend on the items after it. */
  lemma {:induction false} FirstsOfFront<T>(xs: seq<T>, nameOf: T -> Option<string>, seen: set<string>, m: nat, n: nat)
    requires n <= m <= |xs|
    ensures FirstsUpTo(xs, nameOf, seen, n) == FirstsUpTo(xs[..m], nameOf, seen, n)
    decreases n
  {
    if n > 0 {
      FirstsOfFront(xs, nameOf, seen, m, n - 1);
      var front := xs[..m];
      assert forall j :: 0 <= j < n ==> front[j] == xs[j];
      assert FirstOfItsName(xs, nameOf, seen, n - 1) == FirstOfItsName(front, nameOf, seen, n - 1);
    }
  }

  /**
   * The kept items are exactly the items that are the first of their name,
   * in the order of `xs`: the merge filters, it neither reorders nor
   * repeats.
   */
  lemma {:induction false} UnseenInOrder<T>(xs: seq<T>, nameOf: T -> Option<string>, seen: set<string>)
    ensures Unseen(xs, nameOf, seen) == FirstsUpTo(xs, nameOf, seen, |xs|)
    decreases |xs|
  {
    if xs != [] {
      var k := |xs| - 1;
      var front, x := xs[..k], xs[k];
      UnseenInOrder(front, nameOf, seen);
      FirstsOfFront(xs, nameOf, seen, k, k);
      NamesOfMeans(front, nameOf);
      assert forall j :: 0 <= j < k ==> front[j] == xs[j];
      assert (nameOf(x).Some? && nameOf(x).value !in seen + NamesOf(front, nameOf)) == FirstOfItsName(xs, nameOf, seen, k);
    }
  }

  /** Every item of `xs` has a name, and none of those names is in `seen`. */
  predicate AllNamedUnseen<T>(xs: seq<T>, nameOf: T -> Option<string>, seen: set<string>) {
    forall i :: 0 <= i < |xs| ==> nameOf(xs[i]).Some? && nameOf(xs[i]).value !in seen
  }

  /** The front of a list of distinct, named, unseen items is such a list, and misses the last item's name. */
  lemma DistinctFront<T>(xs: seq<T>, nameOf: T -> Option<string>, seen: set<string>)
    requires xs != [] && AllNamedUnseen(xs, nameOf, seen) && NamesDistinct(xs, nameOf)
    ensures var front := xs[..|xs| - 1];
            AllNamedUnseen(front, nameOf, seen) && NamesDistinct(front, nameOf)
            && nameOf(xs[|xs| - 1]).value !in NamesOf(front, nameOf)
  {
    var k := |xs| - 1;
    var front := xs[..k];
    assert forall i :: 0 <= i < k ==> front[i] == xs[i];
    assert forall i :: 0 <= i < k ==> nameOf(front[i]) != Some(nameOf(xs[k]).value);
    NamesOfMissing(front, nameOf, nameOf(xs[k]).value);
  }

  /** A list whose items all carry distinct names, none seen, is kept whole. */
  lemma {:induction false} UnseenKeepsDistinct<T>(xs: seq<T>, nameOf: T -> Option<string>, seen: set<string>)
    requires AllNamedUnseen(xs, nameOf, seen) && NamesDistinct(xs, nameOf)
    ensures Unseen(xs, nameOf, seen) == xs
    decreases |xs|
  {
    if xs != [] {
      var k := |xs| - 1;
      var front := xs[..k];
      DistinctFront(xs, nameOf, seen);
      UnseenKeepsDistinct(front, nameOf, seen);
      assert xs == front + [xs[k]];
    }
  }

  /**
   * One of the five dedup loops of `generateCombinedOutput`: each item
   * with a name not yet seen is appended and its name recorded.
   */
  method AppendUnseen<T>(items: seq<T>, nameOf: T -> Option<string>, seen: set<string>, acc: seq<T>)
    returns (seen': set<string>, acc': seq<T>)
    ensures acc' == acc + Unseen(items, nameOf, seen)
    ensures seen' == seen + NamesOf(items, nameOf)
  {
    seen', acc' := seen, acc;
    for i := 0 to |items|
      invariant seen' == seen + NamesOf(items[..i], nameOf)
      invariant acc' == acc + Unseen(items[..i], nameOf, seen)
    {
      var item := items[i];
      assert items[..i + 1][..i] == items[..i];
      var name := nameOf(item);
      if name.Some? && name.value !in seen' {
        seen' := seen' + {name.value};
        acc' := acc' + [item];
      }
    }
    assert items[..|items|] == items;
  }
}
