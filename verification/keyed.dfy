/** Lists of records looked up by a string id, as the app does for
    characters, inventory items and combat enemies: `find`, `findIndex` and
    `filter` on `x.id === id`. The key is a parameter so that the three
    record types share one definition. */
module Keyed {
  import opened Common

  /** No two positions hold the same key. */
  predicate UniqueKeys<T>(xs: seq<T>, key: T -> string) {
    forall i, j :: 0 <= i < j < |xs| ==> key(xs[i]) != key(xs[j])
  }

  /** `xs.findIndex(x => key(x) === id)`: the first position with the key,
      or -1. */
  function IndexBy<T>(xs: seq<T>, key: T -> string, id: string): (i: int)
    ensures -1 <= i < |xs|
    ensures i >= 0 ==> key(xs[i]) == id
    ensures i >= 0 ==> forall j :: 0 <= j < i ==> key(xs[j]) != id
    ensures i < 0 ==> forall j :: 0 <= j < |xs| ==> key(xs[j]) != id
  {
    if |xs| == 0 then -1
    else if key(xs[0]) == id then 0
    else
      var k := IndexBy(xs[1..], key, id);
      if k < 0 then -1 else k + 1
  }

  /** `xs.find(x => key(x) === id)`. */
  function FindBy<T>(xs: seq<T>, key: T -> string, id: string): (r: Option<T>)
    ensures r.Some? ==> r.value in xs && key(r.value) == id
    ensures r.None? <==> forall j :: 0 <= j < |xs| ==> key(xs[j]) != id
  {
    if |xs| == 0 then None
    else if key(xs[0]) == id then Some(xs[0])
    else FindBy(xs[1..], key, id)
  }

  /** `find` returns the element at the position `findIndex` reports, so it
      is the first element with the key. */
  lemma {:induction false} FindByIsFirst<T>(xs: seq<T>, key: T -> string, id: string)
    ensures IndexBy(xs, key, id) >= 0 ==> FindBy(xs, key, id) == Some(xs[IndexBy(xs, key, id)])
    ensures IndexBy(xs, key, id) < 0 ==> FindBy(xs, key, id) == None
  {
    if |xs| > 0 && key(xs[0]) != id {
      FindByIsFirst(xs[1..], key, id);
    }
  }

  /** A position holding the key, preceded by none, is what `findIndex`
      finds. */
  lemma {:induction false} IndexByFirstMatch<T>(xs: seq<T>, key: T -> string, id: string, i: int)
    requires 0 <= i < |xs| && key(xs[i]) == id
    requires forall j :: 0 <= j < i ==> key(xs[j]) != id
    ensures IndexBy(xs, key, id) == i
  {
    if i > 0 {
      IndexByFirstMatch(xs[1..], key, id, i - 1);
    }
  }

  /** Searching past a prefix without the key looks only at the rest. */
  lemma {:induction false} FindByAfterAbsentPrefix<T>(a: seq<T>, b: seq<T>, key: T -> string, id: string)
    requires FindBy(a, key, id).None?
    ensures FindBy(a + b, key, id) == FindBy(b, key, id)
  {
    if |a| > 0 {
      assert FindBy(a[1..], key, id).None?;
      assert (a + b)[1..] == a[1..] + b;
      FindByAfterAbsentPrefix(a[1..], b, key, id);
    } else {
      assert a + b == b;
    }
  }

  /** `xs.filter(x => key(x) !== id)`. */
  function RemoveBy<T(==,!new)>(xs: seq<T>, key: T -> string, id: string): (r: seq<T>)
    ensures |r| <= |xs|
    ensures forall j :: 0 <= j < |r| ==> key(r[j]) != id
    ensures forall x :: x in r <==> x in xs && key(x) != id
    ensures (forall j :: 0 <= j < |xs| ==> key(xs[j]) != id) ==> r == xs
  {
    if |xs| == 0 then []
    else if key(xs[0]) == id then RemoveBy(xs[1..], key, id)
    else [xs[0]] + RemoveBy(xs[1..], key, id)
  }

  /** Filtering keeps the relative order: it distributes over
      concatenation. */
  lemma {:induction false} RemoveByKeepsOrder<T(!new)>(a: seq<T>, b: seq<T>, key: T -> string, id: string)
    ensures RemoveBy(a + b, key, id) == RemoveBy(a, key, id) + RemoveBy(b, key, id)
  {
    if |a| > 0 {
      assert (a + b)[1..] == a[1..] + b;
      RemoveByKeepsOrder(a[1..], b, key, id);
    } else {
      assert a + b == b;
    }
  }

  /** Filtering a list with unique keys keeps them unique. */
  lemma {:induction false} RemoveByKeepsUnique<T(!new)>(xs: seq<T>, key: T -> string, id: string)
    requires UniqueKeys(xs, key)
    ensures UniqueKeys(RemoveBy(xs, key, id), key)
  {
    if |xs| > 0 {
      var tail := RemoveBy(xs[1..], key, id);
      RemoveByKeepsUnique(xs[1..], key, id);
      if key(xs[0]) != id {
        var r := [xs[0]] + tail;
        forall k | 0 < k < |r|
          ensures key(r[0]) != key(r[k])
        {
          assert r[k] in tail;
          var b :| 0 <= b < |xs[1..]| && xs[1..][b] == r[k];
          assert xs[b + 1] == r[k];
        }
      }
    }
  }
}
