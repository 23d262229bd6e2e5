// What the extraction loops collect: the items of a sequence that can be read, in
// order, the others skipped.

module Collecting {
  import opened Wrappers

  /** What an extraction loop collects: the items `extract` can read, in order, the others skipped. */
  function Collected<T, U>(items: seq<T>, extract: T -> Option<U>): (r: seq<U>)
    ensures |r| <= |items|
  {
    if items == [] then []
    else Collected(items[..|items| - 1], extract)
         + (var last := extract(items[|items| - 1]); if last.Some? then [last.value] else [])
  }

  /** One more item adds its value, or nothing when it cannot be read. */
  lemma CollectedSnoc<T, U>(items: seq<T>, i: nat, extract: T -> Option<U>)
    requires i < |items|
    ensures Collected(items[..i + 1], extract)
            == Collected(items[..i], extract) + (if extract(items[i]).Some? then [extract(items[i]).value] else [])
  {
    assert items[..i + 1][..i] == items[..i];
  }

  /** Nothing is collected exactly when no item can be read. */
  lemma {:induction false} CollectedEmpty<T, U>(items: seq<T>, extract: T -> Option<U>)
    ensures Collected(items, extract) == [] <==> forall i :: 0 <= i < |items| ==> extract(items[i]).None?
    decreases |items|
  {
    if items != [] {
      var front := items[..|items| - 1];
      CollectedEmpty(front, extract);
      assert forall i :: 0 <= i < |front| ==> front[i] == items[i];
    }
  }

  /** Every collected value is what `extract` read from some item. */
  lemma {:induction false} CollectedFrom<T, U>(items: seq<T>, extract: T -> Option<U>, k: nat)
    requires k < |Collected(items, extract)|
    ensures exists i :: 0 <= i < |items| && extract(items[i]) == Some(Collected(items, extract)[k])
    decreases |items|
  {
    var front := items[..|items| - 1];
    if k < |Collected(front, extract)| {
      CollectedFrom(front, extract, k);
      var i :| 0 <= i < |front| && extract(front[i]) == Some(Collected(front, extract)[k]);
      assert items[i] == front[i];
    } else {
      assert extract(items[|items| - 1]) == Some(Collected(items, extract)[k]);
    }
  }

  /** When every item can be read, one value per item is collected, in order. */
  lemma {:induction false} CollectedAll<T, U>(items: seq<T>, extract: T -> Option<U>)
    requires forall i :: 0 <= i < |items| ==> extract(items[i]).Some?
    ensures |Collected(items, extract)| == |items|
    ensures forall i :: 0 <= i < |items| ==> Collected(items, extract)[i] == extract(items[i]).value
    decreases |items|
  {
    if items != [] {
      var front := items[..|items| - 1];
      assert forall i :: 0 <= i < |front| ==> front[i] == items[i];
      CollectedAll(front, extract);
    }
  }

  /** Collecting over two runs of items collects the first run's values, then the second's. */
  lemma {:induction false} CollectedConcat<T, U>(a: seq<T>, b: seq<T>, extract: T -> Option<U>)
    ensures Collected(a + b, extract) == Collected(a, extract) + Collected(b, extract)
    decreases |b|
  {
    if b == [] {
      assert a + b == a;
    } else {
      var front := b[..|b| - 1];
      CollectedConcat(a, front, extract);
      assert (a + b)[..|a + b| - 1] == a + front;
      assert (a + b)[|a + b| - 1] == b[|b| - 1];
    }
  }
}
