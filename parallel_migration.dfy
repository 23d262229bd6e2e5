/**
 * The deterministic parts of `parallel_migration.py`: the three-level migration queue that
 * refuses an item it has seen before, the priority a page gets from its hierarchy depth,
 * the memoised choice of concurrency and chunk size, and the filter and chunking of
 * `update_contents`.
 *
 * An item is a page dictionary or any other object. For a dictionary only the text of the
 * entries the queue reads matters; every item also has the object identity `id(item)`,
 * which is an input here (the interpreter picks it).
 */
module ParallelMigration {
  import opened Wrappers
  import opened PyStr

  /** A queued item: the `str()` of its entries when it is a dictionary, and `id(item)`. */
  datatype Item = Item(entries: Option<map<string, string>>, identity: nat)

  /** `None`, whose identity is the same at every use. */
  function NoneItem(noneIdentity: nat): Item
  {
    Item(None, noneIdentity)
  }

  /** `_get_item_id`: `url_title`, else `article_<id>`, else the decimal object identity. */
  function ItemId(item: Item): string
  {
    if item.entries.Some? && "url" in item.entries.value && "title" in item.entries.value then
      item.entries.value["url"] + "_" + item.entries.value["title"]
    else if item.entries.Some? && "article_id" in item.entries.value then
      "article_" + item.entries.value["article_id"]
    else NatToString(item.identity)
  }

  /** The IDs of a sequence of items. */
  function IdSet(q: seq<Item>): set<string>
  {
    set x | x in q :: ItemId(x)
  }

  /** No two items of `q` share an ID. */
  predicate DistinctIds(q: seq<Item>)
  {
    forall i, j :: 0 <= i < j < |q| ==> ItemId(q[i]) != ItemId(q[j])
  }

  lemma AppendFresh(q: seq<Item>, x: Item)
    requires DistinctIds(q) && ItemId(x) !in IdSet(q)
    ensures DistinctIds(q + [x]) && IdSet(q + [x]) == IdSet(q) + {ItemId(x)}
  {
    var r := q + [x];
    forall i, j | 0 <= i < j < |r|
      ensures ItemId(r[i]) != ItemId(r[j])
    {
      if j == |q| {
        assert r[i] in q;
      } else {
        assert r[i] == q[i] && r[j] == q[j];
      }
    }
    assert forall y :: y in r <==> y in q || y == x;
  }

  lemma DropFirst(q: seq<Item>)
    requires q != [] && DistinctIds(q)
    ensures DistinctIds(q[1..]) && IdSet(q[1..]) <= IdSet(q)
  {
    forall i, j | 0 <= i < j < |q[1..]|
      ensures ItemId(q[1..][i]) != ItemId(q[1..][j])
    {
      assert q[1..][i] == q[i + 1] && q[1..][j] == q[j + 1];
    }
    assert forall y :: y in q[1..] ==> y in q;
  }

  /** `MigrationQueue`: three FIFO levels and the set of IDs ever accepted. */
  class MigrationQueue {
    var high: seq<Item>
    var normal: seq<Item>
    var low: seq<Item>
    var processed: set<string>

    /** The items waiting, in the order `get` serves them. */
    function Pending(): seq<Item>
      reads this
    {
      high + normal + low
    }

    /** Every waiting item was accepted, and no ID waits twice, within a level or across levels. */
    ghost predicate Valid()
      reads this
    {
      IdSet(high) + IdSet(normal) + IdSet(low) <= processed &&
      DistinctIds(high) && DistinctIds(normal) && DistinctIds(low) &&
      IdSet(high) !! IdSet(normal) && IdSet(high) !! IdSet(low) && IdSet(normal) !! IdSet(low)
    }

    constructor ()
      ensures Valid() && high == [] && normal == [] && low == [] && processed == {}
    {
      high, normal, low, processed := [], [], [], {};
    }

    /**
     * `put(item, priority)`: an item whose ID was accepted before is refused and nothing
     * changes; otherwise its ID is recorded and it joins the end of `high`, `normal`, or,
     * for any other priority string, `low`.
     */
    method Put(item: Item, priority: string) returns (added: bool)
      requires Valid()
      modifies this
      ensures Valid()
      ensures added <==> ItemId(item) !in old(processed)
      ensures !added ==> high == old(high) && normal == old(normal) && low == old(low) && processed == old(processed)
      ensures added ==> processed == old(processed) + {ItemId(item)}
      ensures added && priority == "high" ==> high == old(high) + [item] && normal == old(normal) && low == old(low)
      ensures added && priority == "normal" ==> high == old(high) && normal == old(normal) + [item] && low == old(low)
      ensures added && priority != "high" && priority != "normal" ==>
        high == old(high) && normal == old(normal) && low == old(low) + [item]
    {
      var id := ItemId(item);
      if id in processed {
        return false;
      }
      processed := processed + {id};
      if priority == "high" {
        AppendFresh(high, item);
        high := high + [item];
      } else if priority == "normal" {
        AppendFresh(normal, item);
        normal := normal + [item];
      } else {
        AppendFresh(low, item);
        low := low + [item];
      }
      return true;
    }

    /** `get`: the head of the first non-empty level, or `None` when all three are empty. */
    method Get() returns (item: Option<Item>)
      requires Valid()
      modifies this
      ensures Valid() && processed == old(processed)
      ensures old(Pending()) == [] ==> item.None? && Pending() == []
      ensures old(Pending()) != [] ==> item == Some(old(Pending())[0]) && Pending() == old(Pending())[1..]
      ensures old(high) != [] ==> high == old(high)[1..] && normal == old(normal) && low == old(low)
      ensures old(high) == [] && old(normal) != [] ==> high == [] && normal == old(normal)[1..] && low == old(low)
      ensures old(high) == [] && old(normal) == [] ==> high == [] && normal == [] && low == (if old(low) == [] then [] else old(low)[1..])
    {
      if high != [] {
        item := Some(high[0]);
        assert (high + normal + low)[0] == high[0];
        assert (high + normal + low)[1..] == high[1..] + normal + low;
        DropFirst(high);
        high := high[1..];
      } else if normal != [] {
        item := Some(normal[0]);
        assert high + normal + low == normal + low;
        assert (normal + low)[1..] == normal[1..] + low;
        DropFirst(normal);
        normal := normal[1..];
      } else if low != [] {
        item := Some(low[0]);
        assert high + normal + low == low;
        DropFirst(low);
        low := low[1..];
      } else {
        item := None;
      }
    }

    /** `is_empty`. */
    function IsEmpty(): (r: bool)
      reads this
      ensures r <==> Pending() == []
    {
      high == [] && normal == [] && low == []
    }
  }

  /**
   * The shutdown loop `for _ in range(n): queue.put(None)`: every `None` has the same
   * identity and so the same ID, so at most one sentinel is accepted.
   */
  method PutSentinels(q: MigrationQueue, n: nat, noneIdentity: nat) returns (accepted: nat)
    requires q.Valid()
    modifies q
    ensures q.Valid()
    ensures accepted <= 1
    ensures accepted == (if n > 0 && ItemId(NoneItem(noneIdentity)) !in old(q.processed) then 1 else 0)
  {
    accepted := 0;
    var id := ItemId(NoneItem(noneIdentity));
    for i := 0 to n
      invariant q.Valid()
      invariant accepted == (if i > 0 && id !in old(q.processed) then 1 else 0)
      invariant i > 0 ==> id in q.processed
      invariant i == 0 ==> q.processed == old(q.processed)
    {
      var added := q.Put(NoneItem(noneIdentity), "normal");
      if added {
        accepted := accepted + 1;
      }
    }
  }

  /** Two pages whose URL and title differ only in where an `_` falls share an ID: the second is refused. */
  lemma UrlTitleIdsCollide()
    ensures var a := Item(Some(map["url" := "a_b", "title" := "c"]), 1);
      var b := Item(Some(map["url" := "a", "title" := "b_c"]), 2);
      a != b && ItemId(a) == ItemId(b)
  {
    var a := Item(Some(map["url" := "a_b", "title" := "c"]), 1);
    var b := Item(Some(map["url" := "a", "title" := "b_c"]), 2);
    assert ItemId(a) == "a_b" + "_" + "c";
    assert ItemId(b) == "a" + "_" + "b_c";
  }

  // ---------------------------------------------------------------- priority

  /** The priority `migrate_contents` gives a page from the number of hierarchy levels. */
  function PriorityOf(levels: nat): (r: string)
    ensures r == "high" <==> levels <= 1
    ensures r == "low" <==> levels > 3
    ensures r == "normal" <==> 2 <= levels <= 3
  {
    if levels <= 1 then "high" else if levels > 3 then "low" else "normal"
  }

  // ---------------------------------------------------------------- resources

  /**
   * What `detect_optimal_resources` learns from the host: the CPU count (`None` when asking
   * raises) and, when `psutil` is installed, `int(mem_gb / 2)` for the available memory.
   */
  datatype Host = Host(cpus: Option<nat>, halfMemGb: Option<int>)

  /** The concurrency and chunk size chosen for a host. */
  function Optimal(h: Host): (r: (int, int))
    ensures 5 <= r.1 <= 20
    ensures r.0 >= 0
    ensures h.cpus.Some? && h.halfMemGb.Some? ==> r.0 <= 50
    ensures h.cpus.Some? && h.halfMemGb.None? ==> r.0 <= 40
    ensures h.cpus.None? ==> r == (20, 10)
  {
    if h.cpus.None? then (20, 10)
    else
      var concurrent :=
        if h.halfMemGb.Some? then
          var factor := Min(5, Max(2, h.halfMemGb.value));
          Min(50, h.cpus.value * factor)
        else Min(40, h.cpus.value * 3);
      (concurrent, Min(20, Max(5, concurrent / 4)))
  }

  function Min(a: int, b: int): int { if a <= b then a else b }
  function Max(a: int, b: int): int { if a >= b then a else b }

  /** The concurrency and chunk size of `ContentMigrator`, detected at most once. */
  class ResourceSettings {
    var detectionDone: bool
    var optimalConcurrent: int
    var chunkSize: int

    /** The chunk size is always one `detect_optimal_resources` can choose. */
    ghost predicate Valid()
      reads this
    {
      5 <= chunkSize <= 20
    }

    constructor ()
      ensures Valid() && !detectionDone && optimalConcurrent == 20 && chunkSize == 10
    {
      detectionDone, optimalConcurrent, chunkSize := false, 20, 10;
    }

    /** `detect_optimal_resources`: the first call picks `Optimal(host)`; later calls return the same pair. */
    method DetectOptimalResources(host: Host) returns (concurrent: int, chunk: int)
      requires Valid()
      modifies this
      ensures Valid() && detectionDone
      ensures old(detectionDone) ==> (concurrent, chunk) == (old(optimalConcurrent), old(chunkSize)) &&
                                     optimalConcurrent == old(optimalConcurrent) && chunkSize == old(chunkSize)
      ensures !old(detectionDone) ==> (concurrent, chunk) == Optimal(host) &&
                                      (optimalConcurrent, chunkSize) == Optimal(host)
    {
      if detectionDone {
        return optimalConcurrent, chunkSize;
      }
      var pair := Optimal(host);
      optimalConcurrent, chunkSize := pair.0, pair.1;
      detectionDone := true;
      return optimalConcurrent, chunkSize;
    }
  }

  /** A second detection returns what the first chose, whatever the host reports then. */
  method DetectTwice(s: ResourceSettings, h1: Host, h2: Host) returns (first: (int, int), second: (int, int))
    requires s.Valid() && !s.detectionDone
    modifies s
    ensures first == second == Optimal(h1)
    ensures 5 <= second.1 <= 20
  {
    var c1, k1 := s.DetectOptimalResources(h1);
    var c2, k2 := s.DetectOptimalResources(h2);
    first, second := (c1, k1), (c2, k2);
  }

  // ---------------------------------------------------------------- update_contents

  /** A page of the update sheet as the text of its entries. */
  type Page = map<string, string>

  function ArticleId(p: Page): string
  {
    if "article_id" in p then p["article_id"] else ""
  }

  /** `page.get('article_id', '').strip().isdigit()`. */
  predicate HasNumericArticle(p: Page)
  {
    IsDigitText(Strip(ArticleId(p)))
  }

  /** The elements of `xs` that `keep` accepts, in order. */
  function Filter<T>(xs: seq<T>, keep: T -> bool): seq<T>
  {
    if xs == [] then []
    else (if keep(xs[0]) then [xs[0]] else []) + Filter(xs[1..], keep)
  }

  /** `pages_to_update`: the pages with a numeric article ID, in order. */
  function PagesToUpdate(pages: seq<Page>): seq<Page>
  {
    Filter(pages, HasNumericArticle)
  }

  /** A page whose article ID is the superscript `²` passes `isdigit` and is updated. */
  lemma SuperscriptArticleKept(title: string)
    ensures var p := map["article_id" := "\U{00B2}", "title" := title];
      PagesToUpdate([p]) == [p]
  {
    var p := map["article_id" := "\U{00B2}", "title" := title];
    var id: string := "\U{00B2}";
    assert ArticleId(p) == id;
    assert id[0] == '\U{00B2}' && |id| == 1;
    assert !IsSpace('\U{00B2}');
    assert '\U{00B2}' !in Whitespace;
    StripUnchanged(id, Whitespace);
    assert IsDigitChar(id[0]);
    assert HasNumericArticle(p);
    assert [p][1..] == [];
    assert Filter([p], HasNumericArticle) == [p] + Filter([p][1..], HasNumericArticle);
  }

  /** An element is kept exactly when `keep` accepts it, and no more come out than went in. */
  lemma {:induction false} FilterExactly<T>(xs: seq<T>, keep: T -> bool, x: T)
    ensures x in Filter(xs, keep) <==> x in xs && keep(x)
    ensures |Filter(xs, keep)| <= |xs|
    decreases |xs|
  {
    if xs != [] {
      FilterExactly(xs[1..], keep, x);
      assert x in xs <==> x == xs[0] || x in xs[1..];
    }
  }

  /** The filter keeps order: filtering a concatenation concatenates the filtered parts. */
  lemma {:induction false} FilterAppend<T>(a: seq<T>, b: seq<T>, keep: T -> bool)
    ensures Filter(a + b, keep) == Filter(a, keep) + Filter(b, keep)
    decreases |a|
  {
    if a == [] {
      assert a + b == b;
    } else {
      var head := if keep(a[0]) then [a[0]] else [];
      assert (a + b)[0] == a[0];
      assert (a + b)[1..] == a[1..] + b;
      assert Filter(a + b, keep) == head + Filter(a[1..] + b, keep);
      FilterAppend(a[1..], b, keep);
      assert head + (Filter(a[1..], keep) + Filter(b, keep)) == (head + Filter(a[1..], keep)) + Filter(b, keep);
    }
  }

  /** The pages kept are exactly those whose stripped article ID is all digits, in their order. */
  lemma PagesToUpdateExactly(pages: seq<Page>, p: Page, more: seq<Page>)
    ensures p in PagesToUpdate(pages) <==> p in pages && HasNumericArticle(p)
    ensures PagesToUpdate(pages + more) == PagesToUpdate(pages) + PagesToUpdate(more)
  {
    FilterExactly(pages, HasNumericArticle, p);
    FilterAppend(pages, more, HasNumericArticle);
  }

  /** `[xs[i:i + n] for i in range(0, len(xs), n)]`. */
  function Chunks<T>(xs: seq<T>, n: nat): (r: seq<seq<T>>)
    requires n > 0
    ensures forall i :: 0 <= i < |r| ==> 0 < |r[i]| <= n
    ensures forall i :: 0 <= i < |r| - 1 ==> |r[i]| == n
    decreases |xs|
  {
    if xs == [] then []
    else if |xs| <= n then [xs]
    else [xs[..n]] + Chunks(xs[n..], n)
  }

  /** The concatenation of the chunks, in order. */
  function Flatten<T>(cs: seq<seq<T>>): seq<T>
  {
    if cs == [] then [] else Flatten(cs[..|cs| - 1]) + cs[|cs| - 1]
  }

  lemma {:induction false} FlattenCons<T>(c: seq<T>, cs: seq<seq<T>>)
    ensures Flatten([c] + cs) == c + Flatten(cs)
    decreases |cs|
  {
    if cs == [] {
      assert ([c] + cs)[..0] == [];
    } else {
      var d := [c] + cs;
      var front := cs[..|cs| - 1];
      assert d[..|d| - 1] == [c] + front;
      assert d[|d| - 1] == cs[|cs| - 1];
      FlattenCons(c, front);
      assert Flatten(d) == (c + Flatten(front)) + cs[|cs| - 1];
      assert Flatten(cs) == Flatten(front) + cs[|cs| - 1];
    }
  }

  /** The chunks partition the list: concatenated in order they give it back. */
  lemma {:induction false} ChunksPartition<T>(xs: seq<T>, n: nat)
    requires n > 0
    ensures Flatten(Chunks(xs, n)) == xs
    decreases |xs|
  {
    if xs == [] {
    } else if |xs| <= n {
      assert Flatten([xs]) == Flatten([xs][..0]) + xs;
    } else {
      ChunksPartition(xs[n..], n);
      FlattenCons(xs[..n], Chunks(xs[n..], n));
      assert xs[..n] + xs[n..] == xs;
    }
  }

  /**
   * `results[article_id] = success` over the pages in order, where `update(i)` is the
   * success of the i-th page's update; a later page with the same ID overwrites.
   */
  function Updated(ps: seq<Page>, update: nat -> bool): map<string, bool>
  {
    if ps == [] then map[]
    else Updated(ps[..|ps| - 1], update)[ArticleId(ps[|ps| - 1]) := update(|ps| - 1)]
  }

  /** The results hold one entry per article ID; its value is the update of the last page with that ID. */
  lemma {:induction false} UpdatedEntries(ps: seq<Page>, update: nat -> bool, i: nat)
    requires i < |ps|
    requires forall j :: i < j < |ps| ==> ArticleId(ps[j]) != ArticleId(ps[i])
    ensures ArticleId(ps[i]) in Updated(ps, update)
    ensures Updated(ps, update)[ArticleId(ps[i])] == update(i)
    decreases |ps|
  {
    if i < |ps| - 1 {
      var front := ps[..|ps| - 1];
      assert forall j :: i < j < |front| ==> front[j] == ps[j];
      UpdatedEntries(front, update, i);
    }
  }

  /** No other key appears in the results. */
  lemma {:induction false} UpdatedKeys(ps: seq<Page>, update: nat -> bool, k: string)
    requires k in Updated(ps, update)
    ensures exists i :: 0 <= i < |ps| && ArticleId(ps[i]) == k
    decreases |ps|
  {
    var last := |ps| - 1;
    if ArticleId(ps[last]) != k {
      UpdatedKeys(ps[..last], update, k);
      var i :| 0 <= i < last && ArticleId(ps[..last][i]) == k;
      assert ps[..last][i] == ps[i];
    }
  }

  /**
   * `update_contents` with the chunk size its caller passed (`0` for none) and the sizes
   * `detect_optimal_resources` would pick: the pages with a numeric article ID are updated
   * chunk by chunk, in order.
   */
  method UpdateContents(s: ResourceSettings, pages: seq<Page>, maxConcurrent: int, chunkSize: int,
                        host: Host, update: nat -> bool) returns (results: map<string, bool>)
    requires s.Valid()
    modifies s
    ensures s.Valid()
    ensures chunkSize >= 0 || maxConcurrent == 0 ==> results == Updated(PagesToUpdate(pages), update)
    ensures chunkSize < 0 && maxConcurrent != 0 ==> results == map[]
  {
    var size := chunkSize;
    var concurrent := maxConcurrent;
    if maxConcurrent == 0 || chunkSize == 0 {
      concurrent, size := s.DetectOptimalResources(host);
    }
    var toUpdate := PagesToUpdate(pages);
    if toUpdate == [] {
      return map[];
    }
    results := map[];
    size := Min(size, |toUpdate|);
    if size <= 0 {
      return;
    }
    var chunks := Chunks(toUpdate, size);
    ChunksPartition(toUpdate, size);
    results := UpdateChunks(chunks, update);
  }

  /** The loop over the chunks and, within a chunk, over its pages. */
  method UpdateChunks(chunks: seq<seq<Page>>, update: nat -> bool) returns (results: map<string, bool>)
    ensures results == Updated(Flatten(chunks), update)
  {
    results := map[];
    var position := 0;
    for i := 0 to |chunks|
      invariant results == Updated(Flatten(chunks[..i]), update)
      invariant position == |Flatten(chunks[..i])|
    {
      var chunk := chunks[i];
      ghost var before := Flatten(chunks[..i]);
      assert before + chunk[..0] == before;
      for j := 0 to |chunk|
        invariant results == Updated(before + chunk[..j], update)
        invariant position == |before| + j
      {
        ghost var done := before + chunk[..j];
        assert (done + [chunk[j]])[..|done|] == done;
        assert before + chunk[..j + 1] == done + [chunk[j]];
        results := results[ArticleId(chunk[j]) := update(position)];
        position := position + 1;
      }
      assert chunk[..|chunk|] == chunk;
      assert chunks[..i + 1][..i] == chunks[..i];
    }
    assert chunks[..|chunks|] == chunks;
  }
}
