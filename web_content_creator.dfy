/**
 * `WebContentCreator.migrate_content`: one page's web content is found in the cache,
 * found in its folder, or created by one of three creators (collapsible, mixed, regular),
 * then tied to the page's Journal portlets and cached under the lower-cased title.
 *
 * Every service the method calls is an input here (`Services`): the GET of a cached
 * content's key, the page lookup, the two folder hierarchies, the folder search, the
 * fetch-and-process step and the three creators. The associations are recorded, not
 * performed: `associate_content_with_page_portlet` (modelled as
 * `JournalPortlets.Associate`) catches its own errors and its answer is ignored here.
 */
module WebContentCreator {
  import opened Wrappers
  import opened PyStr
  import opened PyValues
  import opened JournalPortlets

  /** The GET of a cached content: its status and decoded body, or an exception. */
  datatype KeyReply = KeyStatus(status: int, data: PyValue) | KeyRaised

  /** The item `find_existing_content` found in the folder, by case-insensitive title. */
  datatype Existing = Existing(id: int, key: PyValue)

  /** The flags of `fetch_and_process_content` that the dispatch reads. */
  datatype Processed = Processed(success: bool, isCollapsible: bool, hasMixed: bool)

  /**
   * What the services answer for one call. `shown` is the text `str()` gives for a
   * cached list or dictionary; the order in which Python displays a dictionary is not
   * part of this model.
   */
  datatype Services = Services(
    keyReply: KeyReply,
    page: Option<PageInfo>,
    folderId: int,
    folderIdDl: int,
    existing: Option<Existing>,
    processed: Processed,
    collapse: PyValue,
    mixed: seq<PyValue>,
    regular: PyValue,
    shown: string)

  /** One call of `associate_content_with_page_portlet(content, page_data, portlet_index=index)`. */
  datatype Link = Link(content: PyValue, index: int)

  /** The value returned, the content cache afterwards and the associations made. */
  datatype Migration = Migration(result: PyValue, cache: map<string, PyValue>, links: seq<Link>)

  /** `{"id": id, "key": key}`. */
  function IdKey(id: PyValue, key: PyValue): (r: PyValue)
    ensures r.Dict? && r.entries.Keys == {"id", "key"}
    ensures r.entries["id"] == id && r.entries["key"] == key
  {
    Dict(map["id" := id, "key" := key])
  }

  /** The failure result `{"id": 0, "key": ""}`. */
  const Failed: PyValue := IdKey(Int(0), Str(""))

  /** `str(v)`, with `shown` standing for the display of a list or dictionary. */
  function Text(v: PyValue, shown: string): string
  {
    if v.List? || v.Dict? then shown else ScalarText(v)
  }

  /** The cache-hit branch: the key from a 200 reply, `str(id)` for another status; a non-dictionary body raises. */
  function CachedResult(cached: PyValue, s: Services): (r: PyValue)
    ensures r == Failed || (r.Dict? && "id" in r.entries && r.entries["id"] == cached)
  {
    match s.keyReply
    case KeyRaised => Failed
    case KeyStatus(status, data) =>
      if status == 200 then
        if data.Dict? then IdKey(cached, Get(data, "key").GetOr(NoneValue)) else Failed
      else IdKey(cached, Str(Text(cached, s.shown)))
  }

  /** The collapsible creator's answer first, then the mixed creator's first result (or `None`), then the regular one. */
  function Created(s: Services): PyValue
  {
    if s.processed.isCollapsible then s.collapse
    else if s.processed.hasMixed then (if s.mixed != [] then s.mixed[0] else NoneValue)
    else s.regular
  }

  /** The mixed results, which are associated one by one; empty for the other two creators. */
  function Results(s: Services): seq<PyValue>
  {
    if !s.processed.isCollapsible && s.processed.hasMixed then s.mixed else []
  }

  /** `associate(results[i], page, portlet_index=i)` for each result, in order. */
  function Enumerated(results: seq<PyValue>, from: nat): (r: seq<Link>)
    ensures |r| == |results|
    ensures forall i :: 0 <= i < |r| ==> r[i] == Link(results[i], from + i)
    decreases |results|
  {
    if results == [] then [] else [Link(results[0], from)] + Enumerated(results[1..], from + 1)
  }

  /** The associations for a created content: one per mixed result, or one for the content with index 0. */
  function Links(content: PyValue, results: seq<PyValue>): seq<Link>
  {
    if results != [] then Enumerated(results, 0) else [Link(content, 0)]
  }

  /**
   * `migrate_content`, with `store` choosing what the final `cache.add_content` receives
   * for a created content (the source stores the whole result: see `Migrate`). Every
   * raise in the body ends in the handler's `{"id": 0, "key": ""}` with the cache as it was.
   */
  function MigrateWith(cache: map<string, PyValue>, title: string, s: Services, store: PyValue -> PyValue): Migration
  {
    var k := Lower(title);
    if k in cache && Truthy(cache[k]) then
      Migration(CachedResult(cache[k], s), cache, [])
    else if s.folderId == 0 then
      Migration(Failed, cache, [])
    else if s.existing.Some? then
      var e := IdKey(Int(s.existing.value.id), s.existing.value.key);
      Migration(e, cache[k := Int(s.existing.value.id)], if s.page.Some? then [Link(e, 0)] else [])
    else if !s.processed.success then
      Migration(Failed, cache, [])
    else
      var content := Created(s);
      if !Truthy(content) then Migration(Failed, cache, [])
      else Migration(content, cache[k := store(content)], if s.page.Some? then Links(content, Results(s)) else [])
  }

  /** `migrate_content` as written: the cache receives the created result itself. */
  function Migrate(cache: map<string, PyValue>, title: string, s: Services): Migration
  {
    MigrateWith(cache, title, s, (v: PyValue) => v)
  }

  /** The ID of a created result: its `"id"` entry for a dictionary, the value itself otherwise. */
  function IdOf(v: PyValue): (r: PyValue)
    ensures v.Dict? && "id" in v.entries ==> r == v.entries["id"]
    ensures !v.Dict? ==> r == v
  {
    if v.Dict? then Get(v, "id").GetOr(NoneValue) else v
  }

  /** `migrate_content` with the cache receiving the content's ID, as `ContentCache.add_content` expects. */
  function MigrateIntended(cache: map<string, PyValue>, title: string, s: Services): Migration
  {
    MigrateWith(cache, title, s, IdOf)
  }

  // ---------------------------------------------------------------- properties

  /** A truthy cache entry answers at once: no other service matters, nothing is cached or associated. */
  lemma CacheHitShortCuts(cache: map<string, PyValue>, title: string, s1: Services, s2: Services)
    requires Lower(title) in cache && Truthy(cache[Lower(title)])
    requires s1.keyReply == s2.keyReply && s1.shown == s2.shown
    ensures Migrate(cache, title, s1) == Migrate(cache, title, s2)
    ensures Migrate(cache, title, s1).cache == cache && Migrate(cache, title, s1).links == []
    ensures var r := Migrate(cache, title, s1).result;
      r == Failed || (r.Dict? && r.entries["id"] == cache[Lower(title)])
  {
  }

  /** A cache hit whose key lookup answers 200 with a dictionary returns the cached value and that key. */
  lemma CacheHitKey(cache: map<string, PyValue>, title: string, s: Services)
    requires Lower(title) in cache && Truthy(cache[Lower(title)])
    requires s.keyReply.KeyStatus? && s.keyReply.status == 200 && s.keyReply.data.Dict?
    ensures Migrate(cache, title, s).result
         == IdKey(cache[Lower(title)], Get(s.keyReply.data, "key").GetOr(NoneValue))
  {
  }

  /** Without a cache hit, folder ID 0 fails before anything is searched or created. */
  lemma NoFolderFails(cache: map<string, PyValue>, title: string, s: Services)
    requires !(Lower(title) in cache && Truthy(cache[Lower(title)]))
    requires s.folderId == 0
    ensures Migrate(cache, title, s) == Migration(Failed, cache, [])
  {
  }

  /** Content already in the folder is cached by ID, associated once with portlet index 0, and returned. */
  lemma ExistingReturned(cache: map<string, PyValue>, title: string, s: Services)
    requires !(Lower(title) in cache && Truthy(cache[Lower(title)]))
    requires s.folderId != 0 && s.existing.Some?
    ensures var e := IdKey(Int(s.existing.value.id), s.existing.value.key);
      Migrate(cache, title, s)
        == Migration(e, cache[Lower(title) := Int(s.existing.value.id)], if s.page.Some? then [Link(e, 0)] else [])
  {
  }

  /**
   * The dispatch of a processed page: the collapsible creator whenever the page is
   * collapsible, the mixed creator's first result when it is mixed only, the regular
   * creator otherwise; a falsy answer is a failure that leaves the cache alone.
   */
  lemma Dispatch(cache: map<string, PyValue>, title: string, s: Services)
    requires !(Lower(title) in cache && Truthy(cache[Lower(title)]))
    requires s.folderId != 0 && s.existing.None? && s.processed.success
    ensures var m := Migrate(cache, title, s);
      var c := if s.processed.isCollapsible then s.collapse
               else if s.processed.hasMixed then (if s.mixed != [] then s.mixed[0] else NoneValue)
               else s.regular;
      (Truthy(c) ==> m.result == c && m.cache == cache[Lower(title) := c]) &&
      (!Truthy(c) ==> m == Migration(Failed, cache, []))
  {
  }

  /** A failed processing step fails whatever the creators would answer. */
  lemma ProcessingFailureFails(cache: map<string, PyValue>, title: string, s: Services)
    requires !(Lower(title) in cache && Truthy(cache[Lower(title)]))
    requires s.folderId != 0 && s.existing.None? && !s.processed.success
    ensures Migrate(cache, title, s) == Migration(Failed, cache, [])
  {
  }

  /**
   * With a page, a mixed page's results are associated one by one with portlet indices
   * 0, 1, …; any other created content is associated once with index 0. Without a page
   * nothing is associated.
   */
  lemma CreatedLinks(cache: map<string, PyValue>, title: string, s: Services)
    requires !(Lower(title) in cache && Truthy(cache[Lower(title)]))
    requires s.folderId != 0 && s.existing.None? && s.processed.success && Truthy(Created(s))
    ensures var m := Migrate(cache, title, s);
      (s.page.None? ==> m.links == []) &&
      (s.page.Some? && !s.processed.isCollapsible && s.processed.hasMixed ==>
         |m.links| == |s.mixed| && forall i :: 0 <= i < |m.links| ==> m.links[i] == Link(s.mixed[i], i)) &&
      (s.page.Some? && s.processed.isCollapsible ==> m.links == [Link(s.collapse, 0)]) &&
      (s.page.Some? && !s.processed.isCollapsible && !s.processed.hasMixed ==> m.links == [Link(s.regular, 0)])
  {
  }

  /** Only the entry of the lower-cased title can change. */
  lemma CacheFrame(cache: map<string, PyValue>, title: string, s: Services, other: string)
    requires other != Lower(title)
    ensures var m := Migrate(cache, title, s);
      (other in m.cache <==> other in cache) && (other in cache ==> m.cache[other] == cache[other])
  {
  }

  /**
   * The regular creator reports its own failure as `{"id": 0, "key": ""}`, which is a
   * non-empty dictionary and so passes the `if not content_result` test: it is cached and
   * associated like a created content.
   */
  lemma RegularFailureCached(cache: map<string, PyValue>, title: string, s: Services)
    requires !(Lower(title) in cache && Truthy(cache[Lower(title)]))
    requires s.folderId != 0 && s.existing.None? && s.processed.success
    requires !s.processed.isCollapsible && !s.processed.hasMixed && s.regular == Failed
    ensures Migrate(cache, title, s).cache == cache[Lower(title) := Failed]
    ensures Truthy(Migrate(cache, title, s).cache[Lower(title)])
  {
  }

  // ---------------------------------------------------------------- the cached result

  /**
   * As written, the cache receives the whole dictionary a regular creation returns, so
   * the next migration of the same title takes the cache-hit branch and answers with
   * that dictionary as its `"id"`.
   */
  lemma CachedDictAsId(cache: map<string, PyValue>, title: string, s1: Services, s2: Services, id: int, key: PyValue)
    requires !(Lower(title) in cache && Truthy(cache[Lower(title)]))
    requires s1.folderId != 0 && s1.existing.None? && s1.processed.success
    requires !s1.processed.isCollapsible && !s1.processed.hasMixed && s1.regular == IdKey(Int(id), key)
    requires s2.keyReply != KeyRaised && !(s2.keyReply.status == 200 && !s2.keyReply.data.Dict?)
    ensures var r := Migrate(Migrate(cache, title, s1).cache, title, s2).result;
      r.Dict? && r.entries["id"] == IdKey(Int(id), key) && r.entries["id"] != Int(id)
  {
    var c := Migrate(cache, title, s1).cache;
    assert c[Lower(title)] == IdKey(Int(id), key);
  }

  /** With the ID cached instead, the next migration of the title answers with the integer ID. */
  lemma CachedIdIntended(cache: map<string, PyValue>, title: string, s1: Services, s2: Services, id: int, key: PyValue)
    requires !(Lower(title) in cache && Truthy(cache[Lower(title)]))
    requires s1.folderId != 0 && s1.existing.None? && s1.processed.success
    requires !s1.processed.isCollapsible && !s1.processed.hasMixed && s1.regular == IdKey(Int(id), key)
    requires id != 0
    requires s2.keyReply != KeyRaised && !(s2.keyReply.status == 200 && !s2.keyReply.data.Dict?)
    ensures var r := MigrateIntended(MigrateIntended(cache, title, s1).cache, title, s2).result;
      r.Dict? && r.entries["id"] == Int(id)
  {
    var c := MigrateIntended(cache, title, s1).cache;
    assert c[Lower(title)] == Int(id);
  }

  /** Both definitions agree on every result and association of a single call. */
  lemma IntendedSameAnswer(cache: map<string, PyValue>, title: string, s: Services)
    ensures MigrateIntended(cache, title, s).result == Migrate(cache, title, s).result
    ensures MigrateIntended(cache, title, s).links == Migrate(cache, title, s).links
  {
  }

  // ---------------------------------------------------------------- the method

  /** The creator's state that `migrate_content` writes: the content cache, keyed by lower-cased title. */
  class ContentMigrator {
    var contentCache: map<string, PyValue>

    constructor ()
      ensures contentCache == map[]
    {
      contentCache := map[];
    }

    /** `migrate_content`. */
    method MigrateContent(title: string, s: Services) returns (result: PyValue, links: seq<Link>)
      modifies this
      ensures Migration(result, contentCache, links) == Migrate(old(contentCache), title, s)
    {
      var key := Lower(title);
      if key in contentCache && Truthy(contentCache[key]) {
        result := CachedResult(contentCache[key], s);
        links := [];
        return;
      }
      links := [];
      if s.folderId == 0 {
        result := Failed;
        return;
      }
      if s.existing.Some? {
        contentCache := contentCache[key := Int(s.existing.value.id)];
        result := IdKey(Int(s.existing.value.id), s.existing.value.key);
        if s.page.Some? {
          links := [Link(result, 0)];
        }
        return;
      }
      if !s.processed.success {
        result := Failed;
        return;
      }
      var contentResult := NoneValue;
      var contentResults: seq<PyValue> := [];
      if s.processed.isCollapsible {
        contentResult := s.collapse;
      } else if s.processed.hasMixed {
        contentResults := s.mixed;
        contentResult := if contentResults != [] then contentResults[0] else NoneValue;
      } else {
        contentResult := s.regular;
      }
      if !Truthy(contentResult) {
        result := Failed;
        return;
      }
      if s.page.Some? {
        if contentResults != [] {
          for i := 0 to |contentResults|
            invariant links == Enumerated(contentResults[..i], 0)
            invariant contentCache == old(contentCache)
          {
            EnumeratedAppend(contentResults[..i], contentResults[i], 0);
            assert contentResults[..i + 1] == contentResults[..i] + [contentResults[i]];
            links := links + [Link(contentResults[i], i)];
          }
          assert contentResults[..|contentResults|] == contentResults;
        } else {
          links := [Link(contentResult, 0)];
        }
      }
      contentCache := contentCache[key := contentResult];
      result := contentResult;
    }
  }

  /** Enumerating one more result appends its link. */
  lemma {:induction false} EnumeratedAppend(results: seq<PyValue>, v: PyValue, from: nat)
    ensures Enumerated(results + [v], from) == Enumerated(results, from) + [Link(v, from + |results|)]
    decreases |results|
  {
    if results == [] {
      assert results + [v] == [v];
    } else {
      assert (results + [v])[1..] == results[1..] + [v];
      EnumeratedAppend(results[1..], v, from + 1);
    }
  }
}
