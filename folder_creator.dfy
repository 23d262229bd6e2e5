/**
 * `FolderCreator`: the folder caches consulted before anything is created on the server,
 * the retry policy around each request, the walk down a folder hierarchy and the
 * bookkeeping of the retry pass over failed folders.
 *
 * The server is an oracle (`Network`): the answer to the n-th request of a run is
 * `post(n)` for a folder creation and `listing(n)` for the listing of a parent's
 * folders, where n counts the requests sent before it.
 */
module FolderCreator {
  import opened Wrappers
  import opened PyStr
  import TextLib
  import FolderNameValidator
  import PageCreator
  import opened FolderErrors
  import opened Retry

  // ---------------------------------------------------------------- keys and URLs

  /** `get_comparison_key`: lower case, NFKD, then only the ASCII characters survive. */
  function ComparisonKey(title: string): string
  {
    TextLib.AsciiOnly(TextLib.Nfkd(Lower(title)))
  }

  const Api: string := "/o/headless-delivery/v1.0/"
  const JournalFolders: string := "structured-content-folders"
  const DocumentFolders: string := "document-folders"

  /** The collection a folder type lives in: every type other than `journal` is a document type. */
  function FolderPath(folderType: string): string
  {
    if folderType == "journal" then JournalFolders else DocumentFolders
  }

  /** The two site-level collection URLs precomputed by the constructor. */
  function SiteUrl(baseUrl: string, siteId: string, folderType: string): string
  {
    baseUrl + Api + "sites/" + siteId + "/" + FolderPath(folderType)
  }

  /** `_get_folder_url`. */
  function FolderUrl(baseUrl: string, siteId: string, folderType: string, parentId: int): string
  {
    if parentId == 0 then SiteUrl(baseUrl, siteId, folderType)
    else NestedUrl(baseUrl, FolderPath(folderType), IntToString(parentId))
  }

  /** `{base_url}/o/headless-delivery/v1.0/{path}/{parent}/{path}`. */
  function NestedUrl(baseUrl: string, path: string, parent: string): string
  {
    baseUrl + Api + path + "/" + parent + "/" + path
  }

  /** Every folder URL lies under the API root and ends in the type's collection. */
  lemma FolderUrlShape(baseUrl: string, siteId: string, folderType: string, parentId: int)
    ensures StartsWith(FolderUrl(baseUrl, siteId, folderType, parentId), baseUrl + Api)
    ensures EndsWith(FolderUrl(baseUrl, siteId, folderType, parentId), "/" + FolderPath(folderType))
  {
    var p := FolderPath(folderType);
    var x := baseUrl + Api;
    if parentId == 0 {
      StartsWithConcat(x, "sites/");
      StartsWithExtend(x + "sites/", x, siteId);
      StartsWithExtend(x + "sites/" + siteId, x, "/");
      StartsWithExtend(x + "sites/" + siteId + "/", x, p);
      EndsWithJoined(x + "sites/" + siteId, "/", p);
    } else {
      var n := IntToString(parentId);
      StartsWithConcat(x, p);
      StartsWithExtend(x + p, x, "/");
      StartsWithExtend(x + p + "/", x, n);
      StartsWithExtend(x + p + "/" + n, x, "/");
      StartsWithExtend(x + p + "/" + n + "/", x, p);
      EndsWithJoined(x + p + "/" + n, "/", p);
    }
  }

  /** At the site root the URL is the precomputed site collection; any non-journal type means documents. */
  lemma FolderUrlRoot(baseUrl: string, siteId: string, folderType: string)
    ensures FolderUrl(baseUrl, siteId, folderType, 0) == SiteUrl(baseUrl, siteId, folderType)
    ensures FolderUrl(baseUrl, siteId, "journal", 0) == baseUrl + Api + "sites/" + siteId + "/" + JournalFolders
    ensures folderType != "journal" ==>
      FolderUrl(baseUrl, siteId, folderType, 0) == baseUrl + Api + "sites/" + siteId + "/" + DocumentFolders
  {
  }

  /** Under a parent the URL is `{base}/{parent}/{base}`; any non-journal type means documents. */
  lemma FolderUrlNested(baseUrl: string, siteId: string, folderType: string, parentId: int)
    requires parentId != 0
    ensures FolderUrl(baseUrl, siteId, folderType, parentId) ==
      NestedUrl(baseUrl, FolderPath(folderType), IntToString(parentId))
    ensures folderType != "journal" ==>
      FolderUrl(baseUrl, siteId, folderType, parentId) == NestedUrl(baseUrl, DocumentFolders, IntToString(parentId))
  {
  }

  // ---------------------------------------------------------------- caches

  /**
   * The four caches, with Python's nested dictionaries flattened to maps keyed by tuples:
   * `folders[(title, parent, type)]`, `comparisons[(key, parent, type)]`,
   * `existence` of `(parent, type, key)` and `contents[(parent, type)][key]`.
   */
  datatype Caches = Caches(
    folders: map<(string, int, string), int>,
    comparisons: map<(string, int, string), int>,
    existence: set<(int, string, string)>,
    contents: map<(int, string), map<string, int>>)

  /** The folders known under one parent and type. */
  function Contents(c: Caches, parentId: int, folderType: string): map<string, int>
  {
    if (parentId, folderType) in c.contents then c.contents[(parentId, folderType)] else map[]
  }

  /** `_cache_folder_id`. */
  function CacheFolder(c: Caches, title: string, parentId: int, folderType: string, folderId: int): Caches
  {
    var key := ComparisonKey(title);
    Caches(c.folders[(title, parentId, folderType) := folderId],
           c.comparisons[(key, parentId, folderType) := folderId],
           c.existence + {(parentId, folderType, key)},
           c.contents[(parentId, folderType) := Contents(c, parentId, folderType)[key := folderId]])
  }

  /** `_get_cached_folder_id`: the exact title first, then its comparison key, then the parent's contents. */
  function Lookup(c: Caches, title: string, parentId: int, folderType: string): Option<int>
  {
    var key := ComparisonKey(title);
    if (title, parentId, folderType) in c.folders then Some(c.folders[(title, parentId, folderType)])
    else if (key, parentId, folderType) in c.comparisons then Some(c.comparisons[(key, parentId, folderType)])
    else if key in Contents(c, parentId, folderType) then Some(Contents(c, parentId, folderType)[key])
    else None
  }

  /** A folder just cached is found again under its own title. */
  lemma CacheThenLookup(c: Caches, title: string, parentId: int, folderType: string, folderId: int)
    ensures Lookup(CacheFolder(c, title, parentId, folderType, folderId), title, parentId, folderType) == Some(folderId)
  {
  }

  /**
   * Any other title with the same comparison key finds it too, unless that title was
   * itself cached earlier under the same parent and type: the exact-title entry is
   * consulted first and wins.
   */
  lemma CacheThenLookupByKey(c: Caches, title: string, other: string, parentId: int, folderType: string, folderId: int)
    requires ComparisonKey(other) == ComparisonKey(title)
    ensures (other, parentId, folderType) !in c.folders || other == title ==>
      Lookup(CacheFolder(c, title, parentId, folderType, folderId), other, parentId, folderType) == Some(folderId)
    ensures (other, parentId, folderType) in c.folders && other != title ==>
      Lookup(CacheFolder(c, title, parentId, folderType, folderId), other, parentId, folderType) ==
        Some(c.folders[(other, parentId, folderType)])
  {
  }

  /** Caching under one parent and type leaves every lookup under another parent or type as it was. */
  lemma CacheFrame(c: Caches, title: string, parentId: int, folderType: string, folderId: int,
                   other: string, otherParent: int, otherType: string)
    requires (otherParent, otherType) != (parentId, folderType)
    ensures Lookup(CacheFolder(c, title, parentId, folderType, folderId), other, otherParent, otherType) ==
      Lookup(c, other, otherParent, otherType)
  {
  }

  // ---------------------------------------------------------------- the server and the run state

  /** A request sent to the server: a folder creation, or the listing of one parent's folders. */
  datatype FolderRequest = Post(name: string, parentId: int, folderType: string) | List(parentId: int, folderType: string)

  /** The answer to a creation: a status with the `id` of the body when it has one, or a raised error. */
  datatype PostOutcome = Response(status: int, id: Option<int>) | PostFailed(failure: Failure)

  /**
   * The folders of a parent listed page after page, concatenated; `complete` is false
   * when an exception stopped the listing after the folders in `items`.
   */
  datatype Listing = Listing(items: seq<(string, int)>, complete: bool)

  datatype Network = Network(post: nat -> PostOutcome, listing: nat -> Listing)

  /** Everything the creator keeps between calls, and the requests sent so far. */
  datatype Folders = Folders(
    caches: Caches,
    hierarchies: map<(string, string), int>,
    errors: seq<FolderError>,
    requests: seq<FolderRequest>)

  /** The requests of `s1` are the first requests of `s2`. */
  predicate SentBefore(s1: Folders, s2: Folders)
  {
    |s1.requests| <= |s2.requests| && s2.requests[..|s1.requests|] == s1.requests
  }

  /** `s2` is `s1` with more requests sent and the hierarchy cache untouched. */
  predicate Extends(s1: Folders, s2: Folders)
  {
    SentBefore(s1, s2) && s2.hierarchies == s1.hierarchies
  }

  lemma ExtendsRefl(s: Folders)
    ensures Extends(s, s)
  {
    assert s.requests[..|s.requests|] == s.requests;
  }

  lemma ExtendsTrans(s1: Folders, s2: Folders, s3: Folders)
    requires Extends(s1, s2) && Extends(s2, s3)
    ensures Extends(s1, s3)
  {
    assert s3.requests[..|s1.requests|] == s3.requests[..|s2.requests|][..|s1.requests|];
  }

  // ---------------------------------------------------------------- listing a parent

  /** The caches after `_cache_folder_id` for each listed folder, in order. */
  function CacheItems(c: Caches, items: seq<(string, int)>, parentId: int, folderType: string): Caches
  {
    if items == [] then c
    else
      var last := items[|items| - 1];
      CacheFolder(CacheItems(c, items[..|items| - 1], parentId, folderType), last.0, parentId, folderType, last.1)
  }

  /** `folder_map`: comparison key to ID, a later folder replacing an earlier one with the same key. */
  function ItemMap(items: seq<(string, int)>): map<string, int>
  {
    if items == [] then map[]
    else
      var last := items[|items| - 1];
      ItemMap(items[..|items| - 1])[ComparisonKey(last.0) := last.1]
  }

  /** `_fetch_and_cache_parent_folders`: the parent's folders by comparison key, and the new state. */
  function FetchParent(s: Folders, net: Network, parentId: int, folderType: string): (r: (map<string, int>, Folders))
    ensures Extends(s, r.1)
  {
    if (parentId, folderType) in s.caches.contents then (s.caches.contents[(parentId, folderType)], s)
    else
      var l := net.listing(|s.requests|);
      var sent := s.requests + [List(parentId, folderType)];
      var c := CacheItems(s.caches, l.items, parentId, folderType);
      if l.complete then
        (ItemMap(l.items), s.(caches := c.(contents := c.contents[(parentId, folderType) := ItemMap(l.items)]), requests := sent))
      else (map[], s.(caches := c, requests := sent))
  }

  /** A parent whose contents are cached is not listed again. */
  lemma FetchCached(s: Folders, net: Network, parentId: int, folderType: string)
    requires (parentId, folderType) in s.caches.contents
    ensures FetchParent(s, net, parentId, folderType) == (s.caches.contents[(parentId, folderType)], s)
  {
  }

  /** Every folder of a listing can be found afterwards by its comparison key. */
  lemma {:induction false} CacheItemsFinds(c: Caches, items: seq<(string, int)>, parentId: int, folderType: string, key: string)
    requires key in ItemMap(items)
    ensures key in Contents(CacheItems(c, items, parentId, folderType), parentId, folderType)
    ensures Contents(CacheItems(c, items, parentId, folderType), parentId, folderType)[key] == ItemMap(items)[key]
  {
    if items != [] {
      var last := items[|items| - 1];
      if ComparisonKey(last.0) != key {
        CacheItemsFinds(c, items[..|items| - 1], parentId, folderType, key);
      }
    }
  }

  // ---------------------------------------------------------------- creating one folder

  /** `create_attempt` as seen by the retry loop: a 200 or 201 with a non-zero `id` is a success. */
  function CreateAttempt(o: PostOutcome): Attempt<int>
  {
    match o
    case Response(status, id) =>
      if (status == 200 || status == 201) && id.Some? && id.value != 0 then Ok(id.value) else Fail(OtherError)
    case PostFailed(f) => Fail(f)
  }

  /** The k-th attempt of a creation whose first request is the `first`-th of the run. */
  function Attempts(net: Network, first: nat): nat -> Attempt<int>
  {
    (k: nat) => CreateAttempt(net.post(first + k))
  }

  function Posts(name: string, parentId: int, folderType: string, n: nat): (r: seq<FolderRequest>)
    ensures |r| == n && forall i :: 0 <= i < n ==> r[i] == Post(name, parentId, folderType)
  {
    seq(n, _ => Post(name, parentId, folderType))
  }

  /** One more attempt sends one more creation request. */
  lemma PostsStep(sent: seq<FolderRequest>, name: string, parentId: int, folderType: string, k: nat)
    ensures sent + Posts(name, parentId, folderType, k) + [Post(name, parentId, folderType)] ==
      sent + Posts(name, parentId, folderType, k + 1)
  {
    assert Posts(name, parentId, folderType, k) + [Post(name, parentId, folderType)] == Posts(name, parentId, folderType, k + 1);
  }

  /** `error_msg` of a refused creation; the JSON body is not part of the model. */
  function HttpErrorMessage(status: int): string
  {
    "HTTP " + IntToString(status)
  }

  /** `create_folder`'s message once every attempt failed; the traceback is not part of the model. */
  const CreateErrorMessage: string := "Erro"

  /** The log after the first `n` attempts, each refused answer recorded by `create_attempt`. */
  function AttemptErrors(errors: seq<FolderError>, net: Network, first: nat, n: nat,
                         name: string, parentId: int, folderType: string, hierarchy: seq<string>, now: string): seq<FolderError>
  {
    if n == 0 then errors
    else
      var before := AttemptErrors(errors, net, first, n - 1, name, parentId, folderType, hierarchy, now);
      var o := net.post(first + n - 1);
      if o.Response? && CreateAttempt(o).Fail? then
        AddedError(before, NewError(name, folderType, parentId, hierarchy, HttpErrorMessage(o.status), now))
      else before
  }

  /**
   * `create_folder` with the one-argument `normalize_folder_name(title)`: an empty name
   * gives 0; a cached non-zero ID is returned; otherwise up to three creation attempts,
   * and the new folder is cached. A run that ends in `None` yields 0, as every caller
   * only tests the result for truth.
   */
  function NewFolder(s: Folders, net: Network, title: string, parentId: int, folderType: string,
                     hierarchy: seq<string>, now: string): (r: (int, Folders))
    ensures Extends(s, r.1)
  {
    ExtendsRefl(s);
    var name := FolderNameValidator.NormalizeFolderName(title);
    if name == [] then (0, s)
    else
      var cached := Lookup(s.caches, name, parentId, folderType);
      if cached.Some? && cached.value != 0 then (cached.value, s)
      else Created(s, net, name, parentId, folderType, hierarchy, now)
  }

  /** The creation request for a normalised name, retried up to three times. */
  function Created(s: Folders, net: Network, name: string, parentId: int, folderType: string,
                   hierarchy: seq<string>, now: string): (r: (int, Folders))
    ensures Extends(s, r.1)
  {
    var first := |s.requests|;
    var run := RetryFrom(Attempts(net, first), 3, Exponential, 0);
    var posted := Posted(s, net, first, run.attempts, name, parentId, folderType, hierarchy, now);
    var r := Finished(posted, run.result, name, parentId, folderType, hierarchy, now);
    ExtendsTrans(s, posted, r.1);
    r
  }

  /** The state after `n` creation attempts from request `first`: their requests and the refused answers logged. */
  function Posted(s: Folders, net: Network, first: nat, n: nat, name: string, parentId: int, folderType: string,
                  hierarchy: seq<string>, now: string): (r: Folders)
    requires first == |s.requests|
    ensures Extends(s, r)
  {
    assert (s.requests + Posts(name, parentId, folderType, n))[..first] == s.requests;
    s.(requests := s.requests + Posts(name, parentId, folderType, n),
       errors := AttemptErrors(s.errors, net, first, n, name, parentId, folderType, hierarchy, now))
  }

  /** The end of `create_folder` once the retry loop has answered: cache the new ID or log the failure. */
  function Finished(s: Folders, result: Retried<int>, name: string, parentId: int, folderType: string,
                    hierarchy: seq<string>, now: string): (r: (int, Folders))
    ensures Extends(s, r.1)
  {
    match result
    case Returned(id) => (id, s.(caches := CacheFolder(s.caches, name, parentId, folderType, id)))
    case Raised(_) =>
      (0, s.(errors := AddedError(s.errors, NewError(name, folderType, parentId, hierarchy, CreateErrorMessage, now))))
    case ReturnedNone => (0, s)
  }

  /**
   * `ensure_folder_exists` with the one-argument `normalize_folder_name(title)`: the
   * caches first; a folder already known to be missing is created straight away;
   * otherwise the parent's folders are listed once and the folder created only when the
   * listing lacks it.
   */
  function EnsuredFolder(s: Folders, net: Network, title: string, parentId: int, folderType: string, now: string): (r: (int, Folders))
    ensures Extends(s, r.1)
  {
    ExtendsRefl(s);
    var name := FolderNameValidator.NormalizeFolderName(title);
    var cached := Lookup(s.caches, name, parentId, folderType);
    if cached.Some? && cached.value != 0 then (cached.value, s)
    else Uncached(s, net, name, parentId, folderType, now)
  }

  /** `ensure_folder_exists` past the cache lookup, for the normalised name. */
  function Uncached(s: Folders, net: Network, name: string, parentId: int, folderType: string, now: string): (r: (int, Folders))
    ensures Extends(s, r.1)
  {
    var key := ComparisonKey(name);
    if (parentId, folderType, key) in s.caches.existence then NewFolder(s, net, name, parentId, folderType, [], now)
    else
      var fetched := FetchParent(s, net, parentId, folderType);
      if key in fetched.0 then (fetched.0[key], fetched.1)
      else
        var r := CreateMissing(fetched.1, net, name, parentId, folderType, now);
        ExtendsTrans(s, fetched.1, r.1);
        r
  }

  /** A folder the listing lacks is marked as missing, then created. */
  function CreateMissing(s: Folders, net: Network, name: string, parentId: int, folderType: string, now: string): (r: (int, Folders))
    ensures Extends(s, r.1)
  {
    ExtendsRefl(s);
    var key := ComparisonKey(name);
    var marked := s.(caches := s.caches.(existence := s.caches.existence + {(parentId, folderType, key)}));
    var r := NewFolder(marked, net, name, parentId, folderType, [], now);
    ExtendsTrans(s, marked, r.1);
    r
  }

  /** A cache hit is answered without any request and without changing anything. */
  lemma EnsuredFromCache(s: Folders, net: Network, title: string, parentId: int, folderType: string, now: string)
    requires Lookup(s.caches, FolderNameValidator.NormalizeFolderName(title), parentId, folderType).Some?
    requires Lookup(s.caches, FolderNameValidator.NormalizeFolderName(title), parentId, folderType).value != 0
    ensures EnsuredFolder(s, net, title, parentId, folderType, now) ==
      (Lookup(s.caches, FolderNameValidator.NormalizeFolderName(title), parentId, folderType).value, s)
  {
  }

  // ---------------------------------------------------------------- the hierarchy walk

  /** `'>'.join` of the comparison keys of the levels: the key of a whole path. */
  function PathKey(levels: seq<string>): string
  {
    Join(seq(|levels|, i requires 0 <= i < |levels| => ComparisonKey(levels[i])), ">")
  }

  /** The end of a walk down the levels: the last parent reached, whether a level failed, and the state. */
  datatype Walked = Walked(parentId: int, failed: bool, state: Folders)

  /** The level loop of `create_folder_hierarchy` from level `i` on, under `parentId`. */
  function WalkFolders(s: Folders, net: Network, levels: seq<string>, i: nat, parentId: int, folderType: string, now: string): (w: Walked)
    requires i <= |levels|
    ensures Extends(s, w.state)
    ensures !w.failed && i < |levels| ==> w.parentId != 0
    decreases |levels| - i
  {
    if i == |levels| then Walked(parentId, false, s)
    else
      var step := EnsuredFolder(s, net, levels[i], parentId, folderType, now);
      if step.0 != 0 then
        var w := WalkFolders(step.1, net, levels, i + 1, step.0, folderType, now);
        ExtendsTrans(s, step.1, w.state);
        w
      else Walked(parentId, true, step.1)
  }

  /** The final folder is wanted when there are no levels or the last level's key differs from the title's. */
  predicate WantsFinal(levels: seq<string>, finalTitle: string)
  {
    levels == [] || ComparisonKey(levels[|levels| - 1]) != ComparisonKey(finalTitle)
  }

  /** The final-folder step: its ID when it was ensured, else the parent reached by the levels. */
  function FinalFolder(s: Folders, net: Network, levels: seq<string>, finalTitle: string, parentId: int,
                       folderType: string, now: string): (r: (int, Folders))
    ensures Extends(s, r.1)
    ensures !WantsFinal(levels, finalTitle) ==> r == (parentId, s)
    ensures r.0 == parentId || r.0 != 0
  {
    if WantsFinal(levels, finalTitle) then
      var f := EnsuredFolder(s, net, finalTitle, parentId, folderType, now);
      if f.0 != 0 then f else (parentId, f.1)
    else (parentId, s)
  }

  /**
   * `create_folder_hierarchy` with the one-argument `normalize_folder_name(title)`: the
   * `raiz` levels dropped; 0 with nothing to create; a remembered path reused, otherwise
   * each level ensured under the previous one, 0 at the first failure, and the path
   * remembered; then the final folder.
   */
  function FolderHierarchy(s: Folders, net: Network, hierarchy: seq<string>, finalTitle: string,
                           folderType: string, now: string): (r: (int, Folders))
    ensures SentBefore(s, r.1)
    ensures PageCreator.WithoutRoot(hierarchy) == [] && finalTitle == [] ==> r == (0, s)
    ensures var levels := PageCreator.WithoutRoot(hierarchy);
      levels != [] && (PathKey(levels), folderType) in s.hierarchies ==>
        r == FinalFolder(s, net, levels, finalTitle, s.hierarchies[(PathKey(levels), folderType)], folderType, now)
    ensures var levels := PageCreator.WithoutRoot(hierarchy);
      levels != [] && (PathKey(levels), folderType) !in s.hierarchies &&
      WalkFolders(s, net, levels, 0, 0, folderType, now).failed ==>
        r == (0, WalkFolders(s, net, levels, 0, 0, folderType, now).state)
  {
    var levels := PageCreator.WithoutRoot(hierarchy);
    if levels == [] && finalTitle == [] then (0, s)
    else if levels == [] then FinalFolder(s, net, levels, finalTitle, 0, folderType, now)
    else
      var key := (PathKey(levels), folderType);
      if key in s.hierarchies then FinalFolder(s, net, levels, finalTitle, s.hierarchies[key], folderType, now)
      else
        var w := WalkFolders(s, net, levels, 0, 0, folderType, now);
        if w.failed then (0, w.state)
        else
          var remembered := w.state.(hierarchies := w.state.hierarchies[key := w.parentId]);
          var r := FinalFolder(remembered, net, levels, finalTitle, w.parentId, folderType, now);
          assert SentBefore(s, remembered);
          r
  }

  /** A path walked to the end is remembered with the last level's ID. */
  lemma HierarchyRemembersPath(s: Folders, net: Network, hierarchy: seq<string>, finalTitle: string, folderType: string, now: string)
    requires PageCreator.WithoutRoot(hierarchy) != []
    requires (PathKey(PageCreator.WithoutRoot(hierarchy)), folderType) !in s.hierarchies
    requires !WalkFolders(s, net, PageCreator.WithoutRoot(hierarchy), 0, 0, folderType, now).failed
    ensures var key := (PathKey(PageCreator.WithoutRoot(hierarchy)), folderType);
      var r := FolderHierarchy(s, net, hierarchy, finalTitle, folderType, now);
      key in r.1.hierarchies &&
      r.1.hierarchies[key] == WalkFolders(s, net, PageCreator.WithoutRoot(hierarchy), 0, 0, folderType, now).parentId
  {
  }

  /**
   * Asking again for a hierarchy whose levels were all ensured sends no request for the
   * levels: the remembered ID is the parent of the final step.
   */
  lemma HierarchyAgain(s: Folders, net: Network, hierarchy: seq<string>, finalTitle: string, folderType: string, now: string,
                       net2: Network, finalTitle2: string, now2: string)
    requires PageCreator.WithoutRoot(hierarchy) != []
    requires (PathKey(PageCreator.WithoutRoot(hierarchy)), folderType) !in s.hierarchies
    requires !WalkFolders(s, net, PageCreator.WithoutRoot(hierarchy), 0, 0, folderType, now).failed
    ensures var levels := PageCreator.WithoutRoot(hierarchy);
      var first := FolderHierarchy(s, net, hierarchy, finalTitle, folderType, now);
      FolderHierarchy(first.1, net2, hierarchy, finalTitle2, folderType, now2) ==
        FinalFolder(first.1, net2, levels, finalTitle2,
                    WalkFolders(s, net, levels, 0, 0, folderType, now).parentId, folderType, now2)
  {
    HierarchyRemembersPath(s, net, hierarchy, finalTitle, folderType, now);
  }

  // ---------------------------------------------------------------- the code as written

  /** The result of a call that may raise `TypeError` before its body runs. */
  datatype Called<T> = Value(value: T) | TypeError

  /**
   * `normalize_folder_name(title, None, folder_type)`: the function takes one parameter,
   * so Python rejects the call with `TypeError` before anything is normalised.
   */
  function NormalizeFolderNameAsCalled(title: string, folderType: string): Called<string>
  {
    TypeError
  }

  /**
   * `create_folder_hierarchy` as written. With something to create, the first
   * normalisation reached is the three-argument call inside `ensure_folder_exists` for
   * the first level, or the one before the final folder when there are no levels or the
   * path is remembered; its `TypeError` is caught by the handler around the whole body,
   * which returns 0, and nothing has been changed by then.
   */
  function FolderHierarchyAsWritten(s: Folders, net: Network, hierarchy: seq<string>, finalTitle: string,
                                    folderType: string, now: string): (r: (int, Folders))
  {
    var levels := PageCreator.WithoutRoot(hierarchy);
    if levels == [] && finalTitle == [] then (0, s)
    else
      var first := if levels != [] && (PathKey(levels), folderType) !in s.hierarchies then levels[0] else finalTitle;
      if NormalizeFolderNameAsCalled(first, folderType).TypeError? then (0, s)
      else FolderHierarchy(s, net, hierarchy, finalTitle, folderType, now)
  }

  /** As written, every call returns 0 and changes nothing. */
  lemma FolderHierarchyAsWrittenFails(s: Folders, net: Network, hierarchy: seq<string>, finalTitle: string,
                                      folderType: string, now: string)
    ensures FolderHierarchyAsWritten(s, net, hierarchy, finalTitle, folderType, now) == (0, s)
  {
  }

  /**
   * The input that shows the defect: no levels and a final folder already cached under
   * the site root. The corrected walk answers with the cached ID; the code as written
   * answers 0.
   */
  lemma ArityDefectShown(s: Folders, net: Network, finalTitle: string, folderType: string, now: string, v: int)
    requires finalTitle != [] && v != 0
    requires Lookup(s.caches, FolderNameValidator.NormalizeFolderName(finalTitle), 0, folderType) == Some(v)
    ensures FolderHierarchy(s, net, [], finalTitle, folderType, now) == (v, s)
    ensures FolderHierarchyAsWritten(s, net, [], finalTitle, folderType, now) == (0, s)
  {
    assert PageCreator.WithoutRoot([]) == [];
    EnsuredFromCache(s, net, finalTitle, 0, folderType, now);
  }

  // ---------------------------------------------------------------- the retry pass

  /** The entry as it is after `error.retry_count += 1`. */
  function Bumped(e: FolderError): FolderError
  {
    e.(retryCount := e.retryCount + 1)
  }

  /** The titles recreated and the entries kept for a later pass. */
  datatype RetryPass = RetryPass(successful: seq<string>, remaining: seq<FolderError>)

  /**
   * `retry_failed_folders` over `errors`: `succeeded(e)` is what `_retry_create_folder`
   * reports for the entry `e` after its count was raised.
   */
  function RetryRound(errors: seq<FolderError>, succeeded: FolderError -> bool): RetryPass
  {
    if errors == [] then RetryPass([], [])
    else
      var p := RetryRound(errors[..|errors| - 1], succeeded);
      var e := errors[|errors| - 1];
      if e.retryCount >= 3 then p
      else if succeeded(Bumped(e)) then p.(successful := p.successful + [e.title])
      else if Bumped(e).retryCount < 3 then p.(remaining := p.remaining + [Bumped(e)])
      else p
  }

  /**
   * An entry is kept exactly when it had been tried fewer than two times and the new
   * attempt failed; it is kept with its raised count.
   */
  lemma {:induction false} RetryRoundRemaining(errors: seq<FolderError>, succeeded: FolderError -> bool, x: FolderError)
    ensures x in RetryRound(errors, succeeded).remaining <==>
      exists i :: 0 <= i < |errors| && errors[i].retryCount < 2 && x == Bumped(errors[i]) && !succeeded(Bumped(errors[i]))
  {
    if errors != [] {
      var init := errors[..|errors| - 1];
      RetryRoundRemaining(init, succeeded, x);
      forall i | 0 <= i < |init| ensures init[i] == errors[i] { }
    }
  }

  /** A title is reported recreated exactly when one of its entries, tried fewer than three times, succeeded. */
  lemma {:induction false} RetryRoundSuccessful(errors: seq<FolderError>, succeeded: FolderError -> bool, t: string)
    ensures t in RetryRound(errors, succeeded).successful <==>
      exists i :: 0 <= i < |errors| && errors[i].retryCount < 3 && succeeded(Bumped(errors[i])) && errors[i].title == t
  {
    if errors != [] {
      var init := errors[..|errors| - 1];
      RetryRoundSuccessful(init, succeeded, t);
      forall i | 0 <= i < |init| ensures init[i] == errors[i] { }
    }
  }

  /** Every entry kept is below the limit of three tries, and no entry yields more than one outcome. */
  lemma {:induction false} RetryRoundBounds(errors: seq<FolderError>, succeeded: FolderError -> bool)
    ensures forall r :: r in RetryRound(errors, succeeded).remaining ==> r.retryCount < 3
    ensures |RetryRound(errors, succeeded).successful| + |RetryRound(errors, succeeded).remaining| <= |errors|
  {
    if errors != [] {
      RetryRoundBounds(errors[..|errors| - 1], succeeded);
    }
  }

  /**
   * `retry_failed_folders` as written: `_retry_create_folder` calls `create_folder`,
   * whose three-argument normalisation raises `TypeError`; the handler turns it into a
   * failed attempt.
   */
  function RetryRoundAsWritten(errors: seq<FolderError>): RetryPass
  {
    RetryRound(errors, _ => false)
  }

  /** As written, no folder is ever recreated, and only entries tried fewer than two times survive. */
  lemma RetryRoundAsWrittenFails(errors: seq<FolderError>, x: FolderError)
    ensures RetryRoundAsWritten(errors).successful == []
    ensures x in RetryRoundAsWritten(errors).remaining <==>
      exists i :: 0 <= i < |errors| && errors[i].retryCount < 2 && x == Bumped(errors[i])
  {
    RetryRoundRemaining(errors, _ => false, x);
    if RetryRoundAsWritten(errors).successful != [] {
      var t := RetryRoundAsWritten(errors).successful[0];
      RetryRoundSuccessful(errors, _ => false, t);
    }
  }

  // ---------------------------------------------------------------- the creator object

  /** Cache entries for the folders listed so far, and the map built from them. */
  lemma CacheItemsStep(c: Caches, items: seq<(string, int)>, i: nat, parentId: int, folderType: string)
    requires i < |items|
    ensures CacheItems(c, items[..i + 1], parentId, folderType) ==
      CacheFolder(CacheItems(c, items[..i], parentId, folderType), items[i].0, parentId, folderType, items[i].1)
    ensures ItemMap(items[..i + 1]) == ItemMap(items[..i])[ComparisonKey(items[i].0) := items[i].1]
  {
    assert items[..i + 1][..i] == items[..i];
  }

  /** The log after attempt `n` records that attempt's refused answer, if it was one. */
  lemma AttemptErrorsStep(errors: seq<FolderError>, net: Network, first: nat, n: nat,
                          name: string, parentId: int, folderType: string, hierarchy: seq<string>, now: string)
    ensures var o := net.post(first + n);
      var before := AttemptErrors(errors, net, first, n, name, parentId, folderType, hierarchy, now);
      AttemptErrors(errors, net, first, n + 1, name, parentId, folderType, hierarchy, now) ==
        if o.Response? && CreateAttempt(o).Fail? then
          AddedError(before, NewError(name, folderType, parentId, hierarchy, HttpErrorMessage(o.status), now))
        else before
  {
  }

  class FolderCreatorState {
    var folderCache: map<(string, int, string), int>
    var comparisonCache: map<(string, int, string), int>
    var existenceCache: set<(int, string, string)>
    var parentContentsCache: map<(int, string), map<string, int>>
    var hierarchyCache: map<(string, string), int>
    /** The requests sent, in order. */
    var requests: seq<FolderRequest>
    const errorProcessor: FolderErrorProcessor

    function State(): Folders
      reads this, errorProcessor
    {
      Folders(Caches(folderCache, comparisonCache, existenceCache, parentContentsCache),
              hierarchyCache, errorProcessor.errors, requests)
    }

    constructor ()
      ensures State() == Folders(Caches(map[], map[], {}, map[]), map[], [], [])
      ensures fresh(errorProcessor)
    {
      folderCache, comparisonCache, existenceCache, parentContentsCache := map[], map[], {}, map[];
      hierarchyCache, requests := map[], [];
      errorProcessor := new FolderErrorProcessor();
    }

    /** `_cache_folder_id`: the four caches learn the folder. */
    method CacheFolderId(title: string, parentId: int, folderType: string, folderId: int)
      modifies this
      ensures State() == old(State()).(caches := CacheFolder(old(State()).caches, title, parentId, folderType, folderId))
    {
      var key := ComparisonKey(title);
      folderCache := folderCache[(title, parentId, folderType) := folderId];
      comparisonCache := comparisonCache[(key, parentId, folderType) := folderId];
      existenceCache := existenceCache + {(parentId, folderType, key)};
      var known := if (parentId, folderType) in parentContentsCache then parentContentsCache[(parentId, folderType)] else map[];
      parentContentsCache := parentContentsCache[(parentId, folderType) := known[key := folderId]];
    }

    /** `_get_cached_folder_id`. */
    method GetCachedFolderId(title: string, parentId: int, folderType: string) returns (r: Option<int>)
      ensures r == Lookup(State().caches, title, parentId, folderType)
    {
      if (title, parentId, folderType) in folderCache {
        return Some(folderCache[(title, parentId, folderType)]);
      }
      var key := ComparisonKey(title);
      if (key, parentId, folderType) in comparisonCache {
        return Some(comparisonCache[(key, parentId, folderType)]);
      }
      if (parentId, folderType) in parentContentsCache && key in parentContentsCache[(parentId, folderType)] {
        return Some(parentContentsCache[(parentId, folderType)][key]);
      }
      return None;
    }

    /** `_fetch_and_cache_parent_folders`: each listed folder is cached as it arrives. */
    method FetchAndCacheParentFolders(net: Network, parentId: int, folderType: string) returns (folderMap: map<string, int>)
      modifies this
      ensures (folderMap, State()) == FetchParent(old(State()), net, parentId, folderType)
    {
      if (parentId, folderType) in parentContentsCache {
        return parentContentsCache[(parentId, folderType)];
      }
      var listing := net.listing(|requests|);
      requests := requests + [List(parentId, folderType)];
      ghost var c0 := State().caches;
      folderMap := map[];
      for i := 0 to |listing.items|
        invariant State().caches == CacheItems(c0, listing.items[..i], parentId, folderType)
        invariant folderMap == ItemMap(listing.items[..i])
        invariant requests == old(requests) + [List(parentId, folderType)]
        invariant hierarchyCache == old(hierarchyCache)
      {
        var item := listing.items[i];
        CacheItemsStep(c0, listing.items, i, parentId, folderType);
        CacheFolderId(item.0, parentId, folderType, item.1);
        folderMap := folderMap[ComparisonKey(item.0) := item.1];
      }
      assert listing.items[..|listing.items|] == listing.items;
      if listing.complete {
        parentContentsCache := parentContentsCache[(parentId, folderType) := folderMap];
      } else {
        folderMap := map[];
      }
    }

    /**
     * `create_folder` with the one-argument normalisation. The retry loop runs first;
     * each attempt it made sent one request, and each refused answer was logged: those
     * effects are replayed after it, which changes nothing because no attempt's answer
     * depends on them.
     */
    method CreateFolder(net: Network, title: string, parentId: int, folderType: string,
                        hierarchy: seq<string>, now: string) returns (id: int)
      modifies this, errorProcessor
      ensures (id, State()) == NewFolder(old(State()), net, title, parentId, folderType, hierarchy, now)
    {
      var name := FolderNameValidator.NormalizeFolderName(title);
      if name == [] {
        return 0;
      }
      var cached := GetCachedFolderId(name, parentId, folderType);
      if cached.Some? && cached.value != 0 {
        return cached.value;
      }
      id := CreateNamed(net, name, parentId, folderType, hierarchy, now);
    }

    /** The retried creation request of `create_folder`, its log entries and the caching of its answer. */
    method CreateNamed(net: Network, name: string, parentId: int, folderType: string,
                       hierarchy: seq<string>, now: string) returns (id: int)
      modifies this, errorProcessor
      ensures (id, State()) == Created(old(State()), net, name, parentId, folderType, hierarchy, now)
    {
      var first := |requests|;
      var run := RetryOperation(Attempts(net, first), 3, Exponential);
      RecordAttempts(net, first, run.attempts, name, parentId, folderType, hierarchy, now);
      id := FinishCreate(run.result, name, parentId, folderType, hierarchy, now);
    }

    /** The end of `create_folder` after the retry loop. */
    method FinishCreate(result: Retried<int>, name: string, parentId: int, folderType: string,
                        hierarchy: seq<string>, now: string) returns (id: int)
      modifies this, errorProcessor
      ensures (id, State()) == Finished(old(State()), result, name, parentId, folderType, hierarchy, now)
    {
      match result {
        case Returned(v) =>
          CacheFolderId(name, parentId, folderType, v);
          id := v;
        case Raised(_) =>
          errorProcessor.AddError(NewError(name, folderType, parentId, hierarchy, CreateErrorMessage, now));
          id := 0;
        case ReturnedNone =>
          id := 0;
      }
    }

    /** The effects of the first `n` creation attempts: one request each, and a log entry for each refused answer. */
    method RecordAttempts(net: Network, first: nat, n: nat, name: string, parentId: int, folderType: string,
                          hierarchy: seq<string>, now: string)
      modifies this, errorProcessor
      requires first == |requests|
      ensures State() == Posted(old(State()), net, first, n, name, parentId, folderType, hierarchy, now)
    {
      ghost var s0 := State();
      for k := 0 to n
        invariant requests == s0.requests + Posts(name, parentId, folderType, k)
        invariant errorProcessor.errors == AttemptErrors(s0.errors, net, first, k, name, parentId, folderType, hierarchy, now)
        invariant State().caches == s0.caches && hierarchyCache == s0.hierarchies
      {
        PostsStep(s0.requests, name, parentId, folderType, k);
        requests := requests + [Post(name, parentId, folderType)];
        AttemptErrorsStep(s0.errors, net, first, k, name, parentId, folderType, hierarchy, now);
        var o := net.post(first + k);
        if o.Response? && CreateAttempt(o).Fail? {
          errorProcessor.AddError(NewError(name, folderType, parentId, hierarchy, HttpErrorMessage(o.status), now));
        }
      }
    }

    /** `ensure_folder_exists` with the one-argument normalisation. */
    method EnsureFolderExists(net: Network, title: string, parentId: int, folderType: string, now: string) returns (id: int)
      modifies this, errorProcessor
      ensures (id, State()) == EnsuredFolder(old(State()), net, title, parentId, folderType, now)
    {
      var name := FolderNameValidator.NormalizeFolderName(title);
      var cached := GetCachedFolderId(name, parentId, folderType);
      if cached.Some? && cached.value != 0 {
        return cached.value;
      }
      id := EnsureUncached(net, name, parentId, folderType, now);
    }

    /** `ensure_folder_exists` past the cache lookup. */
    method EnsureUncached(net: Network, name: string, parentId: int, folderType: string, now: string) returns (id: int)
      modifies this, errorProcessor
      ensures (id, State()) == Uncached(old(State()), net, name, parentId, folderType, now)
    {
      var key := ComparisonKey(name);
      if (parentId, folderType, key) in existenceCache {
        id := CreateFolder(net, name, parentId, folderType, [], now);
        return;
      }
      var parentFolders := FetchAndCacheParentFolders(net, parentId, folderType);
      if key in parentFolders {
        return parentFolders[key];
      }
      existenceCache := existenceCache + {(parentId, folderType, key)};
      id := CreateFolder(net, name, parentId, folderType, [], now);
    }

    /** The final step of `create_folder_hierarchy`. */
    method CreateFinalFolder(net: Network, levels: seq<string>, finalTitle: string, parentId: int,
                             folderType: string, now: string) returns (id: int)
      modifies this, errorProcessor
      ensures (id, State()) == FinalFolder(old(State()), net, levels, finalTitle, parentId, folderType, now)
    {
      id := parentId;
      if levels == [] || ComparisonKey(levels[|levels| - 1]) != ComparisonKey(finalTitle) {
        var finalId := EnsureFolderExists(net, finalTitle, parentId, folderType, now);
        if finalId != 0 {
          id := finalId;
        }
      }
    }

    /** `create_folder_hierarchy` with the one-argument normalisation. */
    method CreateFolderHierarchy(net: Network, hierarchy: seq<string>, finalTitle: string,
                                 folderType: string, now: string) returns (id: int)
      modifies this, errorProcessor
      ensures (id, State()) == FolderHierarchy(old(State()), net, hierarchy, finalTitle, folderType, now)
    {
      var levels := PageCreator.WithoutRoot(hierarchy);
      if levels == [] && finalTitle == [] {
        return 0;
      }
      var currentParentId := 0;
      if levels != [] {
        var key := (PathKey(levels), folderType);
        if key in hierarchyCache {
          currentParentId := hierarchyCache[key];
        } else {
          for i := 0 to |levels|
            invariant WalkFolders(State(), net, levels, i, currentParentId, folderType, now) ==
              WalkFolders(old(State()), net, levels, 0, 0, folderType, now)
          {
            var folderId := EnsureFolderExists(net, levels[i], currentParentId, folderType, now);
            if folderId != 0 {
              currentParentId := folderId;
            } else {
              return 0;
            }
          }
          hierarchyCache := hierarchyCache[key := currentParentId];
        }
      }
      id := CreateFinalFolder(net, levels, finalTitle, currentParentId, folderType, now);
    }

    /**
     * `retry_failed_folders`: `succeeded(e)` is the outcome of recreating entry `e` after
     * its count was raised. The log keeps only the entries to try again; the titles
     * recreated are returned. Only the log changes here: the caches and requests of the
     * retried `create_folder` are left to `succeeded`, and as written that call raises
     * before it touches either (`RetryRoundAsWritten`).
     */
    method RetryFailedFolders(succeeded: FolderError -> bool) returns (successful: seq<string>)
      modifies errorProcessor
      ensures errorProcessor.errors == RetryRound(old(errorProcessor.errors), succeeded).remaining
      ensures successful == RetryRound(old(errorProcessor.errors), succeeded).successful
    {
      var failedFolders := errorProcessor.GetFailedFolders();
      var remaining: seq<FolderError> := [];
      successful := [];
      for i := 0 to |failedFolders|
        invariant RetryPass(successful, remaining) == RetryRound(failedFolders[..i], succeeded)
      {
        assert failedFolders[..i + 1][..i] == failedFolders[..i];
        var error := failedFolders[i];
        if error.retryCount >= 3 {
          continue;
        }
        error := error.(retryCount := error.retryCount + 1);
        if succeeded(error) {
          successful := successful + [error.title];
        } else if error.retryCount < 3 {
          remaining := remaining + [error];
        }
      }
      assert failedFolders[..|failedFolders|] == failedFolders;
      errorProcessor.errors := remaining;
    }
  }
}
