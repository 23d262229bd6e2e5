/**
 * `DocumentCache`: the documents the migration has handled. A URL may be mapped to
 * `None`, which the document creator does to claim a URL before downloading it. Every
 * URL marked as failed is also marked as processed.
 *
 * The cache's contents are the value `CacheState`; the class changes its fields exactly as
 * the functions on `CacheState` say, and those functions carry the cache's properties.
 */
module DocumentCache {
  import opened Wrappers

  /** What the document creator stores for a file name: the document's ID and its URL. */
  datatype DocRecord = DocRecord(id: int, contentUrl: string)

  datatype CacheState = CacheState(
    urlMapping: map<string, Option<string>>,
    filenameMapping: map<string, DocRecord>,
    processedUrls: set<string>,
    failedUrls: set<string>)

  const EmptyCache := CacheState(map[], map[], {}, {})

  /** Every failed URL has been processed. */
  predicate ValidCache(c: CacheState)
  {
    c.failedUrls <= c.processedUrls
  }

  /** `get_by_url`: `None` both for an unseen URL and for one mapped to `None`. */
  function ByUrl(c: CacheState, url: string): Option<string>
  {
    if url in c.urlMapping then c.urlMapping[url] else None
  }

  /** `get_by_filename`. */
  function ByFilename(c: CacheState, filename: string): Option<DocRecord>
  {
    if filename in c.filenameMapping then Some(c.filenameMapping[filename]) else None
  }

  /** `add_url_mapping`: the URL maps to `liferayUrl`, even `None`, and counts as processed. */
  function WithUrlMapping(c: CacheState, originalUrl: string, liferayUrl: Option<string>): (r: CacheState)
    ensures ByUrl(r, originalUrl) == liferayUrl && originalUrl in r.processedUrls
    ensures forall u :: u != originalUrl ==> ByUrl(r, u) == ByUrl(c, u)
    ensures r.processedUrls == c.processedUrls + {originalUrl}
    ensures r.failedUrls == c.failedUrls && r.filenameMapping == c.filenameMapping
    ensures ValidCache(c) ==> ValidCache(r)
  {
    c.(urlMapping := c.urlMapping[originalUrl := liferayUrl], processedUrls := c.processedUrls + {originalUrl})
  }

  /** `add_filename_mapping`: the last record stored for a name wins. */
  function WithFilenameMapping(c: CacheState, filename: string, doc: DocRecord): (r: CacheState)
    ensures ByFilename(r, filename) == Some(doc)
    ensures forall f :: f != filename ==> ByFilename(r, f) == ByFilename(c, f)
    ensures r.urlMapping == c.urlMapping && r.processedUrls == c.processedUrls && r.failedUrls == c.failedUrls
  {
    c.(filenameMapping := c.filenameMapping[filename := doc])
  }

  /** `mark_failed`: a failed URL is processed too. */
  function WithFailed(c: CacheState, url: string): (r: CacheState)
    ensures url in r.failedUrls && url in r.processedUrls
    ensures r.failedUrls == c.failedUrls + {url} && r.processedUrls == c.processedUrls + {url}
    ensures r.urlMapping == c.urlMapping && r.filenameMapping == c.filenameMapping
    ensures ValidCache(c) ==> ValidCache(r)
  {
    c.(failedUrls := c.failedUrls + {url}, processedUrls := c.processedUrls + {url})
  }

  /** Lookups in a fresh cache find nothing. */
  lemma EmptyCacheFindsNothing(url: string, filename: string)
    ensures ByUrl(EmptyCache, url) == None && ByFilename(EmptyCache, filename) == None
    ensures url !in EmptyCache.processedUrls && url !in EmptyCache.failedUrls
    ensures ValidCache(EmptyCache)
  {
  }

  /** Storing `None` for a URL still claims it: a lookup yields nothing but it is processed. */
  lemma ClaimedUrl(c: CacheState, url: string)
    ensures ByUrl(WithUrlMapping(c, url, None), url) == None
    ensures url in WithUrlMapping(c, url, None).processedUrls
  {
  }

  class DocumentCache {
    var urlMapping: map<string, Option<string>>
    var filenameMapping: map<string, DocRecord>
    var processedUrls: set<string>
    var failedUrls: set<string>

    /** The cache's contents as a value. */
    function Contents(): CacheState
      reads this
    {
      CacheState(urlMapping, filenameMapping, processedUrls, failedUrls)
    }

    ghost predicate Valid()
      reads this
    {
      ValidCache(Contents())
    }

    constructor ()
      ensures Contents() == EmptyCache && Valid()
    {
      urlMapping, filenameMapping, processedUrls, failedUrls := map[], map[], {}, {};
    }

    /** `get_by_url`. */
    function GetByUrl(url: string): Option<string>
      reads this
    {
      ByUrl(Contents(), url)
    }

    /** `get_by_filename`. */
    function GetByFilename(filename: string): Option<DocRecord>
      reads this
    {
      ByFilename(Contents(), filename)
    }

    /** `is_processed`. */
    predicate IsProcessed(url: string)
      reads this
    {
      url in processedUrls
    }

    /** `is_failed`. */
    predicate IsFailed(url: string)
      reads this
    {
      url in failedUrls
    }

    /** `add_url_mapping`. */
    method AddUrlMapping(originalUrl: string, liferayUrl: Option<string>)
      modifies this
      ensures Contents() == WithUrlMapping(old(Contents()), originalUrl, liferayUrl)
      ensures old(Valid()) ==> Valid()
    {
      urlMapping := urlMapping[originalUrl := liferayUrl];
      processedUrls := processedUrls + {originalUrl};
    }

    /** `add_filename_mapping`. */
    method AddFilenameMapping(filename: string, doc: DocRecord)
      modifies this
      ensures Contents() == WithFilenameMapping(old(Contents()), filename, doc)
      ensures old(Valid()) ==> Valid()
    {
      filenameMapping := filenameMapping[filename := doc];
    }

    /** `mark_failed`. */
    method MarkFailed(url: string)
      modifies this
      ensures Contents() == WithFailed(old(Contents()), url)
      ensures old(Valid()) ==> Valid()
    {
      failedUrls := failedUrls + {url};
      processedUrls := processedUrls + {url};
    }
  }
}
