/**
 * `ContentCache`: what the migration has already created or tried, by title, by URL,
 * by hierarchy and by document. Titles of contents and pages are compared in lower case.
 * The invariant the class keeps is that every URL marked as failed is also marked as
 * processed.
 */
module WebContentCache {
  import opened Wrappers
  import opened PyStr

  /** A document's description as stored; `id` is its `'id'` entry when it has one. */
  datatype DocInfo = DocInfo(id: Option<string>, fields: map<string, string>)

  class ContentCache {
    var contentCache: map<string, int>
    var pageCache: map<string, int>
    var urlCache: map<string, string>
    var folderCache: map<seq<string>, int>
    var processedUrls: set<string>
    var failedUrls: set<string>
    var retryCount: map<string, int>
    var filenameCache: map<string, DocInfo>
    var documentCache: map<string, DocInfo>

    /** Every failed URL has been processed. */
    ghost predicate Valid()
      reads this
    {
      failedUrls <= processedUrls
    }

    /** All nine containers start empty. */
    constructor ()
      ensures Valid()
      ensures contentCache == map[] && pageCache == map[] && urlCache == map[] && folderCache == map[]
      ensures processedUrls == {} && failedUrls == {} && retryCount == map[]
      ensures filenameCache == map[] && documentCache == map[]
    {
      contentCache, pageCache, urlCache, folderCache := map[], map[], map[], map[];
      processedUrls, failedUrls, retryCount := {}, {}, map[];
      filenameCache, documentCache := map[], map[];
    }

    /** `get_content`: the ID stored under the lower-cased title. */
    function GetContent(title: string): Option<int>
      reads this
    {
      if Lower(title) in contentCache then Some(contentCache[Lower(title)]) else None
    }

    /** `add_content`: every title equal to this one in lower case now finds `contentId`. */
    method AddContent(title: string, contentId: int)
      modifies this
      requires Valid()
      ensures Valid()
      ensures contentCache == old(contentCache)[Lower(title) := contentId]
      ensures forall t :: Lower(t) == Lower(title) ==> GetContent(t) == Some(contentId)
      ensures forall t :: Lower(t) != Lower(title) ==> GetContent(t) == old(GetContent(t))
      ensures pageCache == old(pageCache) && urlCache == old(urlCache) && folderCache == old(folderCache)
      ensures processedUrls == old(processedUrls) && failedUrls == old(failedUrls) && retryCount == old(retryCount)
      ensures filenameCache == old(filenameCache) && documentCache == old(documentCache)
    {
      contentCache := contentCache[Lower(title) := contentId];
    }

    /** `get_page`: the ID stored under the lower-cased title. */
    function GetPage(title: string): Option<int>
      reads this
    {
      if Lower(title) in pageCache then Some(pageCache[Lower(title)]) else None
    }

    /** `add_page`: every title equal to this one in lower case now finds `pageId`. */
    method AddPage(title: string, pageId: int)
      modifies this
      requires Valid()
      ensures Valid()
      ensures pageCache == old(pageCache)[Lower(title) := pageId]
      ensures forall t :: Lower(t) == Lower(title) ==> GetPage(t) == Some(pageId)
      ensures forall t :: Lower(t) != Lower(title) ==> GetPage(t) == old(GetPage(t))
      ensures contentCache == old(contentCache) && urlCache == old(urlCache) && folderCache == old(folderCache)
      ensures processedUrls == old(processedUrls) && failedUrls == old(failedUrls) && retryCount == old(retryCount)
      ensures filenameCache == old(filenameCache) && documentCache == old(documentCache)
    {
      pageCache := pageCache[Lower(title) := pageId];
    }

    /** `get_url`. */
    function GetUrl(url: string): Option<string>
      reads this
    {
      if url in urlCache then Some(urlCache[url]) else None
    }

    /** `is_processed`. */
    predicate IsProcessed(url: string)
      reads this
    {
      url in processedUrls
    }

    /** `is_failed`. */
    predicate IsFailed(url: string)
      reads this
    {
      url in failedUrls
    }

    /** `add_url`: the URL maps to its migrated form and counts as processed. */
    method AddUrl(originalUrl: string, migratedUrl: string)
      modifies this
      requires Valid()
      ensures Valid()
      ensures urlCache == old(urlCache)[originalUrl := migratedUrl]
      ensures processedUrls == old(processedUrls) + {originalUrl}
      ensures GetUrl(originalUrl) == Some(migratedUrl) && IsProcessed(originalUrl)
      ensures contentCache == old(contentCache) && pageCache == old(pageCache) && folderCache == old(folderCache)
      ensures failedUrls == old(failedUrls) && retryCount == old(retryCount)
      ensures filenameCache == old(filenameCache) && documentCache == old(documentCache)
    {
      urlCache := urlCache[originalUrl := migratedUrl];
      processedUrls := processedUrls + {originalUrl};
    }

    /** `get_folder`. */
    function GetFolder(hierarchyKey: seq<string>): Option<int>
      reads this
    {
      if hierarchyKey in folderCache then Some(folderCache[hierarchyKey]) else None
    }

    /** `add_folder`. */
    method AddFolder(hierarchyKey: seq<string>, folderId: int)
      modifies this
      requires Valid()
      ensures Valid()
      ensures folderCache == old(folderCache)[hierarchyKey := folderId]
      ensures GetFolder(hierarchyKey) == Some(folderId)
      ensures contentCache == old(contentCache) && pageCache == old(pageCache) && urlCache == old(urlCache)
      ensures processedUrls == old(processedUrls) && failedUrls == old(failedUrls) && retryCount == old(retryCount)
      ensures filenameCache == old(filenameCache) && documentCache == old(documentCache)
    {
      folderCache := folderCache[hierarchyKey := folderId];
    }

    /** `get_document_by_filename`. */
    function GetDocumentByFilename(filename: string): Option<DocInfo>
      reads this
    {
      if filename in filenameCache then Some(filenameCache[filename]) else None
    }

    /** `get_document_by_id`. */
    function GetDocumentById(docId: string): Option<DocInfo>
      reads this
    {
      if docId in documentCache then Some(documentCache[docId]) else None
    }

    /** `add_document`: always indexed by file name; by ID only when the description has one. */
    method AddDocument(filename: string, docInfo: DocInfo)
      modifies this
      requires Valid()
      ensures Valid()
      ensures filenameCache == old(filenameCache)[filename := docInfo]
      ensures docInfo.id.Some? ==> documentCache == old(documentCache)[docInfo.id.value := docInfo]
      ensures docInfo.id.None? ==> documentCache == old(documentCache)
      ensures GetDocumentByFilename(filename) == Some(docInfo)
      ensures docInfo.id.Some? ==> GetDocumentById(docInfo.id.value) == Some(docInfo)
      ensures contentCache == old(contentCache) && pageCache == old(pageCache) && urlCache == old(urlCache)
      ensures folderCache == old(folderCache)
      ensures processedUrls == old(processedUrls) && failedUrls == old(failedUrls) && retryCount == old(retryCount)
    {
      filenameCache := filenameCache[filename := docInfo];
      if docInfo.id.Some? {
        documentCache := documentCache[docInfo.id.value := docInfo];
      }
    }

    /** `mark_processed`. */
    method MarkProcessed(url: string)
      modifies this
      requires Valid()
      ensures Valid()
      ensures processedUrls == old(processedUrls) + {url}
      ensures IsProcessed(url)
      ensures contentCache == old(contentCache) && pageCache == old(pageCache) && urlCache == old(urlCache)
      ensures folderCache == old(folderCache) && failedUrls == old(failedUrls) && retryCount == old(retryCount)
      ensures filenameCache == old(filenameCache) && documentCache == old(documentCache)
    {
      processedUrls := processedUrls + {url};
    }

    /** `mark_failed`: a failed URL is processed too. */
    method MarkFailed(url: string)
      modifies this
      requires Valid()
      ensures Valid()
      ensures failedUrls == old(failedUrls) + {url} && processedUrls == old(processedUrls) + {url}
      ensures IsFailed(url) && IsProcessed(url)
      ensures contentCache == old(contentCache) && pageCache == old(pageCache) && urlCache == old(urlCache)
      ensures folderCache == old(folderCache) && retryCount == old(retryCount)
      ensures filenameCache == old(filenameCache) && documentCache == old(documentCache)
    {
      failedUrls := failedUrls + {url};
      processedUrls := processedUrls + {url};
    }

    /** `get_retry_count`: zero for a URL never retried. */
    function GetRetryCount(url: string): int
      reads this
    {
      if url in retryCount then retryCount[url] else 0
    }

    /** `increment_retry`: the previous count plus one, which is also the new count. */
    method IncrementRetry(url: string) returns (count: int)
      modifies this
      requires Valid()
      ensures Valid()
      ensures count == old(GetRetryCount(url)) + 1
      ensures retryCount == old(retryCount)[url := count]
      ensures GetRetryCount(url) == count
      ensures contentCache == old(contentCache) && pageCache == old(pageCache) && urlCache == old(urlCache)
      ensures folderCache == old(folderCache) && processedUrls == old(processedUrls) && failedUrls == old(failedUrls)
      ensures filenameCache == old(filenameCache) && documentCache == old(documentCache)
    {
      count := GetRetryCount(url) + 1;
      retryCount := retryCount[url := count];
    }

    /** `clear_retries`: the URL's count reads zero again. */
    method ClearRetries(url: string)
      modifies this
      requires Valid()
      ensures Valid()
      ensures retryCount == old(retryCount) - {url}
      ensures GetRetryCount(url) == 0
      ensures contentCache == old(contentCache) && pageCache == old(pageCache) && urlCache == old(urlCache)
      ensures folderCache == old(folderCache) && processedUrls == old(processedUrls) && failedUrls == old(failedUrls)
      ensures filenameCache == old(filenameCache) && documentCache == old(documentCache)
    {
      retryCount := retryCount - {url};
    }

    /** `clear_all`: all nine containers are emptied. */
    method ClearAll()
      modifies this
      ensures Valid()
      ensures contentCache == map[] && pageCache == map[] && urlCache == map[] && folderCache == map[]
      ensures processedUrls == {} && failedUrls == {} && retryCount == map[]
      ensures filenameCache == map[] && documentCache == map[]
    {
      contentCache, pageCache, urlCache, folderCache := map[], map[], map[], map[];
      processedUrls, failedUrls, retryCount := {}, {}, map[];
      filenameCache, documentCache := map[], map[];
    }
  }
}
