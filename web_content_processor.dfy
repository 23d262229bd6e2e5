// The deterministic parts of the web-content processor: relative-URL rewriting, the
// pre-cleaning of raw attribute values, the document decision, what happens to one URL,
// the flags of a fetch, the removal of Bootstrap grid classes from the first `div`, and
// the memoised collapsible-panel check.  HTML itself is abstracted: a page is given by
// the URLs found in it and by summaries of its panels.

module WebContentProcessor {
  import opened Wrappers
  import opened PyStr
  import opened UrlParse

  // ---------------------------------------------------------------- _clean_url

  /**
   * The host a base domain is compared with: its lowercased netloc, or the whole text
   * lowercased when it has none; `None` where parsing it raises.
   */
  function BaseNetloc(baseDomain: string): Option<string>
  {
    match Parse(baseDomain)
    case None => None
    case Some(b) => Some(if b.netloc != [] then Lower(b.netloc) else Lower(baseDomain))
  }

  /** `/` + the path without its leading slashes + `?query` + `#fragment` (parameters dropped). */
  function Relative(u: Url): (r: string)
    ensures StartsWith(r, "/")
  {
    var tail := LStrip(u.path, {'/'})
                + (if u.query != [] then "?" + u.query else [])
                + (if u.fragment != [] then "#" + u.fragment else []);
    assert ("/" + tail)[..1] == "/";
    "/" + tail
  }

  /** `_clean_url`: a URL on the base host becomes relative; every other URL is kept. */
  function CleanUrl(url: string, baseDomain: string): (r: string)
    ensures url == [] || StartsWith(url, "/") ==> r == url
    ensures Parse(url).None? || Parse(url).value.netloc == [] ==> r == url
    ensures r != url ==> StartsWith(r, "/") && BaseNetloc(baseDomain) == Some(Lower(Parse(url).value.netloc))
  {
    if url == [] || StartsWith(url, "/") then url
    else
      match Parse(url)
      case None => url
      case Some(p) =>
        if p.netloc == [] then url
        else
          var base := BaseNetloc(baseDomain);
          if base.None? || Lower(p.netloc) != base.value then url else Relative(p)
  }

  /** A rewritten URL is left alone by a second rewrite. */
  lemma CleanUrlIdempotent(url: string, baseDomain: string)
    ensures CleanUrl(CleanUrl(url, baseDomain), baseDomain) == CleanUrl(url, baseDomain)
  {
    var r := CleanUrl(url, baseDomain);
    if r != url {
      assert StartsWith(r, "/");
    }
  }

  /**
   * An `http(s)` URL whose host equals the base's host up to case becomes `/` + its path
   * without leading slashes + `?query` + `#fragment`.
   */
  lemma CleanUrlSameHost(scheme: string, host: string, path: string, query: string, fragment: string,
                         beforeHash: string, rest: string, baseScheme: string, baseHost: string)
    requires beforeHash == path + "?" + query || (beforeHash == path && query == [])
    requires rest == beforeHash + "#" + fragment || (rest == beforeHash && fragment == [])
    requires IsHostUrl(scheme, host, rest) && host != []
    requires '?' !in path && ';' !in path && '#' !in path && '#' !in query
    requires IsHostUrl(baseScheme, baseHost, []) && Lower(host) == Lower(baseHost)
    ensures CleanUrl(scheme + "://" + host + rest, baseScheme + "://" + baseHost)
         == "/" + LStrip(path, {'/'}) + (if query != [] then "?" + query else [])
            + (if fragment != [] then "#" + fragment else [])
  {
    var url := scheme + "://" + host + rest;
    var u := Url(scheme, host, path, [], query, fragment);
    ParseWithFragment(scheme, host, path, query, fragment, beforeHash, rest);
    NotRooted(scheme, host, rest);
    var base := baseScheme + "://" + baseHost;
    assert |baseHost| == |Lower(host)|;
    BaseNetlocOfHost(baseScheme, baseHost);
    CleanUrlOnHost(url, u, base);
    var q := if query != [] then "?" + query else [];
    var f := if fragment != [] then "#" + fragment else [];
    ConcatAssoc("/", LStrip(path, {'/'}), q, f);
  }

  lemma ConcatAssoc(a: string, b: string, c: string, d: string)
    ensures a + (b + c + d) == a + b + c + d
  {
  }

  lemma CleanUrlOnHost(url: string, u: Url, baseDomain: string)
    requires url != [] && !StartsWith(url, "/")
    requires Parse(url) == Some(u) && u.netloc != []
    requires BaseNetloc(baseDomain) == Some(Lower(u.netloc))
    ensures CleanUrl(url, baseDomain) == Relative(u)
  {
  }

  lemma BaseNetlocOfHost(baseScheme: string, baseHost: string)
    requires IsHostUrl(baseScheme, baseHost, []) && baseHost != []
    ensures BaseNetloc(baseScheme + "://" + baseHost) == Some(Lower(baseHost))
  {
    var base := baseScheme + "://" + baseHost;
    assert base + [] == base;
    ParseAbsolute(baseScheme, baseHost, []);
  }

  lemma NotRooted(scheme: string, host: string, rest: string)
    requires scheme == "http" || scheme == "https"
    ensures !StartsWith(scheme + "://" + host + rest, "/")
  {
    var url := scheme + "://" + host + rest;
    assert url[0] == 'h';
    assert url[..1][0] == 'h';
  }

  /** An `http(s)` URL on another host than the base's is kept as it is. */
  lemma CleanUrlOtherHost(scheme: string, host: string, rest: string, baseScheme: string, baseHost: string)
    requires IsHostUrl(scheme, host, rest) && host != []
    requires IsHostUrl(baseScheme, baseHost, []) && baseHost != [] && Lower(host) != Lower(baseHost)
    ensures CleanUrl(scheme + "://" + host + rest, baseScheme + "://" + baseHost) == scheme + "://" + host + rest
  {
    ParseAbsolute(scheme, host, rest);
    NotRooted(scheme, host, rest);
    BaseNetlocOfHost(baseScheme, baseHost);
  }

  // ---------------------------------------------------------------- _clean_url_before_processing

  const Quotes: set<char> := {'"', '\''}

  /** A place where `\s+(https?://)` matches: whitespace just before `k`, a protocol at `k`. */
  predicate ProtocolAt(s: string, k: int)
  {
    0 < k <= |s| && IsSpace(s[k - 1]) && (StartsWith(s[k..], "http://") || StartsWith(s[k..], "https://"))
  }

  /** The last such place at or before `k`. */
  function LastProtocol(s: string, k: nat): (r: Option<nat>)
    requires k <= |s|
    ensures r.Some? ==> r.value <= k && ProtocolAt(s, r.value)
    ensures r.Some? ==> forall j :: r.value < j <= k ==> !ProtocolAt(s, j)
    ensures r.None? ==> forall j :: 0 < j <= k ==> !ProtocolAt(s, j)
    decreases k
  {
    if k == 0 then None else if ProtocolAt(s, k) then Some(k) else LastProtocol(s, k - 1)
  }

  /**
   * With a space before a protocol somewhere, only the text from the last protocol that
   * follows whitespace is kept: the last two parts of `re.split(r'\s+(https?://)', url)`.
   * When no such protocol exists the split has one part and `re.sub` changes nothing.
   */
  function KeepLastProtocol(u: string): string
  {
    if Contains(u, " http://") || Contains(u, " https://") then
      match LastProtocol(u, |u|)
      case Some(p) => u[p..]
      case None => u
    else u
  }

  /** `_clean_url_before_processing`. */
  function CleanBeforeProcessing(url: string): (r: string)
    ensures '\\' !in r
    ensures r != [] ==> !IsSpace(r[0]) && !IsSpace(r[|r| - 1])
  {
    if url == [] then []
    else
      var unquoted := StripChars(Replace(url, "&quot;", []), Quotes);
      var slashed := Replace(KeepLastProtocol(unquoted), "\\", "/");
      ReplaceRemoves(KeepLastProtocol(unquoted), '\\', "/");
      StripSubset(slashed, Whitespace, '\\');
      StripEnds(slashed, Whitespace);
      Strip(slashed)
  }

  /** The text from the last whitespace-preceded protocol is what survives. */
  lemma KeepsFromLastProtocol(u: string, p: nat)
    requires ProtocolAt(u, p) && u[p - 1] == ' '
    requires forall j :: p < j <= |u| ==> !ProtocolAt(u, j)
    ensures KeepLastProtocol(u) == u[p..]
  {
    if StartsWith(u[p..], "http://") {
      assert u[p - 1..p + 7] == [u[p - 1]] + u[p..][..7];
      ContainsAt(u, " http://", p - 1);
    } else {
      assert u[p - 1..p + 8] == [u[p - 1]] + u[p..][..8];
      ContainsAt(u, " https://", p - 1);
    }
    var q := LastProtocol(u, |u|);
    assert q.Some? && q.value == p;
  }

  /**
   * A URL that is already clean (no `&quot;`, no surrounding quotes or whitespace, no
   * space before a protocol, no backslash) comes back unchanged.
   */
  lemma CleanBeforeProcessingKeepsClean(url: string)
    requires url != [] && !Contains(url, "&quot;")
    requires url[0] !in Quotes && url[|url| - 1] !in Quotes
    requires !IsSpace(url[0]) && !IsSpace(url[|url| - 1])
    requires !Contains(url, " http://") && !Contains(url, " https://")
    requires '\\' !in url
    ensures CleanBeforeProcessing(url) == url
  {
    ReplaceAbsent(url, "&quot;", []);
    StripUnchanged(url, Quotes);
    assert KeepLastProtocol(url) == url;
    ContainsLacking(url, "\\", '\\');
    ReplaceAbsent(url, "\\", "/");
    StripUnchanged(url, Whitespace);
  }

  // ---------------------------------------------------------------- _should_process_as_document

  /** The outcome of the document check: an answer or the `AttributeError` it raises. */
  datatype Decision = Decided(isDocument: bool) | AttributeError

  const DocumentPaths: set<string> := {"/wp-conteudo", "/wp-content", ".df.gov.br/wp-", "/uploads"}

  const MediaKeywords: set<string> := {"image", "img", "photo", "media", "upload", "arquivo", "document"}

  predicate HasDocumentPath(url: string)
  {
    exists p :: p in DocumentPaths && Contains(Lower(url), p)
  }

  /**
   * `_should_process_as_document` as written: after the document paths it reads
   * `IMAGE_EXTENSIONS`, which the class does not define.
   */
  function ShouldProcessAsDocument(url: string): (r: Decision)
    ensures r == Decided(true) <==> HasDocumentPath(url)
    ensures r != Decided(false)
  {
    if HasDocumentPath(url) then Decided(true) else AttributeError
  }

  /** The check as evidently intended, given the image extensions the class should define. */
  function ShouldProcessAsDocumentIntended(url: string, imageExtensions: set<string>): (r: bool)
    ensures HasDocumentPath(url) ==> r
  {
    var lower := Lower(url);
    HasDocumentPath(url)
    || (exists e :: e in imageExtensions && EndsWith(lower, e))
    || (exists k :: k in MediaKeywords && Contains(lower, k))
  }

  /** An image URL outside the document paths raises as written, and is a document as intended. */
  lemma ImageUrlRaises(url: string, ext: string)
    requires !HasDocumentPath(url) && EndsWith(Lower(url), ext)
    ensures ShouldProcessAsDocument(url) == AttributeError
    ensures ShouldProcessAsDocumentIntended(url, {ext})
  {
    assert ext in {ext};
  }

  /**
   * A concrete instance: the image `/a.png` lies outside every document path, so as
   * written the check raises on it, while as intended it is a document.
   */
  lemma ImageRaises()
    ensures ShouldProcessAsDocument("/a.png") == AttributeError
    ensures ShouldProcessAsDocumentIntended("/a.png", {".png"})
  {
    var url := "/a.png";
    assert Lower(url) == url;
    NoDocumentPathWithout(url);
    ImageUrlRaises(url, ".png");
  }

  /** Each document path holds a `w`, a `d` or a `u`. */
  lemma NoDocumentPathWithout(url: string)
    requires var l := Lower(url); 'w' !in l && 'd' !in l && 'u' !in l
    ensures !HasDocumentPath(url)
  {
    var l := Lower(url);
    ContainsLacking(l, "/wp-conteudo", 'w');
    ContainsLacking(l, "/wp-content", 'w');
    ContainsLacking(l, ".df.gov.br/wp-", 'd');
    ContainsLacking(l, "/uploads", 'u');
  }

  // ---------------------------------------------------------------- _process_single_url

  /** What happens to the tag attribute: nothing, a new value, or the URL inside `style` replaced. */
  datatype AttrChange = Untouched | SetTo(value: string) | StyleUrl(url: string)

  /**
   * The effect of one URL: the attribute change, whether the URL is marked failed, and the
   * `(original, relative)` pair recorded in the URL cache.
   */
  datatype UrlEffect = UrlEffect(change: AttrChange, failed: bool, mapped: Option<(string, string)>)

  function Rewritten(attr: string, v: string): AttrChange
  {
    if attr == "style" then StyleUrl(v) else SetTo(v)
  }

  /** Marked failed, the attribute set back to the original URL. */
  function Restored(url: string): UrlEffect { UrlEffect(SetTo(url), true, None) }

  /** The absolute URL a document is fetched from. */
  function FullUrl(cleaned: string, baseDomain: string): string
  {
    if StartsWith(cleaned, "http://") || StartsWith(cleaned, "https://") then cleaned
    else RStrip(baseDomain, {'/'}) + "/" + LStrip(cleaned, {'/'})
  }

  /** The document branch: the full URL is checked, then the document migrated. */
  function DocumentEffect(attr: string, url: string, full: string, baseDomain: string,
                          migrate: string -> Option<string>): (r: UrlEffect)
    ensures r.failed <==> r == Restored(url)
    ensures r.mapped.Some? <==> !r.failed
    ensures r.mapped.Some? ==> r.mapped.value.0 == url && r.change == Rewritten(attr, r.mapped.value.1)
  {
    var parsed := Parse(full);
    if parsed.None? || parsed.value.scheme == [] || parsed.value.netloc == [] then Restored(url)
    else
      var migrated := migrate(full);
      if migrated.Some? && migrated.value != [] then
        var relative := CleanUrl(migrated.value, baseDomain);
        UrlEffect(Rewritten(attr, relative), false, Some((url, relative)))
      else Restored(url)
  }

  /**
   * `_process_single_url`, given the document check and the document migration (its URL,
   * or `None` where it fails or raises).
   */
  function ProcessSingleUrlWith(attr: string, url: string, baseDomain: string,
                                decide: string -> Decision, migrate: string -> Option<string>): (r: UrlEffect)
    ensures r.failed ==> r.mapped.None? && (r.change == Untouched || r.change == SetTo(url))
    ensures r.mapped.Some? ==> r.mapped.value.0 == url && r.change == Rewritten(attr, r.mapped.value.1)
    ensures r.change == Untouched ==> r.failed
  {
    if Strip(url) == [] then UrlEffect(Untouched, true, None)
    else
      var cleaned := CleanBeforeProcessing(url);
      if cleaned == [] then UrlEffect(Untouched, true, None)
      else DecidedEffect(attr, url, cleaned, baseDomain, decide(cleaned), migrate)
  }

  /** What `_process_single_url` does with a cleaned URL once the document check has answered. */
  function DecidedEffect(attr: string, url: string, cleaned: string, baseDomain: string,
                         decision: Decision, migrate: string -> Option<string>): (r: UrlEffect)
    ensures r.failed ==> r.mapped.None? && r.change == SetTo(url)
    ensures r.mapped.Some? ==> r.mapped.value.0 == url && r.change == Rewritten(attr, r.mapped.value.1)
    ensures r.change != Untouched
  {
    match decision
    case AttributeError => Restored(url)
    case Decided(isDocument) =>
      if !isDocument then UrlEffect(Rewritten(attr, CleanUrl(cleaned, baseDomain)), false, None)
      else DocumentEffect(attr, url, FullUrl(cleaned, baseDomain), baseDomain, migrate)
  }

  function ProcessSingleUrl(attr: string, url: string, baseDomain: string, migrate: string -> Option<string>): UrlEffect
  {
    ProcessSingleUrlWith(attr, url, baseDomain, ShouldProcessAsDocument, migrate)
  }

  function ProcessSingleUrlIntended(attr: string, url: string, baseDomain: string, imageExtensions: set<string>,
                                    migrate: string -> Option<string>): UrlEffect
  {
    ProcessSingleUrlWith(attr, url, baseDomain, u => Decided(ShouldProcessAsDocumentIntended(u, imageExtensions)), migrate)
  }

  /** As written, every URL outside the document paths is marked failed and restored. */
  lemma NonDocumentUrlRestored(attr: string, url: string, baseDomain: string, migrate: string -> Option<string>)
    requires Strip(url) != [] && CleanBeforeProcessing(url) != []
    requires !HasDocumentPath(CleanBeforeProcessing(url))
    ensures ProcessSingleUrl(attr, url, baseDomain, migrate) == Restored(url)
  {
  }

  /** As intended, an ordinary link is rewritten by `_clean_url` and not marked failed. */
  lemma PlainLinkRewritten(attr: string, url: string, baseDomain: string, imageExtensions: set<string>,
                           migrate: string -> Option<string>)
    requires Strip(url) != [] && CleanBeforeProcessing(url) != []
    requires !ShouldProcessAsDocumentIntended(CleanBeforeProcessing(url), imageExtensions)
    ensures ProcessSingleUrlIntended(attr, url, baseDomain, imageExtensions, migrate)
         == UrlEffect(Rewritten(attr, CleanUrl(CleanBeforeProcessing(url), baseDomain)), false, None)
  {
  }

  /** A migrated document maps the original URL to the migrated one made relative. */
  lemma MigratedDocumentMapped(attr: string, url: string, baseDomain: string,
                               decide: string -> Decision, migrate: string -> Option<string>)
    requires Strip(url) != [] && CleanBeforeProcessing(url) != []
    requires decide(CleanBeforeProcessing(url)) == Decided(true)
    requires var p := Parse(FullUrl(CleanBeforeProcessing(url), baseDomain)); p.Some? && p.value.scheme != [] && p.value.netloc != []
    requires var m := migrate(FullUrl(CleanBeforeProcessing(url), baseDomain)); m.Some? && m.value != []
    ensures var m := migrate(FullUrl(CleanBeforeProcessing(url), baseDomain)).value;
            ProcessSingleUrlWith(attr, url, baseDomain, decide, migrate).mapped == Some((url, CleanUrl(m, baseDomain)))
  {
  }

  /**
   * `_process_url_batch` for one URL: a cached rewrite is applied directly, anything else
   * goes through `_process_single_url`.
   */
  function ProcessUrl(cached: Option<string>, attr: string, url: string, baseDomain: string,
                      migrate: string -> Option<string>): (r: UrlEffect)
    ensures cached.Some? && cached.value != [] ==> r == UrlEffect(SetTo(cached.value), false, None)
  {
    if cached.Some? && cached.value != [] then UrlEffect(SetTo(cached.value), false, None)
    else ProcessSingleUrl(attr, url, baseDomain, migrate)
  }

  // ---------------------------------------------------------------- _is_collapsible_content

  /** What the selectors find inside one `div.panel`. */
  datatype Panel = Panel(hasHeading: bool, hasCollapse: bool, hasBody: bool, hasTitle: bool)

  predicate Qualifies(p: Panel)
  {
    (p.hasHeading && (p.hasCollapse || p.hasBody)) || (p.hasTitle && p.hasBody)
  }

  predicate IsCollapsible(panels: seq<Panel>)
  {
    exists i :: 0 <= i < |panels| && Qualifies(panels[i])
  }

  /** The check with its memo table, keyed by the content (hash collisions aside). */
  class CollapsibleChecker {
    /** The panels of a piece of HTML. */
    const panelsOf: string -> seq<Panel>
    var cache: map<string, bool>

    ghost predicate Valid()
      reads this
    {
      forall h :: h in cache ==> cache[h] == IsCollapsible(panelsOf(h))
    }

    constructor(panelsOf: string -> seq<Panel>)
      ensures this.panelsOf == panelsOf && cache == map[] && Valid()
    {
      this.panelsOf := panelsOf;
      cache := map[];
    }

    method IsCollapsibleContent(html: string) returns (r: bool)
      requires Valid()
      modifies this
      ensures Valid()
      ensures r == IsCollapsible(panelsOf(html))
      ensures cache == old(cache)[html := r]
    {
      if html in cache {
        r := cache[html];
        assert cache == cache[html := r];
        return;
      }
      var panels := panelsOf(html);
      var i := 0;
      while i < |panels|
        invariant 0 <= i <= |panels|
        invariant forall j :: 0 <= j < i ==> !Qualifies(panels[j])
        invariant cache == old(cache)
      {
        var p := panels[i];
        if (p.hasHeading && (p.hasCollapse || p.hasBody)) || (p.hasTitle && p.hasBody) {
          cache := cache[html := true];
          return true;
        }
        i := i + 1;
      }
      cache := cache[html := false];
      return false;
    }
  }

  // ---------------------------------------------------------------- fetch_and_process_content

  /** The flags of the result dictionary. */
  datatype Fetched = Fetched(success: bool, isCollapsible: bool, hasMixed: bool)

  const FetchFailed := Fetched(false, false, false)

  /** At most this many `div`s are looked at for mixed content. */
  const MixedDivLimit := 30

  /**
   * The effective (second) `fetch_and_process_content`: `html` is the fetched page,
   * `backgroundUrls` the URLs of its `background-image` styles and scripts, `processed`
   * the serialised result of `process_content` and `divs` the `div`s of the cleaned result.
   */
  function FetchAndProcessWith(html: string, backgroundUrls: seq<string>, processed: string, divs: seq<string>,
                               panelsOf: string -> seq<Panel>, decide: string -> Decision): (r: Fetched)
    ensures r.hasMixed ==> r.success && !r.isCollapsible
    ensures r.success <==> html != [] && processed != []
                           && forall i :: 0 <= i < |backgroundUrls| ==> decide(backgroundUrls[i]).Decided?
    ensures r.success ==> r.isCollapsible == IsCollapsible(panelsOf(html))
  {
    if html == [] then FetchFailed
    else if exists i :: 0 <= i < |backgroundUrls| && decide(backgroundUrls[i]).AttributeError? then FetchFailed
    else if processed == [] then FetchFailed
    else
      var fully := IsCollapsible(panelsOf(html));
      var some := !fully && exists i :: 0 <= i < |divs| && i < MixedDivLimit && IsCollapsible(panelsOf(divs[i]));
      Fetched(true, fully, some && !fully)
  }

  function FetchAndProcess(html: string, backgroundUrls: seq<string>, processed: string, divs: seq<string>,
                           panelsOf: string -> seq<Panel>): Fetched
  {
    FetchAndProcessWith(html, backgroundUrls, processed, divs, panelsOf, ShouldProcessAsDocument)
  }

  /** As written, one background image outside the document paths fails the whole page. */
  lemma BackgroundImageFails(html: string, backgroundUrls: seq<string>, processed: string, divs: seq<string>,
                             panelsOf: string -> seq<Panel>, k: nat)
    requires k < |backgroundUrls| && !HasDocumentPath(backgroundUrls[k])
    ensures FetchAndProcess(html, backgroundUrls, processed, divs, panelsOf) == FetchFailed
  {
    assert ShouldProcessAsDocument(backgroundUrls[k]).AttributeError?;
  }

  /** As intended, the page succeeds exactly when it was fetched and processed to something. */
  lemma IntendedFetchSucceeds(html: string, backgroundUrls: seq<string>, processed: string, divs: seq<string>,
                              panelsOf: string -> seq<Panel>, imageExtensions: set<string>)
    ensures FetchAndProcessWith(html, backgroundUrls, processed, divs, panelsOf,
                                u => Decided(ShouldProcessAsDocumentIntended(u, imageExtensions))).success
        <==> html != [] && processed != []
  {
  }

  /** Mixed content means some of the first 30 `div`s is collapsible though the page is not. */
  lemma MixedMeansSomeDiv(html: string, backgroundUrls: seq<string>, processed: string, divs: seq<string>,
                          panelsOf: string -> seq<Panel>, decide: string -> Decision)
    ensures var r := FetchAndProcessWith(html, backgroundUrls, processed, divs, panelsOf, decide);
            r.hasMixed <==> r.success && !IsCollapsible(panelsOf(html))
                            && exists i :: 0 <= i < |divs| && i < MixedDivLimit && IsCollapsible(panelsOf(divs[i]))
  {
  }

  // ---------------------------------------------------------------- _clean_first_div_bootstrap

  /** `\w` for the characters the model knows: letters, digits and `_`. */
  predicate IsWordChar(c: char) { IsAlnum(c) || c == '_' }

  /** The length of the leading run of word characters. */
  function WordRun(s: string): (n: nat)
    ensures n <= |s|
    ensures forall i :: 0 <= i < n ==> IsWordChar(s[i])
    ensures n < |s| ==> !IsWordChar(s[n])
  {
    if s != [] && IsWordChar(s[0]) then 1 + WordRun(s[1..]) else 0
  }

  /**
   * `^col-\w+-<infix>\d+`.  `-` is not a word character, so the word run must be the
   * longest one.
   */
  predicate ColumnPattern(c: string, infix: string)
  {
    && StartsWith(c, "col-")
    && var rest := c[4..];
       var n := WordRun(rest);
       n > 0 && StartsWith(rest[n..], "-" + infix) && |rest[n..]| > |infix| + 1 && IsDigit(rest[n..][|infix| + 1])
  }

  const BootstrapPrefixes: set<string> :=
    {"row", "container", "container-fluid", "offset-", "pull-", "push-", "col-xs-"}

  /** `BOOTSTRAP_PATTERNS.match(c)`. */
  predicate IsBootstrapClass(c: string)
  {
    ColumnPattern(c, "") || ColumnPattern(c, "offset-") || exists p :: p in BootstrapPrefixes && StartsWith(c, p)
  }

  /** The classes that are kept, in their order. */
  function NonBootstrap(cs: seq<string>): (r: seq<string>)
    ensures |r| <= |cs|
  {
    if cs == [] then []
    else NonBootstrap(cs[..|cs| - 1]) + (if IsBootstrapClass(cs[|cs| - 1]) then [] else [cs[|cs| - 1]])
  }

  /** The split of the class loop: the matching classes as a set, the rest in order. */
  method PartitionClasses(classes: seq<string>) returns (bootstrap: set<string>, others: seq<string>)
    ensures bootstrap == set c | c in classes && IsBootstrapClass(c)
    ensures others == NonBootstrap(classes)
  {
    bootstrap := {};
    others := [];
    for i := 0 to |classes|
      invariant bootstrap == set c | c in classes[..i] && IsBootstrapClass(c)
      invariant others == NonBootstrap(classes[..i])
    {
      var c := classes[i];
      assert classes[..i + 1][..i] == classes[..i];
      assert classes[..i + 1] == classes[..i] + [c];
      if IsBootstrapClass(c) {
        bootstrap := bootstrap + {c};
      } else {
        others := others + [c];
      }
    }
    assert classes[..|classes|] == classes;
  }

  lemma {:induction false} NonBootstrapMembers(cs: seq<string>, c: string)
    ensures c in NonBootstrap(cs) <==> c in cs && !IsBootstrapClass(c)
    decreases |cs|
  {
    if cs != [] {
      var front := cs[..|cs| - 1];
      NonBootstrapMembers(front, c);
      assert cs == front + [cs[|cs| - 1]];
    }
  }

  /** Filtering distributes over concatenation: the kept classes stay in their order. */
  lemma {:induction false} NonBootstrapAppend(a: seq<string>, b: seq<string>)
    ensures NonBootstrap(a + b) == NonBootstrap(a) + NonBootstrap(b)
    decreases |b|
  {
    if b == [] {
      assert a + b == a;
    } else {
      var front := b[..|b| - 1];
      NonBootstrapAppend(a, front);
      assert (a + b)[..|a + b| - 1] == a + front;
      assert (a + b)[|a + b| - 1] == b[|b| - 1];
    }
  }

  lemma {:induction false} NonBootstrapAll(cs: seq<string>)
    requires forall i :: 0 <= i < |cs| ==> !IsBootstrapClass(cs[i])
    ensures NonBootstrap(cs) == cs
    decreases |cs|
  {
    if cs != [] {
      NonBootstrapAll(cs[..|cs| - 1]);
      assert cs[..|cs| - 1] + [cs[|cs| - 1]] == cs;
    }
  }

  lemma {:induction false} NonBootstrapNone(cs: seq<string>)
    requires forall i :: 0 <= i < |cs| ==> IsBootstrapClass(cs[i])
    ensures NonBootstrap(cs) == []
    decreases |cs|
  {
    if cs != [] {
      NonBootstrapNone(cs[..|cs| - 1]);
    }
  }

  /** The first `div` as far as its classes go. */
  datatype FirstDiv = NoDiv | NoClass | Classes(names: seq<string>)

  /** `_clean_first_div_bootstrap` on the class attribute of the first `div`. */
  function CleanFirstDiv(d: FirstDiv): FirstDiv
  {
    match d
    case Classes(cs) =>
      if forall i :: 0 <= i < |cs| ==> !IsBootstrapClass(cs[i]) then d
      else if NonBootstrap(cs) != [] then Classes(NonBootstrap(cs))
      else NoClass
    case _ => d
  }

  method CleanFirstDivBootstrap(d: FirstDiv) returns (r: FirstDiv)
    ensures r == CleanFirstDiv(d)
  {
    match d {
      case Classes(cs) =>
        var bootstrap, others := PartitionClasses(cs);
        if bootstrap != {} {
          var c :| c in bootstrap;
          r := if others != [] then Classes(others) else NoClass;
        } else {
          forall i | 0 <= i < |cs| ensures !IsBootstrapClass(cs[i]) {
            assert cs[i] !in bootstrap;
          }
          r := d;
        }
      case _ =>
        r := d;
    }
  }

  /**
   * The class list is kept when nothing matches, becomes exactly the non-matching classes
   * otherwise, and the attribute goes when every class matches.
   */
  lemma CleanFirstDivRules(cs: seq<string>)
    ensures (forall i :: 0 <= i < |cs| ==> !IsBootstrapClass(cs[i])) ==> CleanFirstDiv(Classes(cs)) == Classes(cs)
    ensures CleanFirstDiv(Classes(cs)).Classes? ==>
              forall c :: c in CleanFirstDiv(Classes(cs)).names <==> c in cs && !IsBootstrapClass(c)
    ensures cs != [] && (forall i :: 0 <= i < |cs| ==> IsBootstrapClass(cs[i])) ==> CleanFirstDiv(Classes(cs)) == NoClass
  {
    if forall i :: 0 <= i < |cs| ==> !IsBootstrapClass(cs[i]) {
      NonBootstrapAll(cs);
    }
    forall c ensures c in NonBootstrap(cs) <==> c in cs && !IsBootstrapClass(c) {
      NonBootstrapMembers(cs, c);
    }
    if cs != [] && forall i :: 0 <= i < |cs| ==> IsBootstrapClass(cs[i]) {
      assert IsBootstrapClass(cs[0]);
      NonBootstrapNone(cs);
    }
  }

  /** Cleaning twice changes nothing more. */
  lemma CleanFirstDivIdempotent(d: FirstDiv)
    ensures CleanFirstDiv(CleanFirstDiv(d)) == CleanFirstDiv(d)
  {
    if d.Classes? {
      var kept := NonBootstrap(d.names);
      forall i | 0 <= i < |kept| ensures !IsBootstrapClass(kept[i]) {
        NonBootstrapMembers(d.names, kept[i]);
      }
    }
  }
}
