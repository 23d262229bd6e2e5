/**
 * The document side of the migration (`DocumentCreator`): which URLs are files to carry
 * over, how a file is named and typed, how a Liferay document URL is trimmed, and the
 * claim / download / retry control flow of `migrate_document` over a `DocumentCache`,
 * with the search for an existing document under the name variants of the file, which
 * reads and fills the cache's filename table. What the server and the clock answer on
 * each attempt (a refused download, the download timestamp, the upload's reply) and the
 * folder listing the search falls back to are parameters.
 */
module DocumentCreator {
  import opened Wrappers
  import opened PyStr
  import opened UrlParse
  import opened DocumentCache

  // ---------------------------------------------------------------- the MIME table

  /** `SUPPORTED_MIME_TYPES`, in the dictionary's order. */
  const MimeTypes: seq<(string, string)> := [
    (".pdf", "application/pdf"),
    (".doc", "application/msword"),
    (".docx", "application/vnd.openxmlformats-officedocument.wordprocessingml.document"),
    (".xls", "application/vnd.ms-excel"),
    (".xlsx", "application/vnd.openxmlformats-officedocument.spreadsheetml.sheet"),
    (".ppt", "application/vnd.ms-powerpoint"),
    (".pptx", "application/vnd.openxmlformats-officedocument.presentationml.presentation"),
    (".txt", "text/plain"),
    (".csv", "text/csv"),
    (".json", "application/json"),
    (".xml", "application/xml"),
    (".html", "text/html"),
    (".htm", "text/html"),
    (".png", "image/png"),
    (".jpg", "image/jpeg"),
    (".jpeg", "image/jpeg"),
    (".gif", "image/gif"),
    (".svg", "image/svg+xml")
  ]

  const OctetStream := "application/octet-stream"

  /** A table in which no key occurs twice, as in a dictionary. */
  predicate DistinctKeys(t: seq<(string, string)>)
  {
    forall i, j :: 0 <= i < j < |t| ==> t[i].0 != t[j].0
  }

  /** The value stored under `key`. */
  function Lookup(t: seq<(string, string)>, key: string): (r: Option<string>)
    ensures r.Some? ==> exists i :: 0 <= i < |t| && t[i] == (key, r.value)
    ensures r.None? ==> forall i :: 0 <= i < |t| ==> t[i].0 != key
  {
    if t == [] then None
    else if t[0].0 == key then Some(t[0].1)
    else
      assert forall i :: 0 <= i < |t[1..]| ==> t[1..][i] == t[i + 1];
      Lookup(t[1..], key)
  }

  /** The first key, in the table's order, whose value is `value`. */
  function FirstKeyFor(t: seq<(string, string)>, value: string): (r: Option<nat>)
    ensures r.Some? ==> r.value < |t| && t[r.value].1 == value
    ensures r.Some? ==> forall j :: 0 <= j < r.value ==> t[j].1 != value
    ensures r.None? ==> forall j :: 0 <= j < |t| ==> t[j].1 != value
  {
    if t == [] then None
    else if t[0].1 == value then Some(0)
    else
      var r := FirstKeyFor(t[1..], value);
      if r.Some? then Some(r.value + 1) else None
  }

  /** In a dictionary, looking up the key of an entry yields that entry's value. */
  lemma {:induction false} LookupEntry(t: seq<(string, string)>, i: nat)
    requires DistinctKeys(t) && i < |t|
    ensures Lookup(t, t[i].0) == Some(t[i].1)
  {
    if i > 0 {
      assert t[0].0 != t[i].0;
      assert DistinctKeys(t[1..]) by {
        forall a, b | 0 <= a < b < |t[1..]| ensures t[1..][a].0 != t[1..][b].0 {
          assert t[1..][a] == t[a + 1] && t[1..][b] == t[b + 1];
        }
      }
      LookupEntry(t[1..], i - 1);
    }
  }

  /** A dot followed by small ASCII letters. */
  predicate IsListedExtension(key: string)
  {
    |key| >= 2 && key[0] == '.' && forall j :: 1 <= j < |key| ==> 'a' <= key[j] <= 'z'
  }

  lemma MimeKeysDistinct()
    ensures DistinctKeys(MimeTypes)
  {
  }

  lemma MimeKeysListed()
    ensures forall i :: 0 <= i < |MimeTypes| ==> IsListedExtension(MimeTypes[i].0)
  {
  }

  /** A listed extension is its own lower case, and has no dot after the first. */
  lemma ListedExtensionLower(key: string)
    requires IsListedExtension(key)
    ensures Lower(key) == key && Lower(key[1..]) == key[1..] && '.' !in key[1..]
  {
    assert forall j :: 0 <= j < |key| ==> LowerChar(key[j]) == key[j];
    assert forall j :: 0 <= j < |key[1..]| ==> key[1..][j] == key[j + 1];
  }

  // ---------------------------------------------------------------- _get_mime_type

  /** The text after the last `.`, or `None` when there is no `.`. */
  function AfterLastDot(s: string): (r: Option<string>)
    ensures r.Some? ==> '.' !in r.value
    ensures r.None? <==> '.' !in s
  {
    var k := LastIndexOf(s, '.');
    if k >= 0 then
      Some(s[k + 1..])
    else None
  }

  /** The last `.` of `name + "." + ext` is the one before `ext`. */
  lemma LastDotOf(name: string, ext: string)
    requires '.' !in ext
    ensures LastIndexOf(name + "." + ext, '.') == |name|
    ensures AfterLastDot(name + "." + ext) == Some(ext)
  {
    var s := name + "." + ext;
    var k := LastIndexOf(s, '.');
    assert s[|name|] == '.';
    assert s[k + 1..] == ext;
  }

  /** `_get_mime_type`: the table entry for the lower-cased extension, or the generic type. */
  function GetMimeType(filename: string): string
  {
    var ext := match AfterLastDot(filename) { case Some(e) => "." + Lower(e) case None => "" };
    match Lookup(MimeTypes, ext) { case Some(m) => m case None => OctetStream }
  }

  /** The MIME type is chosen by the lower-cased text after the last dot. */
  lemma MimeTypeByExtension(name: string, ext: string)
    requires '.' !in ext
    ensures GetMimeType(name + "." + ext) ==
      match Lookup(MimeTypes, "." + Lower(ext)) { case Some(m) => m case None => OctetStream }
  {
    LastDotOf(name, ext);
  }

  /** A name without a dot has the generic type. */
  lemma MimeTypeWithoutDot(filename: string)
    requires '.' !in filename
    ensures GetMimeType(filename) == OctetStream
  {
  }

  /** A file ending in one of the listed extensions gets that extension's type. */
  lemma MimeTypeOfListed(name: string, i: nat)
    requires i < |MimeTypes|
    ensures GetMimeType(name + MimeTypes[i].0) == MimeTypes[i].1
  {
    MimeKeysListed();
    MimeKeysDistinct();
    var key := MimeTypes[i].0;
    ListedExtensionLower(key);
    assert key == "." + key[1..];
    assert name + key == name + "." + key[1..];
    MimeTypeByExtension(name, key[1..]);
    LookupEntry(MimeTypes, i);
  }

  // ---------------------------------------------------------------- _get_extension_from_content_type

  /**
   * `_get_extension_from_content_type`: the first listed extension with that exact type;
   * failing that `.html` when the type mentions html, and `.txt` otherwise.
   */
  function ExtensionForContentType(contentType: string): (r: string)
    ensures (exists i :: 0 <= i < |MimeTypes| && MimeTypes[i].1 == contentType) ==>
      exists i :: 0 <= i < |MimeTypes| && MimeTypes[i] == (r, contentType)
    ensures (forall i :: 0 <= i < |MimeTypes| ==> MimeTypes[i].1 != contentType) ==>
      r == (if Contains(contentType, "html") then ".html" else ".txt")
  {
    match FirstKeyFor(MimeTypes, contentType)
    case Some(i) => MimeTypes[i].0
    case None => if Contains(contentType, "html") then ".html" else ".txt"
  }

  /** The extension chosen for a listed type maps back to that type. */
  lemma ContentTypeRoundTrip(name: string, contentType: string)
    requires exists i :: 0 <= i < |MimeTypes| && MimeTypes[i].1 == contentType
    ensures GetMimeType(name + ExtensionForContentType(contentType)) == contentType
  {
    var i := FirstKeyFor(MimeTypes, contentType).value;
    MimeTypeOfListed(name, i);
  }

  // ---------------------------------------------------------------- _is_valid_file_url

  const ValidPatterns: seq<string> := ["/wp-content", "/wp-conteudo", ".df.gov.br/wp-"]
  const ImageExtensions: seq<string> := [".jpg", ".jpeg", ".png", ".gif", ".webp"]

  /** `any(p in s for p in ps)`. */
  predicate AnyOccurs(s: string, ps: seq<string>)
  {
    ps != [] && (Contains(s, ps[0]) || AnyOccurs(s, ps[1..]))
  }

  lemma {:induction false} AnyOccursIff(s: string, ps: seq<string>)
    ensures AnyOccurs(s, ps) <==> exists i :: 0 <= i < |ps| && Contains(s, ps[i])
  {
    if ps != [] {
      AnyOccursIff(s, ps[1..]);
      if exists i :: 0 <= i < |ps| && Contains(s, ps[i]) {
        var i :| 0 <= i < |ps| && Contains(s, ps[i]);
        if i > 0 { assert ps[1..][i - 1] == ps[i]; }
      }
      if AnyOccurs(s, ps[1..]) {
        var i :| 0 <= i < |ps[1..]| && Contains(s, ps[1..][i]);
        assert ps[i + 1] == ps[1..][i];
      }
    }
  }

  /** `_is_valid_file_url`. */
  predicate IsValidFileUrl(url: string)
  {
    url != [] && !Contains(Lower(url), "sinj")
    && (AnyOccurs(Lower(url), ValidPatterns) || AnyOccurs(Lower(url), ImageExtensions))
  }

  /**
   * A URL is a file to migrate exactly when it is not empty, does not mention `sinj` in
   * any case, and its lower-case form holds a WordPress upload path or an image extension.
   */
  lemma IsValidFileUrlRules(url: string)
    ensures IsValidFileUrl(url) <==>
      (&& url != []
       && !Contains(Lower(url), "sinj")
       && ((exists i :: 0 <= i < |ValidPatterns| && Contains(Lower(url), ValidPatterns[i]))
           || (exists i :: 0 <= i < |ImageExtensions| && Contains(Lower(url), ImageExtensions[i]))))
  {
    AnyOccursIff(Lower(url), ValidPatterns);
    AnyOccursIff(Lower(url), ImageExtensions);
  }

  // ---------------------------------------------------------------- _sanitize_filename

  const InvalidChars: string := "<>:\"/\\|?*"

  /** `s.replace(c, '_')` for each `c` of `chars`, in order. */
  function ReplacedAll(s: string, chars: string): string
    decreases |chars|
  {
    if chars == [] then s else ReplacedAll(Replace(s, [chars[0]], "_"), chars[1..])
  }

  /** `name.strip() + "." + ext.strip()` around the last dot; a name without a dot is kept. */
  function StripAroundLastDot(s: string): string
  {
    var k := LastIndexOf(s, '.');
    if k >= 0 then Strip(s[..k]) + "." + Strip(s[k + 1..]) else s
  }

  /** `s[:n]`. */
  function Truncated(s: string, n: nat): (r: string)
    ensures |r| <= n && StartsWith(s, r)
  {
    if |s| <= n then s else s[..n]
  }

  /** What `_sanitize_filename` returns. */
  function Sanitized(filename: string): string
  {
    Truncated(StripAroundLastDot(ReplacedAll(Strip(Unquote(filename)), InvalidChars)), 240)
  }

  lemma {:induction false} ReplacedAllKeepsOut(s: string, chars: string, c: char)
    requires c !in s && c != '_'
    ensures c !in ReplacedAll(s, chars)
    decreases |chars|
  {
    if chars != [] {
      ReplaceChars(s, [chars[0]], "_", c);
      ReplacedAllKeepsOut(Replace(s, [chars[0]], "_"), chars[1..], c);
    }
  }

  lemma {:induction false} ReplacedAllRemoves(s: string, chars: string, c: char)
    requires c in chars && '_' !in chars
    ensures c !in ReplacedAll(s, chars)
    decreases |chars|
  {
    if chars[0] == c {
      ReplaceRemoves(s, c, "_");
      ReplacedAllKeepsOut(Replace(s, [c], "_"), chars[1..], c);
    } else {
      ReplacedAllRemoves(Replace(s, [chars[0]], "_"), chars[1..], c);
    }
  }

  lemma StripAroundLastDotKeepsOut(s: string, c: char)
    requires c !in s && c != '.'
    ensures c !in StripAroundLastDot(s)
  {
    var k := LastIndexOf(s, '.');
    if k >= 0 {
      assert c !in s[..k] && c !in s[k + 1..];
      StripSubset(s[..k], Whitespace, c);
      StripSubset(s[k + 1..], Whitespace, c);
    }
  }

  lemma TruncatedKeepsOut(s: string, n: nat, c: char)
    requires c !in s
    ensures c !in Truncated(s, n)
  {
  }

  lemma InvalidCharsExclude()
    ensures '_' !in InvalidChars && '.' !in InvalidChars
  {
  }

  /** A sanitised name holds none of `<>:"/\|?*` and is at most 240 characters long. */
  lemma SanitizedIsSafe(filename: string)
    ensures |Sanitized(filename)| <= 240
    ensures forall c :: c in InvalidChars ==> c !in Sanitized(filename)
  {
    var u := Strip(Unquote(filename));
    var replaced := ReplacedAll(u, InvalidChars);
    var joined := StripAroundLastDot(replaced);
    assert Sanitized(filename) == Truncated(joined, 240);
    InvalidCharsExclude();
    forall c | c in InvalidChars ensures c !in Sanitized(filename) {
      ReplacedAllRemoves(u, InvalidChars, c);
      StripAroundLastDotKeepsOut(replaced, c);
      TruncatedKeepsOut(joined, 240, c);
    }
  }

  /** `_sanitize_filename`, replacing the invalid characters one after another. */
  method SanitizeFilename(filename: string) returns (r: string)
    ensures r == Sanitized(filename)
    ensures |r| <= 240 && forall c :: c in InvalidChars ==> c !in r
  {
    var f := Unquote(filename);
    f := Strip(f);
    f := ReplaceInvalid(f);
    f := StripLastDotParts(f);
    r := Truncated(f, 240);
    SanitizedIsSafe(filename);
  }

  /** The `rsplit('.', 1)` step of `_sanitize_filename`. */
  method StripLastDotParts(s: string) returns (f: string)
    ensures f == StripAroundLastDot(s)
  {
    f := s;
    var k := LastIndexOf(f, '.');
    if k >= 0 {
      f := Strip(f[..k]) + "." + Strip(f[k + 1..]);
    }
  }

  /** The loop of `_sanitize_filename` over the invalid characters. */
  method ReplaceInvalid(s: string) returns (f: string)
    ensures f == ReplacedAll(s, InvalidChars)
  {
    f := s;
    var chars := InvalidChars;
    for i := 0 to |chars|
      invariant ReplacedAll(f, chars[i..]) == ReplacedAll(s, chars)
    {
      assert chars[i..][1..] == chars[i + 1..];
      f := Replace(f, [chars[i]], "_");
    }
    assert chars[|chars|..] == [];
  }

  // ---------------------------------------------------------------- _extract_filename

  /** The extension spellings `_extract_filename` folds together. */
  function MappedExtension(ext: string): string
  {
    if ext == "docx" then "doc" else if ext == "xlsx" then "xls" else if ext == "pptx" then "ppt" else ext
  }

  /** `name.ext` with the extension lower-cased and folded. */
  function NormalizedName(filename: string): string
    requires '.' in filename
  {
    var k := LastIndexOf(filename, '.');
    filename[..k] + "." + MappedExtension(Lower(filename[k + 1..]))
  }

  /** The name part is kept and only the extension after the last dot is normalised. */
  lemma NormalizedNameParts(name: string, ext: string)
    requires '.' !in ext
    ensures NormalizedName(name + "." + ext) == name + "." + MappedExtension(Lower(ext))
  {
    LastDotOf(name, ext);
    assert (name + "." + ext)[..|name|] == name;
  }

  /** Word, Excel and PowerPoint files of either generation end up with the short extension. */
  lemma NormalizedOfficeNames(name: string, ext: string)
    requires '.' !in ext
    ensures Lower(ext) == "docx" ==> NormalizedName(name + "." + ext) == name + "." + "doc"
    ensures Lower(ext) == "xlsx" ==> NormalizedName(name + "." + ext) == name + "." + "xls"
    ensures Lower(ext) == "pptx" ==> NormalizedName(name + "." + ext) == name + "." + "ppt"
  {
    NormalizedNameParts(name, ext);
  }

  /** The last segment of a path, trailing slashes ignored. */
  function LastSegment(path: string): (r: string)
    ensures '/' !in r
  {
    var p := RStrip(path, {'/'});
    var k := LastIndexOf(p, '/');
    p[k + 1..]
  }

  /** The first label of the URL's host, or `download` when it has none. */
  function HostLabel(netloc: string): string
  {
    match Hostname(netloc) { case Some(h) => SplitOnce(h, '.').0 case None => "download" }
  }

  /**
   * `_extract_filename(url, content_type)` at the clock reading `timestamp`. A URL that
   * `urlparse` rejects gives the fallback name; a name without an extension is made from
   * the host label, the timestamp and the extension for the content type.
   */
  function ExtractFilename(url: string, contentType: string, timestamp: string): string
  {
    match Parse(url)
    case None => "document_" + timestamp + ".html"
    case Some(u) =>
      var filename := LastSegment(Unquote(u.path));
      if '.' !in filename then Sanitized(HostLabel(u.netloc) + "_" + timestamp + ExtensionForContentType(contentType))
      else Sanitized(NormalizedName(filename))
  }

  /** A URL whose last segment has an extension gives that name, normalised and sanitised. */
  lemma ExtractFilenameWithExtension(url: string, contentType: string, timestamp: string, name: string, ext: string)
    requires Parse(url).Some? && '.' !in ext
    requires LastSegment(Unquote(Parse(url).value.path)) == name + "." + ext
    ensures ExtractFilename(url, contentType, timestamp) == Sanitized(name + "." + MappedExtension(Lower(ext)))
  {
    var filename := LastSegment(Unquote(Parse(url).value.path));
    assert '.' in filename by { assert filename[|name|] == '.'; }
    assert ExtractFilename(url, contentType, timestamp) == Sanitized(NormalizedName(filename));
    NormalizedNameParts(name, ext);
  }

  // ---------------------------------------------------------------- _clean_document_url

  /** The position of the first occurrence of `m` in `s`. */
  function FindSub(s: string, m: string): (r: Option<nat>)
    ensures r.Some? <==> Contains(s, m)
    ensures r.Some? ==> r.value + |m| <= |s| && s[r.value..r.value + |m|] == m
    ensures r.Some? ==> forall j :: 0 <= j < r.value ==> !StartsWith(s[j..], m)
    decreases |s|
  {
    if StartsWith(s, m) then Some(0)
    else if s == [] then None
    else
      var r := FindSub(s[1..], m);
      if r.Some? then
        assert s[1..][r.value..r.value + |m|] == s[r.value + 1..r.value + 1 + |m|];
        assert forall j :: 1 <= j <= r.value ==> s[j..] == s[1..][j - 1..];
        Some(r.value + 1)
      else None
  }

  /** `s.split(m)[0]`: the text before the first occurrence of `m`, or all of `s`. */
  function BeforeFirst(s: string, m: string): (r: string)
    ensures StartsWith(s, r)
  {
    match FindSub(s, m) { case Some(k) => s[..k] case None => s }
  }

  /** An occurrence cannot start inside a prefix that lacks `m`'s first character. */
  lemma {:induction false} FindSubAfterPrefix(p: string, s: string, m: string)
    requires m != [] && m[0] !in p && StartsWith(s, m)
    ensures FindSub(p + s, m) == Some(|p|)
    decreases |p|
  {
    if p == [] {
      assert p + s == s;
    } else {
      assert (p + s)[0] == p[0];
      assert (p + s)[1..] == p[1..] + s;
      FindSubAfterPrefix(p[1..], s, m);
    }
  }

  /** The first table extension, in order, occurring in `lowered`. */
  function FirstExtensionIn(lowered: string, t: seq<(string, string)>): (r: Option<nat>)
    ensures r.Some? ==> r.value < |t| && Contains(lowered, t[r.value].0)
    ensures r.Some? ==> forall j :: 0 <= j < r.value ==> !Contains(lowered, t[j].0)
    ensures r.None? ==> forall j :: 0 <= j < |t| ==> !Contains(lowered, t[j].0)
  {
    if t == [] then None
    else if Contains(lowered, t[0].0) then Some(0)
    else
      var r := FirstExtensionIn(lowered, t[1..]);
      if r.Some? then Some(r.value + 1) else None
  }

  /**
   * `_clean_document_url` as written: the first extension found in the lower-cased URL
   * decides, but the URL itself, in its own case, is split at that extension.
   */
  function CleanDocumentUrl(url: string): (r: string)
    ensures url == [] ==> r == url
    ensures (forall j :: 0 <= j < |MimeTypes| ==> !Contains(Lower(url), MimeTypes[j].0)) ==> r == url
  {
    if url == [] then url
    else
      match FirstExtensionIn(Lower(url), MimeTypes)
      case None => url
      case Some(i) => BeforeFirst(url, MimeTypes[i].0) + MimeTypes[i].0
  }

  /** A lower-case character is a dot only when the original is. */
  lemma LowerKeepsDots(s: string)
    requires '.' !in s
    ensures '.' !in Lower(s)
  {
  }

  lemma LowerAppend(a: string, b: string)
    ensures Lower(a + b) == Lower(a) + Lower(b)
  {
    assert forall i :: 0 <= i < |a + b| ==> (a + b)[i] == if i < |a| then a[i] else b[i - |a|];
  }

  /** Cutting a URL at an occurrence of a lower-case text in its lower-cased form. */
  lemma LowerCutAt(url: string, k: nat, ext: string)
    requires k + |ext| <= |url| && Lower(url)[k..k + |ext|] == ext && Lower(ext) == ext
    ensures Lower(url[..k] + ext) == Lower(url)[..k + |ext|]
  {
    var r := url[..k] + ext;
    var lowered := Lower(url);
    var cut := lowered[..k + |ext|];
    var lr := Lower(r);
    assert |lr| == |cut|;
    forall j | 0 <= j < |lr| ensures lr[j] == cut[j] {
      if j < k {
        assert r[j] == url[j];
        assert lr[j] == LowerChar(url[j]) == lowered[j];
      } else {
        assert r[j] == ext[j - k];
        assert lowered[k..k + |ext|][j - k] == lowered[j];
        assert lr[j] == LowerChar(ext[j - k]) == Lower(ext)[j - k];
      }
    }
    assert lr == cut;
  }

  /** `.doc` precedes `.docx` in the table, so a `.docx` URL is cut to `.doc`. */
  lemma CleanDocxToDoc(name: string)
    requires '.' !in name
    ensures CleanDocumentUrl(name + ".docx") == name + ".doc"
  {
    var url := name + ".docx";
    LowerAppend(name, ".docx");
    LowerKeepsDots(name);
    assert Lower(".docx") == ".docx";
    var lowered := Lower(url);
    assert lowered == Lower(name) + ".docx";
    assert !Contains(lowered, ".pdf") by {
      if Contains(lowered, ".pdf") {
        ContainsAfterPrefix(Lower(name), ".docx", ".pdf");
      }
    }
    ContainsAt(lowered, ".doc", |name|);
    assert FirstExtensionIn(lowered, MimeTypes) == Some(1);
    FindSubAfterPrefix(name, ".docx", ".doc");
    assert url[..|name|] == name;
  }

  /**
   * The evidently intended trimming: cut the URL right after the first occurrence, in any
   * case, of the first listed extension it holds, and write that extension in lower case.
   */
  function CleanDocumentUrlIntended(url: string): (r: string)
  {
    if url == [] then url
    else
      match FirstExtensionIn(Lower(url), MimeTypes)
      case None => url
      case Some(i) => url[..FindSub(Lower(url), MimeTypes[i].0).value] + MimeTypes[i].0
  }

  /**
   * The intended trimming never lengthens the URL: the result is the URL's own prefix up to
   * the first extension found, that extension in lower case, and in lower case it is a
   * prefix of the lower-cased URL.
   */
  lemma CleanIntendedIsPrefix(url: string)
    ensures |CleanDocumentUrlIntended(url)| <= |url|
    ensures StartsWith(Lower(url), Lower(CleanDocumentUrlIntended(url)))
    ensures (forall j :: 0 <= j < |MimeTypes| ==> !Contains(Lower(url), MimeTypes[j].0)) ==>
      CleanDocumentUrlIntended(url) == url
  {
    var lowered := Lower(url);
    var i := FirstExtensionIn(lowered, MimeTypes);
    if url != [] && i.Some? {
      var ext := MimeTypes[i.value].0;
      MimeKeysListed();
      ListedExtensionLower(ext);
      var k := FindSub(lowered, ext).value;
      LowerCutAt(url, k, ext);
    }
  }

  /** Where the URL spells the extension in capitals, the code as written appends a second one. */
  lemma CleanUpperCaseExtensionAsWritten()
    ensures CleanDocumentUrl(".PDF") == ".PDF.pdf"
    ensures CleanDocumentUrlIntended(".PDF") == ".pdf"
  {
    assert Lower(".PDF") == ".pdf";
    assert Contains(".pdf", ".pdf");
    assert FirstExtensionIn(".pdf", MimeTypes) == Some(0);
    assert FindSub(".pdf", ".pdf") == Some(0);
    assert !Contains(".PDF", ".pdf") by {
      ContainsLacking(".PDF", ".pdf", 'p');
    }
  }

  // ---------------------------------------------------------------- _find_existing_document

  /** `filename.rsplit('.', 1)` for a name with a dot, and `(filename, '')` for one without. */
  function NameAndExt(f: string): (r: (string, string))
    ensures '.' in f ==> f == r.0 + "." + r.1 && '.' !in r.1
    ensures '.' !in f ==> r == (f, "")
  {
    var k := LastIndexOf(f, '.');
    if k >= 0 then
      assert f == f[..k] + "." + f[k + 1..];
      (f[..k], f[k + 1..])
    else (f, "")
  }

  /**
   * `possible_names`: the name itself, then the name with `.docx`, `.xlsx` or `.pptx` for
   * a `.doc`, `.xls` or `.ppt` name, the name itself again in each other place.
   */
  function PossibleNames(f: string): (r: seq<string>)
    ensures |r| == 4 && r[0] == f
  {
    var (name, ext) := NameAndExt(f);
    [f,
     if ext == "doc" then name + ".docx" else f,
     if ext == "xls" then name + ".xlsx" else f,
     if ext == "ppt" then name + ".pptx" else f]
  }

  /** The first name from `k` on that the cache's filename table holds. */
  function FirstCached(c: CacheState, names: seq<string>, k: nat): (r: Option<nat>)
    requires k <= |names|
    ensures r.Some? ==> k <= r.value < |names| && ByFilename(c, names[r.value]).Some?
    ensures r.Some? ==> forall j :: k <= j < r.value ==> ByFilename(c, names[j]).None?
    ensures r.None? ==> forall j :: k <= j < |names| ==> ByFilename(c, names[j]).None?
    decreases |names| - k
  {
    if k == |names| then None
    else if ByFilename(c, names[k]).Some? then Some(k)
    else FirstCached(c, names, k + 1)
  }

  /** The first name from `k` on for which the folder's listing gives a document. */
  function FirstListed(listing: string -> Option<DocRecord>, names: seq<string>, k: nat): (r: Option<nat>)
    requires k <= |names|
    ensures r.Some? ==> k <= r.value < |names| && listing(names[r.value]).Some?
    ensures r.Some? ==> forall j :: k <= j < r.value ==> listing(names[j]).None?
    ensures r.None? ==> forall j :: k <= j < |names| ==> listing(names[j]).None?
    decreases |names| - k
  {
    if k == |names| then None
    else if listing(names[k]).Some? then Some(k)
    else FirstListed(listing, names, k + 1)
  }

  /** `add_filename_mapping(variant, doc)` for every name, in order. */
  function WithNames(c: CacheState, names: seq<string>, doc: DocRecord): (r: CacheState)
    ensures forall f :: ByFilename(r, f) == if f in names then Some(doc) else ByFilename(c, f)
    ensures r.urlMapping == c.urlMapping && r.processedUrls == c.processedUrls && r.failedUrls == c.failedUrls
    decreases |names|
  {
    if names == [] then c
    else
      assert forall f :: f in names <==> f == names[0] || f in names[1..];
      WithNames(WithFilenameMapping(c, names[0], doc), names[1..], doc)
  }

  /**
   * The search of `_find_existing_document` over the name variants `names`: the record
   * found and the cache afterwards. `listing(name)` is the first document the folder's
   * search gives for the title `name`, `None` for a status other than 200 or an empty
   * page. The cache is consulted first, for every variant in order; only then is the
   * listing searched, and a document found there is stored under every variant.
   */
  function FindIn(c: CacheState, names: seq<string>, listing: string -> Option<DocRecord>): (r: (Option<DocRecord>, CacheState))
    ensures r.1.urlMapping == c.urlMapping && r.1.processedUrls == c.processedUrls && r.1.failedUrls == c.failedUrls
  {
    match FirstCached(c, names, 0)
    case Some(i) => (ByFilename(c, names[i]), c)
    case None =>
      match FirstListed(listing, names, 0)
      case Some(i) => (listing(names[i]), WithNames(c, names, listing(names[i]).value))
      case None => (None, c)
  }

  /** The name variants `_find_existing_document` searches for `filename`: those of its sanitised form. */
  function NamesOf(filename: string): (r: seq<string>)
    ensures |r| == 4 && r[0] == Sanitized(filename)
  {
    PossibleNames(Sanitized(filename))
  }

  /** `_find_existing_document(filename)`: the search over the variants of the sanitised name. */
  function FindExisting(c: CacheState, filename: string, listing: string -> Option<DocRecord>): (r: (Option<DocRecord>, CacheState))
    ensures r.1.urlMapping == c.urlMapping && r.1.processedUrls == c.processedUrls && r.1.failedUrls == c.failedUrls
  {
    FindIn(c, NamesOf(filename), listing)
  }

  /**
   * A name variant held by the cache answers the search: the first such variant's record
   * comes back, the cache is unchanged and the listing plays no part.
   */
  lemma FindInFromCache(c: CacheState, names: seq<string>, listing: string -> Option<DocRecord>,
                        other: string -> Option<DocRecord>, i: nat)
    requires i < |names| && ByFilename(c, names[i]).Some? && forall j :: 0 <= j < i ==> ByFilename(c, names[j]).None?
    ensures FindIn(c, names, listing) == (ByFilename(c, names[i]), c)
    ensures FindIn(c, names, listing) == FindIn(c, names, other)
  {
    assert FirstCached(c, names, 0) == Some(i);
  }

  /**
   * With no variant cached, the first variant the listing knows gives the document, and
   * afterwards every variant finds that document while every other name keeps its record.
   */
  lemma FindInRecordsVariants(c: CacheState, names: seq<string>, listing: string -> Option<DocRecord>, i: nat)
    requires forall j :: 0 <= j < |names| ==> ByFilename(c, names[j]).None?
    requires i < |names| && listing(names[i]).Some? && forall j :: 0 <= j < i ==> listing(names[j]).None?
    ensures var r := FindIn(c, names, listing);
      && r.0 == listing(names[i])
      && (forall j :: 0 <= j < |names| ==> ByFilename(r.1, names[j]) == listing(names[i]))
      && (forall f :: f !in names ==> ByFilename(r.1, f) == ByFilename(c, f))
  {
    assert FirstCached(c, names, 0) == None;
    assert FirstListed(listing, names, 0) == Some(i);
  }

  /** Neither the cache nor the listing knows a variant: nothing is found and nothing changes. */
  lemma FindInNotFound(c: CacheState, names: seq<string>, listing: string -> Option<DocRecord>)
    requires forall j :: 0 <= j < |names| ==> ByFilename(c, names[j]).None? && listing(names[j]).None?
    ensures FindIn(c, names, listing) == (None, c)
  {
    assert FirstCached(c, names, 0) == None;
    assert FirstListed(listing, names, 0) == None;
  }

  /**
   * Searching the same variants again after a search that found a document answers from
   * the cache with that document, changes nothing, and no longer needs the listing.
   */
  lemma FindInAgain(c: CacheState, names: seq<string>, listing: string -> Option<DocRecord>,
                    other: string -> Option<DocRecord>)
    requires names != []
    ensures var r := FindIn(c, names, listing);
      r.0.Some? ==> FindIn(r.1, names, other) == r
  {
    var r := FindIn(c, names, listing);
    if r.0.Some? && FirstCached(c, names, 0).None? {
      var i := FirstListed(listing, names, 0).value;
      assert ByFilename(r.1, names[0]) == listing(names[i]);
      assert FirstCached(r.1, names, 0) == Some(0);
    }
  }

  /** The same holds for `_find_existing_document` called twice with one file name. */
  lemma FindExistingAgain(c: CacheState, filename: string, listing: string -> Option<DocRecord>,
                          other: string -> Option<DocRecord>)
    ensures var r := FindExisting(c, filename, listing);
      r.0.Some? ==> FindExisting(r.1, filename, other) == r
  {
    FindInAgain(c, NamesOf(filename), listing, other);
  }

  /** `_find_existing_document`: the name sanitised, then its variants searched. */
  method FindExistingDocument(cache: DocumentCache, filename: string, listing: string -> Option<DocRecord>)
    returns (found: Option<DocRecord>)
    modifies cache
    ensures (found, cache.Contents()) == FindExisting(old(cache.Contents()), filename, listing)
  {
    var f := SanitizeFilename(filename);
    found := SearchVariants(cache, PossibleNames(f), listing);
    assert PossibleNames(f) == NamesOf(filename);
  }

  /** The loops of `_find_existing_document`: the cache for every variant, then the listing, then the recording. */
  method SearchVariants(cache: DocumentCache, names: seq<string>, listing: string -> Option<DocRecord>)
    returns (found: Option<DocRecord>)
    modifies cache
    ensures (found, cache.Contents()) == FindIn(old(cache.Contents()), names, listing)
  {
    for i := 0 to |names|
      invariant FirstCached(cache.Contents(), names, 0) == FirstCached(cache.Contents(), names, i)
      invariant cache.Contents() == old(cache.Contents())
    {
      var cachedDoc := cache.GetByFilename(names[i]);
      if cachedDoc.Some? {
        return cachedDoc;
      }
    }
    for i := 0 to |names|
      invariant FirstListed(listing, names, 0) == FirstListed(listing, names, i)
      invariant cache.Contents() == old(cache.Contents())
    {
      var item := listing(names[i]);
      if item.Some? {
        for v := 0 to |names|
          invariant WithNames(old(cache.Contents()), names, item.value) == WithNames(cache.Contents(), names[v..], item.value)
        {
          assert names[v..][1..] == names[v + 1..];
          cache.AddFilenameMapping(names[v], item.value);
        }
        assert names[|names|..] == [];
        return item;
      }
    }
    return None;
  }

  // ---------------------------------------------------------------- migrate_document

  const MaxRetries: nat := 3

  /** What the caller's environment observes: a download of the URL, or a pause in seconds. */
  datatype Event = Download(url: string) | Sleep(seconds: nat)

  /**
   * The server's answer to the upload: a 200 or 201, with whether its body has a truthy
   * `id` and the `contentUrl` that `get_friendly_url` then reads (`""` when it reads none);
   * a 409 conflict; or any other status.
   */
  datatype UploadReply = Uploaded(hasId: bool, contentUrl: string) | Conflict | UploadRefused

  /**
   * How one attempt's download goes: refused (a status other than 200, or no content), or
   * read, with the clock reading `_extract_filename` may use and the upload's answer.
   */
  datatype AttemptReply = DownloadRefused | Downloaded(timestamp: string, upload: UploadReply)

  /** How one attempt past the claim ends: a Liferay URL for the document, no URL without an error, or an exception. */
  datatype DownloadOutcome = Migrated(liferayUrl: string) | Unfinished | Raised

  /** The outcome of one attempt and the cache it leaves. */
  datatype AttemptEnd = AttemptEnd(outcome: DownloadOutcome, cache: CacheState)

  /** `existing_doc.get('contentUrl')` when both are truthy. */
  function ExistingUrl(found: Option<DocRecord>): Option<string>
  {
    if found.Some? && found.value.contentUrl != [] then Some(found.value.contentUrl) else None
  }

  /** What `get_friendly_url` gives for an uploaded document: the cleaned `contentUrl`, or `""`. */
  function FriendlyUrl(hasId: bool, contentUrl: string): string
  {
    if hasId && contentUrl != [] then CleanDocumentUrl(contentUrl) else []
  }

  /** The name `migrate_document` gives the file downloaded from `url` at the clock reading `timestamp`. */
  function AttemptFilename(url: string, timestamp: string): string
  {
    Sanitized(ExtractFilename(url, "", timestamp))
  }

  /**
   * The body of the `try` of `migrate_document` past the claim, on the claimed cache: the
   * download, then what follows it.
   */
  function AttemptRun(c: CacheState, url: string, reply: AttemptReply, listing: string -> Option<DocRecord>): (r: AttemptEnd)
    ensures r.cache.urlMapping == c.urlMapping && r.cache.processedUrls == c.processedUrls
    ensures r.cache.failedUrls == c.failedUrls
  {
    match reply
    case DownloadRefused => AttemptEnd(Raised, c)
    case Downloaded(timestamp, upload) =>
      var filename := AttemptFilename(url, timestamp);
      AfterDownload(c, NamesOf(filename), NamesOf(Replace(filename, " ", "%20")), upload, listing)
  }

  /**
   * What follows a download: the search for an existing document under the file's name
   * variants `names`, then the upload with its conflict handling. `encodedNames` are the
   * variants of the name with `%20` for its spaces.
   */
  function AfterDownload(c: CacheState, names: seq<string>, encodedNames: seq<string>, upload: UploadReply,
                         listing: string -> Option<DocRecord>): (r: AttemptEnd)
    ensures r.cache.urlMapping == c.urlMapping && r.cache.processedUrls == c.processedUrls
    ensures r.cache.failedUrls == c.failedUrls
  {
    var (found, c1) := FindIn(c, names, listing);
    if ExistingUrl(found).Some? then AttemptEnd(Migrated(ExistingUrl(found).value), c1)
    else
      match upload
      case Uploaded(hasId, contentUrl) =>
        var friendly := FriendlyUrl(hasId, contentUrl);
        if friendly != [] then AttemptEnd(Migrated(friendly), c1) else AttemptEnd(Unfinished, c1)
      case Conflict =>
        var (again, c2) := FindIn(c1, names, listing);
        if ExistingUrl(again).Some? then AttemptEnd(Migrated(ExistingUrl(again).value), c2)
        else
          var (encoded, c3) := FindIn(c2, encodedNames, listing);
          if ExistingUrl(encoded).Some? then AttemptEnd(Migrated(ExistingUrl(encoded).value), c3)
          else AttemptEnd(Raised, c3)
      case UploadRefused => AttemptEnd(Raised, c1)
  }

  /** A refused download raises and leaves the cache alone. */
  lemma RefusedDownloadRaises(c: CacheState, url: string, listing: string -> Option<DocRecord>)
    ensures AttemptRun(c, url, DownloadRefused, listing) == AttemptEnd(Raised, c)
  {
  }

  /**
   * A document already known under one of the file's name variants is reused, whatever
   * the upload would answer, and the cache is left as the search leaves it.
   */
  lemma ExistingDocumentReused(c: CacheState, names: seq<string>, encodedNames: seq<string>, upload: UploadReply,
                               listing: string -> Option<DocRecord>)
    ensures var search := FindIn(c, names, listing);
      ExistingUrl(search.0).Some? ==>
        AfterDownload(c, names, encodedNames, upload, listing) == AttemptEnd(Migrated(ExistingUrl(search.0).value), search.1)
  {
  }

  /**
   * On a conflict the repeated search for the same name is bound to give the first
   * search's answer (which the cache now holds), so only the `%20` variants can still
   * find a document.
   */
  lemma ConflictRepeatsSearch(c: CacheState, names: seq<string>, encodedNames: seq<string>, listing: string -> Option<DocRecord>)
    requires names != []
    ensures var search := FindIn(c, names, listing);
      var encoded := FindIn(search.1, encodedNames, listing);
      ExistingUrl(search.0).None? ==>
        AfterDownload(c, names, encodedNames, Conflict, listing) ==
          (if ExistingUrl(encoded.0).Some? then AttemptEnd(Migrated(ExistingUrl(encoded.0).value), encoded.1)
           else AttemptEnd(Raised, encoded.1))
  {
    var search := FindIn(c, names, listing);
    if search.0.Some? {
      FindInAgain(c, names, listing, listing);
    } else {
      FindInMissTwice(c, names, listing);
    }
  }

  /** A search that found nothing changed nothing, so searching again finds nothing either. */
  lemma FindInMissTwice(c: CacheState, names: seq<string>, listing: string -> Option<DocRecord>)
    requires FindIn(c, names, listing).0.None?
    ensures FindIn(c, names, listing) == (None, c)
  {
  }

  /** An upload that answers with an ID and a `contentUrl` always migrates the document. */
  lemma UploadedMigrates(c: CacheState, names: seq<string>, encodedNames: seq<string>, contentUrl: string,
                         listing: string -> Option<DocRecord>)
    requires contentUrl != []
    ensures AfterDownload(c, names, encodedNames, Uploaded(true, contentUrl), listing).outcome.Migrated?
  {
    CleanDocumentUrlNonEmpty(contentUrl);
  }

  /** `_clean_document_url` never empties a URL. */
  lemma CleanDocumentUrlNonEmpty(url: string)
    requires url != []
    ensures CleanDocumentUrl(url) != []
  {
    var i := FirstExtensionIn(Lower(url), MimeTypes);
    if i.Some? {
      MimeKeysListed();
      assert MimeTypes[i.value].0 != [];
    }
  }

  /**
   * One attempt past the claim as the retry loop sees it: from the claimed cache and the
   * number of failures so far, its outcome and the cache it leaves.
   */
  type Attempt = (CacheState, nat) -> AttemptEnd

  /** An attempt leaves the URL mapping and the processed and failed URLs as they were. */
  ghost predicate KeepsUrls(attempt: Attempt)
  {
    forall c: CacheState, k: nat ::
      attempt(c, k).cache.urlMapping == c.urlMapping && attempt(c, k).cache.processedUrls == c.processedUrls
      && attempt(c, k).cache.failedUrls == c.failedUrls
  }

  /** The attempts of `migrate_document(url)`: attempt `k` runs on the server's and the clock's `replies(k)`. */
  function AttemptOf(url: string, replies: nat -> AttemptReply, listing: string -> Option<DocRecord>): (r: Attempt)
    ensures RunsAs(r, url, replies, listing)
  {
    (c: CacheState, k: nat) => AttemptRun(c, url, replies(k), listing)
  }

  /** `attempt` runs as `AttemptRun` on the replies; the fact is used only where an `AttemptRun` term is at hand. */
  ghost predicate RunsAs(attempt: Attempt, url: string, replies: nat -> AttemptReply, listing: string -> Option<DocRecord>)
  {
    forall c: CacheState, k: nat {:trigger AttemptRun(c, url, replies(k), listing)} ::
      attempt(c, k) == AttemptRun(c, url, replies(k), listing)
  }

  /** The attempts of `migrate_document` keep the URL mapping and the processed and failed URLs. */
  lemma AttemptOfKeepsUrls(url: string, replies: nat -> AttemptReply, listing: string -> Option<DocRecord>)
    ensures KeepsUrls(AttemptOf(url, replies, listing))
  {
    var attempt := AttemptOf(url, replies, listing);
    forall c: CacheState, k: nat
      ensures attempt(c, k).cache.urlMapping == c.urlMapping && attempt(c, k).cache.processedUrls == c.processedUrls
      ensures attempt(c, k).cache.failedUrls == c.failedUrls
    {
      assert attempt(c, k) == AttemptRun(c, url, replies(k), listing);
    }
  }

  /** The value `migrate_document` returns, the cache afterwards and the events on the way. */
  datatype MigrateRun = MigrateRun(result: Option<string>, cache: CacheState, events: seq<Event>)

  function AfterEvents(pre: seq<Event>, run: MigrateRun): MigrateRun
  {
    run.(events := pre + run.events)
  }

  /** Events recorded in two stretches are the events of both, in order. */
  lemma AfterEventsJoin(a: seq<Event>, b: seq<Event>, run: MigrateRun)
    ensures AfterEvents(a, AfterEvents(b, run)) == AfterEvents(a + b, run)
  {
    assert a + (b + run.events) == (a + b) + run.events;
  }

  lemma EventsAssoc(a: seq<Event>, b: seq<Event>, c: seq<Event>)
    ensures (a + b) + c == a + (b + c)
  {
  }

  /** A cached URL counts only when it is not empty, as Python's truth test has it. */
  predicate HasMapping(c: CacheState, url: string)
  {
    ByUrl(c, url).Some? && ByUrl(c, url).value != []
  }

  /** How many downloads a sequence of events holds. */
  function Downloads(events: seq<Event>): nat
  {
    if events == [] then 0 else (if events[0].Download? then 1 else 0) + Downloads(events[1..])
  }

  /** A download followed by a pause counts as one download. */
  lemma DownloadThenSleep(url: string, seconds: nat)
    ensures Downloads([Download(url), Sleep(seconds)]) == 1
  {
    assert [Download(url), Sleep(seconds)][1..] == [Sleep(seconds)];
    assert Downloads([Sleep(seconds)]) == 0;
  }

  lemma DownloadsAppend(a: seq<Event>, b: seq<Event>)
    ensures Downloads(a + b) == Downloads(a) + Downloads(b)
  {
    if a != [] {
      assert (a + b)[0] == a[0] && (a + b)[1..] == a[1..] + b;
      DownloadsAppend(a[1..], b);
    } else {
      assert a + b == b;
    }
  }

  /**
   * The `while retry_count < max_retries` loop of `migrate_document` as written, from the
   * iteration with `retries` failures so far and the pause `backoff`.
   */
  function MigrateFrom(c: CacheState, url: string, attempt: Attempt, retries: nat, backoff: nat): MigrateRun
    decreases MaxRetries - retries
  {
    if retries >= MaxRetries then MigrateRun(None, c, [])
    else if !IsValidFileUrl(url) then MigrateRun(None, c, [])
    else if HasMapping(c, url) then MigrateRun(ByUrl(c, url), c, [])
    else if url in c.processedUrls then MigrateRun(None, c, [])
    else
      var end := attempt(WithUrlMapping(c, url, None), retries);
      match end.outcome
      case Migrated(u) => MigrateRun(Some(u), WithUrlMapping(end.cache, url, Some(u)), [Download(url)])
      case Unfinished => MigrateRun(None, end.cache, [Download(url)])
      case Raised =>
        if retries + 1 < MaxRetries then
          AfterEvents([Download(url), Sleep(backoff)], MigrateFrom(end.cache, url, attempt, retries + 1, backoff * 2))
        else MigrateRun(None, WithFailed(end.cache, url), [Download(url)])
  }

  /** The loop as written from its first iteration, for any attempts. */
  function MigrateWith(c: CacheState, url: string, attempt: Attempt): MigrateRun
  {
    MigrateFrom(c, url, attempt, 0, 1)
  }

  /**
   * `migrate_document(url)` as written: `replies(k)` is what the server and the clock do
   * on the attempt after `k` failures, and `listing` is the folder's search.
   */
  function Migrate(c: CacheState, url: string, replies: nat -> AttemptReply, listing: string -> Option<DocRecord>): MigrateRun
  {
    MigrateWith(c, url, AttemptOf(url, replies, listing))
  }

  /** A URL that is not a file to migrate is left alone: nothing is downloaded or cached. */
  lemma MigrateRejectsInvalidUrl(c: CacheState, url: string, attempt: Attempt)
    requires !IsValidFileUrl(url)
    ensures MigrateWith(c, url, attempt) == MigrateRun(None, c, [])
  {
  }

  /** A URL already mapped is answered from the cache. */
  lemma MigrateUsesCache(c: CacheState, url: string, attempt: Attempt)
    requires IsValidFileUrl(url) && HasMapping(c, url)
    ensures MigrateWith(c, url, attempt) == MigrateRun(ByUrl(c, url), c, [])
  {
  }

  /** A URL processed before without a usable mapping gives nothing and changes nothing. */
  lemma MigrateSkipsProcessed(c: CacheState, url: string, attempt: Attempt)
    requires IsValidFileUrl(url) && !HasMapping(c, url) && url in c.processedUrls
    ensures MigrateWith(c, url, attempt) == MigrateRun(None, c, [])
  {
  }

  /**
   * A fresh URL whose first download finds a document known under one of its name
   * variants is mapped to that document's URL, after one download, with the filename
   * table as the search leaves it.
   */
  lemma MigrateReusesExisting(c: CacheState, url: string, replies: nat -> AttemptReply, listing: string -> Option<DocRecord>)
    requires IsValidFileUrl(url) && !HasMapping(c, url) && url !in c.processedUrls && replies(0).Downloaded?
    ensures var claimed := WithUrlMapping(c, url, None);
      var search := FindExisting(claimed, AttemptFilename(url, replies(0).timestamp), listing);
      ExistingUrl(search.0).Some? ==>
        Migrate(c, url, replies, listing) ==
          MigrateRun(ExistingUrl(search.0), WithUrlMapping(search.1, url, ExistingUrl(search.0)), [Download(url)])
  {
    var claimed := WithUrlMapping(c, url, None);
    var attempt := AttemptOf(url, replies, listing);
    assert attempt(claimed, 0) == AttemptRun(claimed, url, replies(0), listing);
    var filename := AttemptFilename(url, replies(0).timestamp);
    ExistingDocumentReused(claimed, NamesOf(filename), NamesOf(Replace(filename, " ", "%20")), replies(0).upload, listing);
  }

  /** Every run keeps failed URLs among the processed ones. */
  lemma {:induction false} MigrateKeepsCacheValid(c: CacheState, url: string, attempt: Attempt, retries: nat, backoff: nat)
    requires ValidCache(c) && KeepsUrls(attempt)
    ensures ValidCache(MigrateFrom(c, url, attempt, retries, backoff).cache)
    decreases MaxRetries - retries
  {
    if retries < MaxRetries && IsValidFileUrl(url) && !HasMapping(c, url) && url !in c.processedUrls {
      var end := attempt(WithUrlMapping(c, url, None), retries);
      assert ValidCache(end.cache);
      if end.outcome.Raised? && retries + 1 < MaxRetries {
        MigrateKeepsCacheValid(end.cache, url, attempt, retries + 1, backoff * 2);
      }
    }
  }

  /**
   * As written, the claim made before the download defeats the retries: the URL is
   * downloaded at most once, a failed attempt never marks it as failed, and after a
   * failure the run pauses once and gives nothing, whatever later attempts would do,
   * keeping the claim and what the failed attempt stored in the filename table.
   */
  lemma MigrateDownloadsAtMostOnce(c: CacheState, url: string, attempt: Attempt)
    requires KeepsUrls(attempt)
    ensures Downloads(MigrateWith(c, url, attempt).events) <= 1
    ensures MigrateWith(c, url, attempt).cache.failedUrls == c.failedUrls
    ensures var end := attempt(WithUrlMapping(c, url, None), 0);
      IsValidFileUrl(url) && !HasMapping(c, url) && url !in c.processedUrls && end.outcome.Raised? ==>
      && MigrateWith(c, url, attempt).result == None
      && MigrateWith(c, url, attempt).events == [Download(url), Sleep(1)]
      && MigrateWith(c, url, attempt).cache == end.cache
  {
    if IsValidFileUrl(url) && !HasMapping(c, url) && url !in c.processedUrls {
      var claimed := WithUrlMapping(c, url, None);
      var end := attempt(claimed, 0);
      if end.outcome.Raised? {
        assert ByUrl(end.cache, url) == ByUrl(claimed, url);
        assert !HasMapping(end.cache, url) && url in end.cache.processedUrls;
        assert MigrateFrom(end.cache, url, attempt, 1, 2) == MigrateRun(None, end.cache, []);
        assert MigrateWith(c, url, attempt).events == [Download(url), Sleep(1)] + [];
        assert [Download(url), Sleep(1)] + [] == [Download(url), Sleep(1)];
        DownloadThenSleep(url, 1);
      } else {
        assert Downloads([Download(url)]) == 1;
      }
    }
  }

  /** A refused first download leaves only the claim behind. */
  lemma MigrateRefusedLeavesClaim(c: CacheState, url: string, replies: nat -> AttemptReply, listing: string -> Option<DocRecord>)
    requires IsValidFileUrl(url) && !HasMapping(c, url) && url !in c.processedUrls && replies(0).DownloadRefused?
    ensures Migrate(c, url, replies, listing) == MigrateRun(None, WithUrlMapping(c, url, None), [Download(url), Sleep(1)])
  {
    var attempt := AttemptOf(url, replies, listing);
    var claimed := WithUrlMapping(c, url, None);
    assert attempt(claimed, 0) == AttemptRun(claimed, url, replies(0), listing);
    AttemptOfKeepsUrls(url, replies, listing);
    MigrateDownloadsAtMostOnce(c, url, attempt);
  }

  /**
   * The evidently intended retries, from the attempt after `k` failures on a claimed URL:
   * each failure pauses and downloads again, and the last one marks the URL as failed.
   */
  function RetryDownloads(c: CacheState, url: string, attempt: Attempt, k: nat, backoff: nat): MigrateRun
    decreases MaxRetries - k
  {
    var end := attempt(c, k);
    match end.outcome
    case Migrated(u) => MigrateRun(Some(u), WithUrlMapping(end.cache, url, Some(u)), [Download(url)])
    case Unfinished => MigrateRun(None, end.cache, [Download(url)])
    case Raised =>
      if k + 1 < MaxRetries then
        AfterEvents([Download(url), Sleep(backoff)], RetryDownloads(end.cache, url, attempt, k + 1, backoff * 2))
      else MigrateRun(None, WithFailed(end.cache, url), [Download(url)])
  }

  /** The evidently intended loop: check and claim once, then retry the download. */
  function IntendedWith(c: CacheState, url: string, attempt: Attempt): MigrateRun
  {
    if !IsValidFileUrl(url) then MigrateRun(None, c, [])
    else if HasMapping(c, url) then MigrateRun(ByUrl(c, url), c, [])
    else if url in c.processedUrls then MigrateRun(None, c, [])
    else RetryDownloads(WithUrlMapping(c, url, None), url, attempt, 0, 1)
  }

  /** The evidently intended `migrate_document(url)`, on the same replies as `Migrate`. */
  function MigrateIntended(c: CacheState, url: string, replies: nat -> AttemptReply, listing: string -> Option<DocRecord>): MigrateRun
  {
    IntendedWith(c, url, AttemptOf(url, replies, listing))
  }

  /** The cache after attempts `k` up to `j` when each of them raised, and `None` otherwise. */
  function RaisedUpTo(c: CacheState, attempt: Attempt, k: nat, j: nat): Option<CacheState>
    requires k <= j
    decreases j - k
  {
    if k == j then Some(c)
    else
      var end := attempt(c, k);
      if end.outcome.Raised? then RaisedUpTo(end.cache, attempt, k + 1, j) else None
  }

  /**
   * With the intended retries, the first attempt that does not raise decides the run
   * (after one download per failure before it), and three failures mark the URL failed.
   */
  lemma {:induction false} RetryDownloadsOutcome(c: CacheState, url: string, attempt: Attempt, k: nat, backoff: nat)
    requires k < MaxRetries
    ensures var run := RetryDownloads(c, url, attempt, k, backoff);
      && 1 <= Downloads(run.events) <= MaxRetries - k
      && (RaisedUpTo(c, attempt, k, MaxRetries).Some? ==>
            run.result == None && url in run.cache.failedUrls && Downloads(run.events) == MaxRetries - k)
      && (forall j: nat :: (k <= j < MaxRetries && RaisedUpTo(c, attempt, k, j).Some? &&
            attempt(RaisedUpTo(c, attempt, k, j).value, j).outcome.Migrated?) ==>
            var u := attempt(RaisedUpTo(c, attempt, k, j).value, j).outcome.liferayUrl;
            run.result == Some(u) && Downloads(run.events) == j - k + 1 && ByUrl(run.cache, url) == Some(u))
    decreases MaxRetries - k
  {
    var run := RetryDownloads(c, url, attempt, k, backoff);
    var end := attempt(c, k);
    assert RaisedUpTo(c, attempt, k, k) == Some(c);
    if end.outcome.Raised? {
      if k + 1 < MaxRetries {
        RetryDownloadsOutcome(end.cache, url, attempt, k + 1, backoff * 2);
        var rest := RetryDownloads(end.cache, url, attempt, k + 1, backoff * 2);
        DownloadsAppend([Download(url), Sleep(backoff)], rest.events);
        DownloadThenSleep(url, backoff);
        forall j: nat | k + 1 <= j <= MaxRetries
          ensures RaisedUpTo(c, attempt, k, j) == RaisedUpTo(end.cache, attempt, k + 1, j)
        {
        }
      } else {
        assert Downloads([Download(url)]) == 1;
        assert RaisedUpTo(c, attempt, k, MaxRetries) == Some(end.cache);
      }
    } else {
      assert Downloads([Download(url)]) == 1;
      assert RaisedUpTo(c, attempt, k, MaxRetries) == None;
    }
  }

  /**
   * The two versions part on a fresh URL whose first attempt raises and whose second
   * migrates: as written the run gives nothing, while the intended run returns the second
   * attempt's URL and caches it.
   */
  lemma MigrateRetryDiscrepancy(c: CacheState, url: string, attempt: Attempt)
    requires KeepsUrls(attempt)
    requires IsValidFileUrl(url) && !HasMapping(c, url) && url !in c.processedUrls
    requires var first := attempt(WithUrlMapping(c, url, None), 0);
      first.outcome.Raised? && attempt(first.cache, 1).outcome.Migrated?
    ensures var first := attempt(WithUrlMapping(c, url, None), 0);
      var u := attempt(first.cache, 1).outcome.liferayUrl;
      && MigrateWith(c, url, attempt).result == None
      && IntendedWith(c, url, attempt).result == Some(u)
      && ByUrl(IntendedWith(c, url, attempt).cache, url) == Some(u)
  {
    MigrateDownloadsAtMostOnce(c, url, attempt);
    var claimed := WithUrlMapping(c, url, None);
    var first := attempt(claimed, 0);
    assert RaisedUpTo(claimed, attempt, 0, 1) == Some(first.cache);
    RetryDownloadsOutcome(claimed, url, attempt, 0, 1);
  }

  /**
   * The discrepancy on concrete answers, for the attempts of `migrate_document` on them
   * (`Migrate` and `MigrateIntended` use `AttemptOf`, which runs so): a refused first
   * download, then a download whose upload answers with an ID and a URL.
   */
  lemma MigrateRetryDiscrepancyUploaded(c: CacheState, url: string, timestamp: string, contentUrl: string,
                                        listing: string -> Option<DocRecord>, attempt: Attempt)
    requires IsValidFileUrl(url) && !HasMapping(c, url) && url !in c.processedUrls && contentUrl != []
    requires RunsAs(attempt, url, (k: nat) => if k == 0 then DownloadRefused else Downloaded(timestamp, Uploaded(true, contentUrl)),
                    listing)
    requires KeepsUrls(attempt)
    ensures MigrateWith(c, url, attempt).result == None
    ensures IntendedWith(c, url, attempt).result.Some?
  {
    var replies := (k: nat) => if k == 0 then DownloadRefused else Downloaded(timestamp, Uploaded(true, contentUrl));
    var claimed := WithUrlMapping(c, url, None);
    assert attempt(claimed, 0) == AttemptEnd(Raised, claimed) by {
      assert replies(0) == DownloadRefused;
      RefusedDownloadRaises(claimed, url, listing);
    }
    assert attempt(claimed, 1).outcome.Migrated? by {
      var filename := AttemptFilename(url, timestamp);
      assert replies(1) == Downloaded(timestamp, Uploaded(true, contentUrl));
      UploadedMigrates(claimed, NamesOf(filename), NamesOf(Replace(filename, " ", "%20")), contentUrl, listing);
      assert AttemptRun(claimed, url, replies(1), listing) ==
        AfterDownload(claimed, NamesOf(filename), NamesOf(Replace(filename, " ", "%20")), Uploaded(true, contentUrl), listing);
    }
    MigrateRetryDiscrepancy(c, url, attempt);
  }

  /** The concrete discrepancy holds for `migrate_document`'s own attempts. */
  lemma MigrateRetryDiscrepancyReplies(c: CacheState, url: string, timestamp: string, contentUrl: string,
                                       listing: string -> Option<DocRecord>)
    requires IsValidFileUrl(url) && !HasMapping(c, url) && url !in c.processedUrls && contentUrl != []
    ensures var replies := (k: nat) => if k == 0 then DownloadRefused else Downloaded(timestamp, Uploaded(true, contentUrl));
      && Migrate(c, url, replies, listing).result == None
      && MigrateIntended(c, url, replies, listing).result.Some?
  {
    var replies := (k: nat) => if k == 0 then DownloadRefused else Downloaded(timestamp, Uploaded(true, contentUrl));
    AttemptOfKeepsUrls(url, replies, listing);
    MigrateRetryDiscrepancyUploaded(c, url, timestamp, contentUrl, listing, AttemptOf(url, replies, listing));
  }

  class DocumentCreatorState {
    const cache: DocumentCache
    var events: seq<Event>

    constructor ()
      ensures fresh(cache) && cache.Contents() == EmptyCache && events == []
    {
      cache := new DocumentCache();
      events := [];
    }

    /** The `try` body of one attempt past the claim: the outcome and the cache are those `AttemptRun` describes. */
    method RunAttempt(docUrl: string, reply: AttemptReply, listing: string -> Option<DocRecord>) returns (o: DownloadOutcome)
      modifies cache
      ensures AttemptEnd(o, cache.Contents()) == AttemptRun(old(cache.Contents()), docUrl, reply, listing)
    {
      if reply.DownloadRefused? {
        return Raised;
      }
      var filename := SanitizeFilename(ExtractFilename(docUrl, "", reply.timestamp));
      o := Upload(filename, reply.upload, listing);
    }

    /** Attempt `k` of the retry loop, seen as `attempt` sees it. */
    method RunRetry(docUrl: string, replies: nat -> AttemptReply, listing: string -> Option<DocRecord>,
                    ghost attempt: Attempt, k: nat) returns (o: DownloadOutcome)
      requires RunsAs(attempt, docUrl, replies, listing)
      modifies cache
      ensures AttemptEnd(o, cache.Contents()) == attempt(old(cache.Contents()), k)
    {
      o := RunAttempt(docUrl, replies(k), listing);
    }

    /** The search, the upload and, on a conflict, the two further searches, as `AfterDownload` describes. */
    method Upload(filename: string, upload: UploadReply, listing: string -> Option<DocRecord>) returns (o: DownloadOutcome)
      modifies cache
      ensures AttemptEnd(o, cache.Contents()) ==
        AfterDownload(old(cache.Contents()), NamesOf(filename), NamesOf(Replace(filename, " ", "%20")), upload, listing)
    {
      var existing := FindExistingDocument(cache, filename, listing);
      if ExistingUrl(existing).Some? {
        return Migrated(ExistingUrl(existing).value);
      }
      match upload
      case Uploaded(hasId, contentUrl) =>
        var friendly := FriendlyUrl(hasId, contentUrl);
        if friendly != [] {
          return Migrated(friendly);
        }
        return Unfinished;
      case Conflict =>
        existing := FindExistingDocument(cache, filename, listing);
        if ExistingUrl(existing).Some? {
          return Migrated(ExistingUrl(existing).value);
        }
        existing := FindExistingDocument(cache, Replace(filename, " ", "%20"), listing);
        if ExistingUrl(existing).Some? {
          return Migrated(ExistingUrl(existing).value);
        }
        return Raised;
      case UploadRefused =>
        return Raised;
    }

    /**
     * `migrate_document(doc_url)`: the retry loop as written, over the shared cache. Every
     * change to the cache, the filename table included, and every event is the one
     * `Migrate` describes.
     */
    method MigrateDocument(docUrl: string, replies: nat -> AttemptReply, listing: string -> Option<DocRecord>)
      returns (r: Option<string>)
      modifies this, cache
      ensures var run := Migrate(old(cache.Contents()), docUrl, replies, listing);
        r == run.result && cache.Contents() == run.cache && events == old(events) + run.events
    {
      r := RetryLoop(docUrl, replies, listing, AttemptOf(docUrl, replies, listing));
    }

    /**
     * One pass of the `while` loop: the three checks, the claim, the attempt, and on an
     * exception the pause before the next pass (`again`) or, after the last attempt, the
     * failure mark. `run` is the rest of the loop from this pass on.
     */
    method Pass(docUrl: string, replies: nat -> AttemptReply, listing: string -> Option<DocRecord>,
                ghost attempt: Attempt, k: nat, backoff: nat) returns (again: bool, r: Option<string>)
      requires RunsAs(attempt, docUrl, replies, listing) && k < MaxRetries
      modifies this, cache
      ensures var run := MigrateFrom(old(cache.Contents()), docUrl, attempt, k, backoff);
        && (!again ==> r == run.result && cache.Contents() == run.cache && events == old(events) + run.events)
        && (again ==>
              && k + 1 < MaxRetries && events == old(events) + [Download(docUrl), Sleep(backoff)]
              && run == AfterEvents([Download(docUrl), Sleep(backoff)],
                                    MigrateFrom(cache.Contents(), docUrl, attempt, k + 1, backoff * 2)))
    {
      ghost var start := cache.Contents();
      if !IsValidFileUrl(docUrl) {
        return false, None;
      }
      var cachedUrl := cache.GetByUrl(docUrl);
      if cachedUrl.Some? && cachedUrl.value != [] {
        return false, cachedUrl;
      }
      if cache.IsProcessed(docUrl) {
        return false, None;
      }
      cache.AddUrlMapping(docUrl, None);
      events := events + [Download(docUrl)];
      ghost var end := attempt(WithUrlMapping(start, docUrl, None), k);
      var outcome := RunRetry(docUrl, replies, listing, attempt, k);
      match outcome
      case Migrated(u) =>
        cache.AddUrlMapping(docUrl, Some(u));
        return false, Some(u);
      case Unfinished =>
        return false, None;
      case Raised =>
        if k + 1 < MaxRetries {
          events := events + [Sleep(backoff)];
          return true, None;
        }
        cache.MarkFailed(docUrl);
        return false, None;
    }

    /** The loop of `migrate_document`, for attempts that run as `AttemptRun` does. */
    method RetryLoop(docUrl: string, replies: nat -> AttemptReply, listing: string -> Option<DocRecord>,
                     ghost attempt: Attempt) returns (r: Option<string>)
      requires RunsAs(attempt, docUrl, replies, listing)
      modifies this, cache
      ensures var run := MigrateWith(old(cache.Contents()), docUrl, attempt);
        r == run.result && cache.Contents() == run.cache && events == old(events) + run.events
    {
      ghost var whole := MigrateWith(cache.Contents(), docUrl, attempt);
      var retryCount: nat := 0;
      var backoffTime: nat := 1;
      ghost var done: seq<Event> := [];
      while retryCount < MaxRetries
        invariant whole == AfterEvents(done, MigrateFrom(cache.Contents(), docUrl, attempt, retryCount, backoffTime))
        invariant events == old(events) + done
        decreases MaxRetries - retryCount
      {
        ghost var rest := MigrateFrom(cache.Contents(), docUrl, attempt, retryCount, backoffTime);
        var again, result := Pass(docUrl, replies, listing, attempt, retryCount, backoffTime);
        if !again {
          EventsAssoc(old(events), done, rest.events);
          return result;
        }
        AfterEventsJoin(done, [Download(docUrl), Sleep(backoffTime)],
                        MigrateFrom(cache.Contents(), docUrl, attempt, retryCount + 1, backoffTime * 2));
        done := done + [Download(docUrl), Sleep(backoffTime)];
        retryCount := retryCount + 1;
        backoffTime := backoffTime * 2;
      }
      assert MigrateFrom(cache.Contents(), docUrl, attempt, retryCount, backoffTime) == MigrateRun(None, cache.Contents(), []);
      assert done + [] == done;
      return None;
    }
  }
}
