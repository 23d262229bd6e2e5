/**
 * `UrlUtils`: the site root of a URL (`extract_domain`) and the absolute URL of a
 * spreadsheet cell (`build_url`), which may carry a "usar a url:" label.
 */
module UrlUtils {
  import opened Wrappers
  import opened PyStr
  import opened UrlParse

  // ---------------------------------------------------------------- extract_domain

  /** The text `extract_domain` parses: `https://` is put in front of anything not starting with `http`. */
  function WithScheme(url: string): string
  {
    if StartsWith(url, "http") then url else "https://" + LStrip(url, {'/'})
  }

  /** `UrlUtils.extract_domain(url)`: `scheme://netloc`, or `""` for an empty text or a parse error. */
  function ExtractDomain(url: string): (r: string)
    ensures url == [] ==> r == []
    ensures Parse(WithScheme(url)).None? ==> r == []
  {
    if url == [] then []
    else
      match Parse(WithScheme(url))
      case None => []
      case Some(p) => p.scheme + "://" + p.netloc
  }

  /** A URL with a scheme and a host yields that scheme and host. */
  lemma ExtractDomainAbsolute(scheme: string, host: string, rest: string)
    requires IsHostUrl(scheme, host, rest)
    ensures ExtractDomain(scheme + "://" + host + rest) == scheme + "://" + host
  {
    var url := scheme + "://" + host + rest;
    assert StartsWith(url, "http") by { assert url[..4] == scheme[..4] == "http"; }
    ParseAbsolute(scheme, host, rest);
  }

  lemma HttpsPrefix()
    ensures "https" + "://" == "https://"
  {
  }

  lemma BareHostWithScheme(url: string, host: string, rest: string)
    requires !StartsWith(url, "http")
    requires LStrip(url, {'/'}) == host + rest
    ensures WithScheme(url) == "https" + "://" + host + rest
  {
    assert "https://" + (host + rest) == "https" + "://" + host + rest;
  }

  /** A host written without a scheme, possibly after slashes, is taken to be `https`. */
  lemma ExtractDomainBareHost(url: string, host: string, rest: string)
    requires url != [] && !StartsWith(url, "http")
    requires LStrip(url, {'/'}) == host + rest
    requires IsHostUrl("https", host, rest)
    ensures ExtractDomain(url) == "https://" + host
  {
    BareHostWithScheme(url, host, rest);
    ParseAbsolute("https", host, rest);
    HttpsPrefix();
  }

  // ---------------------------------------------------------------- build_url

  /** The labels a spreadsheet cell may put in front of a URL, tried in this order. */
  const Prefixes: seq<string> := ["usar a url:", "usar a url", "url:", "url"]

  /** The characters `build_url` trims from both ends after removing a label. */
  const UrlTrim: set<char> := {'/', ' ', '\t', '\n', '\r'}

  /** The first label of `prefixes` that starts `u` is removed, and the rest stripped. */
  function RemovePrefix(u: string, prefixes: seq<string>): string
  {
    if prefixes == [] then u
    else if StartsWith(u, prefixes[0]) then Strip(u[|prefixes[0]|..])
    else RemovePrefix(u, prefixes[1..])
  }

  /** The cell text after lower-casing, label removal and trimming. */
  function Relative(url: string): (r: string)
    ensures r != [] ==> r[0] !in UrlTrim && r[|r| - 1] !in UrlTrim
  {
    StripEnds(RemovePrefix(Strip(Lower(url)), Prefixes), UrlTrim);
    StripChars(RemovePrefix(Strip(Lower(url)), Prefixes), UrlTrim)
  }

  predicate IsAbsolute(u: string) { StartsWith(u, "http://") || StartsWith(u, "https://") }

  /** The URL `build_url` returns. */
  function Built(url: string, baseDomain: string): string
  {
    if url == [] then []
    else
      var u := Relative(url);
      if IsAbsolute(u) || baseDomain == [] then u
      else
        var joined := RStrip(baseDomain, {'/'}) + "/" + u;
        match Parse(joined)
        case None => u
        case Some(p) => if p.scheme == [] || p.netloc == [] then u else joined
  }

  /**
   * A built URL is empty for an empty cell, the cleaned cell itself, or the cell joined to the
   * site; an absolute cell, or any cell without a site, is kept as cleaned.
   */
  lemma BuiltShape(url: string, baseDomain: string)
    ensures url == [] ==> Built(url, baseDomain) == []
    ensures url != [] ==> Built(url, baseDomain) == Relative(url)
                          || Built(url, baseDomain) == RStrip(baseDomain, {'/'}) + "/" + Relative(url)
    ensures baseDomain == [] ==> Built(url, baseDomain) == Relative(url)
    ensures url != [] && IsAbsolute(Relative(url)) ==> Built(url, baseDomain) == Relative(url)
  {
  }

  /** `UrlUtils.build_url(url, base_domain)`. */
  method BuildUrl(url: string, baseDomain: string) returns (r: string)
    ensures r == Built(url, baseDomain)
  {
    if url == [] {
      return [];
    }
    var u := Strip(Lower(url));
    ghost var lowered := u;
    for i := 0 to |Prefixes|
      invariant u == lowered
      invariant RemovePrefix(lowered, Prefixes[i..]) == RemovePrefix(lowered, Prefixes)
    {
      assert Prefixes[i..][1..] == Prefixes[i + 1..];
      if StartsWith(u, Prefixes[i]) {
        u := Strip(u[|Prefixes[i]|..]);
        break;
      }
    }
    u := StripChars(u, UrlTrim);
    if IsAbsolute(u) {
      return u;
    }
    if baseDomain == [] {
      return u;
    }
    var base := RStrip(baseDomain, {'/'});
    var joined := base + "/" + u;
    var parsed := Parse(joined);
    if parsed.None? || parsed.value.scheme == [] || parsed.value.netloc == [] {
      return u;
    }
    return joined;
  }

  lemma RemoveBareUrl(u: string)
    requires StartsWith(u, "url") && !StartsWith(u, "url:")
    ensures RemovePrefix(u, Prefixes) == Strip(u[3..])
  {
    assert u[1] == "url"[1] == 'r';
    assert !StartsWith(u, "usar a url:") && !StartsWith(u, "usar a url");
    assert Prefixes[1..] == ["usar a url", "url:", "url"];
    assert Prefixes[2..] == ["url:", "url"];
    assert Prefixes[3..] == ["url"];
    assert RemovePrefix(u, Prefixes) == RemovePrefix(u, Prefixes[1..]);
    assert RemovePrefix(u, Prefixes[1..]) == RemovePrefix(u, Prefixes[2..]);
    assert RemovePrefix(u, Prefixes[2..]) == RemovePrefix(u, Prefixes[3..]);
    assert |Prefixes[3..][0]| == 3;
  }

  /** A cell starting with `url` but not `url:` loses exactly those three letters. */
  lemma BareUrlLabel(url: string)
    requires StartsWith(Strip(Lower(url)), "url") && !StartsWith(Strip(Lower(url)), "url:")
    ensures Relative(url) == StripChars(Strip(Strip(Lower(url))[3..]), UrlTrim)
  {
    RemoveBareUrl(Strip(Lower(url)));
  }

  /** Against a site root `scheme://host`, a relative cell becomes `scheme://host/cell`. */
  lemma BuiltAgainstSite(url: string, scheme: string, host: string)
    requires url != [] && !IsAbsolute(Relative(url))
    requires IsHostUrl(scheme, host, "/" + Relative(url))
    requires host != [] && host[|host| - 1] != '/'
    ensures Built(url, scheme + "://" + host) == scheme + "://" + host + "/" + Relative(url)
  {
    var base := scheme + "://" + host;
    assert base[|base| - 1] == host[|host| - 1];
    RStripUnchanged(base, {'/'});
    assert base + "/" + Relative(url) == scheme + "://" + host + ("/" + Relative(url));
    ParseAbsolute(scheme, host, "/" + Relative(url));
    BuiltJoined(url, base);
  }

  /** A relative cell whose join with the site parses with a scheme and a host is built as that join. */
  lemma BuiltJoined(url: string, baseDomain: string)
    requires url != [] && !IsAbsolute(Relative(url)) && baseDomain != []
    requires Parse(RStrip(baseDomain, {'/'}) + "/" + Relative(url)).Some?
    requires Parse(RStrip(baseDomain, {'/'}) + "/" + Relative(url)).value.scheme != []
    requires Parse(RStrip(baseDomain, {'/'}) + "/" + Relative(url)).value.netloc != []
    ensures Built(url, baseDomain) == RStrip(baseDomain, {'/'}) + "/" + Relative(url)
  {
  }}
