/**
 * A stand-in for `urllib.parse.urlparse`: the generic syntax of section 3 of RFC 3986
 * as Python splits it (scheme, `//` authority, path, `;` parameters, `?` query,
 * `#` fragment), including its rejection of an unbalanced IPv6 bracket.
 */
module UrlParse {
  import opened Wrappers
  import opened PyStr

  datatype Url = Url(scheme: string, netloc: string, path: string, params: string, query: string, fragment: string)

  /** The characters Python accepts in a scheme. */
  predicate IsSchemeChar(c: char) { IsAsciiLetter(c) || IsDigit(c) || c == '+' || c == '-' || c == '.' }

  /** C0 control characters and space, removed from the front of a URL. */
  predicate IsControlOrSpace(c: char) { c as int <= 32 }

  const ControlOrSpace: set<char> := set c: char | c as int <= 32

  /** The tab and line breaks Python deletes anywhere in a URL. */
  predicate IsUnsafe(c: char) { c == '\t' || c == '\r' || c == '\n' }

  function DropUnsafe(s: string): (r: string)
    ensures forall i :: 0 <= i < |r| ==> !IsUnsafe(r[i])
  {
    if s == [] then [] else (if IsUnsafe(s[0]) then [] else [s[0]]) + DropUnsafe(s[1..])
  }

  /** The schemes for which `urlparse` splits `;parameters` off the path. */
  const UsesParams: set<string> :=
    {"", "ftp", "hdl", "prospero", "http", "imap", "https", "shttp", "rtsp", "rtspu", "sip", "sips", "mms", "sftp", "tel"}

  /** Position of the first occurrence of `c`, or `|s|`. */
  function IndexOf(s: string, c: char): (k: nat)
    ensures k <= |s| && (k < |s| ==> s[k] == c)
    ensures forall j :: 0 <= j < k ==> s[j] != c
  {
    |TakeField(s, {c})|
  }

  /** Position of the last occurrence of `c`, or -1. */
  function LastIndexOf(s: string, c: char): (k: int)
    ensures -1 <= k < |s| && (k >= 0 ==> s[k] == c)
    ensures forall j :: k < j < |s| ==> s[j] != c
  {
    if s == [] then -1 else if s[|s| - 1] == c then |s| - 1 else LastIndexOf(s[..|s| - 1], c)
  }

  /** The `scheme:` prefix and the rest, when the text before the first `:` is a scheme. */
  function SplitScheme(u: string): (r: (string, string))
    ensures r.0 == [] ==> r.1 == u
  {
    var i := IndexOf(u, ':');
    if 0 < i < |u| && IsAsciiLetter(u[0]) && (forall k :: 0 <= k < i ==> IsSchemeChar(u[k]))
    then (Lower(u[..i]), u[i + 1..])
    else ([], u)
  }

  const AuthorityEnd: set<char> := {'/', '?', '#'}

  /** `_splitnetloc(rest, 2)`: the authority runs to the first `/`, `?` or `#`. */
  function SplitNetloc(rest: string): (r: (string, string))
    requires StartsWith(rest, "//")
    ensures forall i :: 0 <= i < |r.0| ==> r.0[i] !in AuthorityEnd
    ensures rest == "//" + r.0 + r.1
    ensures r.1 != [] ==> r.1[0] in AuthorityEnd
  {
    var n := TakeField(rest[2..], AuthorityEnd);
    assert rest == "//" + n + rest[2 + |n|..];
    (n, rest[2 + |n|..])
  }

  /** `_splitparams(path)`: parameters start at the first `;` of the last segment. */
  function SplitParams(path: string): (r: (string, string))
  {
    var slash := LastIndexOf(path, '/');
    var i := if slash >= 0 then slash + IndexOf(path[slash..], ';') else IndexOf(path, ';');
    if i < |path| then (path[..i], path[i + 1..]) else (path, [])
  }

  /** An opening or closing bracket without its partner, which Python rejects. */
  predicate UnbalancedBrackets(netloc: string)
  {
    ('[' in netloc && ']' !in netloc) || (']' in netloc && '[' !in netloc)
  }

  /** `s.split(c, 1)` when `c in s`, and `(s, "")` otherwise. */
  function SplitOnce(s: string, c: char): (r: (string, string))
    ensures c !in r.0 && StartsWith(s, r.0)
    ensures c in s ==> s == r.0 + [c] + r.1
    ensures c !in s ==> r == (s, [])
  {
    var k := IndexOf(s, c);
    if k < |s| then
      assert s == s[..k] + [c] + s[k + 1..];
      (s[..k], s[k + 1..])
    else (s, [])
  }

  /** The leading controls and spaces removed, then every tab and line break. */
  function Prepare(url: string): string
  {
    DropUnsafe(LStrip(url, ControlOrSpace))
  }

  /** `urlparse(url)`; `None` where it raises `ValueError`. */
  function Parse(url: string): (r: Option<Url>)
    ensures r.Some? ==> forall i :: 0 <= i < |r.value.netloc| ==> r.value.netloc[i] !in AuthorityEnd
  {
    var (scheme, rest) := SplitScheme(Prepare(url));
    AfterScheme(scheme, rest)
  }

  /** The parse once the scheme is split off: the `//` authority, then the rest. */
  function AfterScheme(scheme: string, rest: string): (r: Option<Url>)
    ensures r.Some? ==> forall i :: 0 <= i < |r.value.netloc| ==> r.value.netloc[i] !in AuthorityEnd
  {
    var (netloc, rest2) := if StartsWith(rest, "//") then SplitNetloc(rest) else ([], rest);
    if UnbalancedBrackets(netloc) then None else Some(SplitRest(scheme, netloc, rest2))
  }

  /** What follows the authority: the fragment split off first, then the query, then the parameters. */
  function SplitRest(scheme: string, netloc: string, rest: string): Url
  {
    var (beforeHash, fragment) := SplitOnce(rest, '#');
    var (path, query) := SplitOnce(beforeHash, '?');
    var (p, params) := if ';' in path && scheme in UsesParams then SplitParams(path) else (path, []);
    Url(scheme, netloc, p, params, query, fragment)
  }

  /** What an absolute `http(s)` URL with a host looks like. */
  predicate IsHostUrl(scheme: string, host: string, rest: string)
  {
    && (scheme == "http" || scheme == "https")
    && (forall i :: 0 <= i < |host| ==> host[i] !in AuthorityEnd && !IsUnsafe(host[i]) && host[i] != '[' && host[i] != ']')
    && (rest == [] || rest[0] in AuthorityEnd)
    && (forall i :: 0 <= i < |rest| ==> !IsUnsafe(rest[i]))
  }

  predicate Safe(s: string) { forall i :: 0 <= i < |s| ==> !IsUnsafe(s[i]) }

  lemma SafeConcat(a: string, b: string)
    requires Safe(a) && Safe(b)
    ensures Safe(a + b)
  {
    forall i | 0 <= i < |a + b| ensures !IsUnsafe((a + b)[i]) {
      if i >= |a| { assert (a + b)[i] == b[i - |a|]; }
    }
  }

  lemma PrepareHostUrl(scheme: string, host: string, rest: string)
    requires IsHostUrl(scheme, host, rest)
    ensures Prepare(scheme + "://" + host + rest) == scheme + "://" + host + rest
  {
    var url := scheme + "://" + host + rest;
    assert url[0] == scheme[0] == 'h';
    assert LStrip(url, ControlOrSpace) == url;
    assert Safe(scheme) && Safe("://") && Safe(host) && Safe(rest);
    SafeConcat(scheme, "://");
    SafeConcat(scheme + "://", host);
    SafeConcat(scheme + "://" + host, rest);
    DropUnsafeUnchanged(url);
  }

  lemma SchemeHostUrl(scheme: string, host: string, rest: string)
    requires IsHostUrl(scheme, host, rest)
    ensures SplitScheme(scheme + "://" + host + rest) == (scheme, "//" + host + rest)
  {
    var tail := "//" + host + rest;
    var url := scheme + "://" + host + rest;
    assert url == scheme + ([':'] + tail);
    SchemeFacts(scheme);
    SchemeSplitAt(scheme, tail);
  }

  /** `http` and `https` are lower-case schemes made of scheme characters. */
  lemma SchemeFacts(scheme: string)
    requires scheme == "http" || scheme == "https"
    ensures scheme != [] && IsAsciiLetter(scheme[0]) && Lower(scheme) == scheme
    ensures forall k :: 0 <= k < |scheme| ==> IsSchemeChar(scheme[k]) && scheme[k] != ':'
  {
    assert scheme[..4] == "http";
    assert forall k :: 0 <= k < |scheme| ==> 'a' <= scheme[k] <= 'z';
    LowerOfSmall(scheme);
  }

  /** A scheme of scheme characters followed by `:` is split off there. */
  lemma SchemeSplitAt(scheme: string, tail: string)
    requires scheme != [] && IsAsciiLetter(scheme[0]) && Lower(scheme) == scheme
    requires forall k :: 0 <= k < |scheme| ==> IsSchemeChar(scheme[k]) && scheme[k] != ':'
    ensures SplitScheme(scheme + ([':'] + tail)) == (scheme, tail)
  {
    var u := scheme + ([':'] + tail);
    ColonAfterScheme(scheme, tail);
    PartsAroundColon(scheme, tail);
    assert forall k :: 0 <= k < |scheme| ==> IsSchemeChar(u[k]);
  }

  lemma ColonAfterScheme(scheme: string, tail: string)
    requires forall k :: 0 <= k < |scheme| ==> scheme[k] != ':'
    ensures IndexOf(scheme + ([':'] + tail), ':') == |scheme|
  {
    var u := scheme + ([':'] + tail);
    assert u[|scheme|] == ':';
    assert forall k :: 0 <= k < |scheme| ==> u[k] == scheme[k];
  }

  lemma PartsAroundColon(scheme: string, tail: string)
    ensures var u := scheme + ([':'] + tail);
      u[..|scheme|] == scheme && u[|scheme| + 1..] == tail && forall k :: 0 <= k < |scheme| ==> u[k] == scheme[k]
  {
  }

  lemma NetlocHostUrl(host: string, rest: string)
    requires forall i :: 0 <= i < |host| ==> host[i] !in AuthorityEnd
    requires rest == [] || rest[0] in AuthorityEnd
    ensures SplitNetloc("//" + host + rest) == (host, rest)
  {
    assert ("//" + host + rest)[2..] == host + rest;
    TakeFieldOfField2(host, rest, AuthorityEnd);
  }

  /** The head of an `http(s)` URL with a host: the scheme, then the host as the authority. */
  lemma HostUrlHead(scheme: string, host: string, rest: string)
    requires IsHostUrl(scheme, host, rest)
    ensures Parse(scheme + "://" + host + rest) == Some(SplitRest(scheme, host, rest))
  {
    PrepareHostUrl(scheme, host, rest);
    SchemeHostUrl(scheme, host, rest);
    HostAuthority(scheme, host, rest);
  }

  /** After the scheme, `//host` followed by a path, query or fragment gives that host. */
  lemma HostAuthority(scheme: string, host: string, rest: string)
    requires IsHostUrl(scheme, host, rest)
    ensures AfterScheme(scheme, "//" + host + rest) == Some(SplitRest(scheme, host, rest))
  {
    NetlocHostUrl(host, rest);
    StartsWithConcat("//", host + rest);
    assert "//" + host + rest == "//" + (host + rest);
    assert '[' !in host && ']' !in host;
  }

  /** An `http` or `https` URL with a host parses into that scheme and the host. */
  lemma ParseAbsolute(scheme: string, host: string, rest: string)
    requires IsHostUrl(scheme, host, rest)
    ensures Parse(scheme + "://" + host + rest).Some?
    ensures Parse(scheme + "://" + host + rest).value.scheme == scheme
    ensures Parse(scheme + "://" + host + rest).value.netloc == host
  {
    HostUrlHead(scheme, host, rest);
  }

  /** Splitting at the first `c` of a text whose first part lacks `c`. */
  lemma SplitOnceAt(a: string, c: char, b: string)
    requires c !in a
    ensures SplitOnce(a + [c] + b, c) == (a, b)
  {
    var s := a + [c] + b;
    var k := IndexOf(s, c);
    assert s[|a|] == c;
    assert s[..|a|] == a && s[|a| + 1..] == b;
  }

  /**
   * An `http(s)` URL made of a host, a path without `?`, `;` or `#` and optionally a
   * `?query` without `#` parses into exactly those parts, with no parameters or fragment.
   */
  lemma ParsePathQuery(scheme: string, host: string, path: string, query: string, rest: string)
    requires rest == path + "?" + query || (rest == path && query == [])
    requires IsHostUrl(scheme, host, rest)
    requires '?' !in path && ';' !in path && '#' !in path && '#' !in query
    ensures Parse(scheme + "://" + host + rest) == Some(Url(scheme, host, path, [], query, []))
  {
    HostUrlHead(scheme, host, rest);
    assert '#' !in rest;
    assert SplitOnce(rest, '#') == (rest, []);
    if rest == path + "?" + query {
      SplitOnceAt(path, '?', query);
    } else {
      assert SplitOnce(rest, '?') == (path, []);
    }
  }

  /**
   * The same with an optional `#fragment` after the query: the fragment is split off first.
   */
  lemma ParseWithFragment(scheme: string, host: string, path: string, query: string, fragment: string,
                          beforeHash: string, rest: string)
    requires beforeHash == path + "?" + query || (beforeHash == path && query == [])
    requires rest == beforeHash + "#" + fragment || (rest == beforeHash && fragment == [])
    requires IsHostUrl(scheme, host, rest)
    requires '?' !in path && ';' !in path && '#' !in path && '#' !in query
    ensures Parse(scheme + "://" + host + rest) == Some(Url(scheme, host, path, [], query, fragment))
  {
    HostUrlHead(scheme, host, rest);
    assert '#' !in beforeHash;
    if rest == beforeHash + "#" + fragment {
      SplitOnceAt(beforeHash, '#', fragment);
    } else {
      assert SplitOnce(rest, '#') == (rest, []);
    }
    if beforeHash == path + "?" + query {
      SplitOnceAt(path, '?', query);
    } else {
      assert SplitOnce(beforeHash, '?') == (path, []);
    }
  }

  lemma {:induction false} DropUnsafeUnchanged(s: string)
    requires Safe(s)
    ensures DropUnsafe(s) == s
  {
    if s != [] {
      DropUnsafeUnchanged(s[1..]);
      assert s == [s[0]] + s[1..];
    }
  }

  /** `TakeField` stops exactly at the end of a separator-free prefix, empty or not. */
  lemma TakeFieldOfField2(w: string, rest: string, cs: set<char>)
    requires forall i :: 0 <= i < |w| ==> w[i] !in cs
    requires rest == [] || rest[0] in cs
    ensures TakeField(w + rest, cs) == w
  {
    if w == [] { assert w + rest == rest; } else { TakeFieldOfField(w, rest, cs); }
  }

  // ---------------------------------------------------------------- unquote and hostname

  /** The value of a hexadecimal digit, or -1. */
  function HexValue(c: char): int
  {
    if '0' <= c <= '9' then c as int - '0' as int
    else if 'a' <= c <= 'f' then c as int - 'a' as int + 10
    else if 'A' <= c <= 'F' then c as int - 'A' as int + 10
    else -1
  }

  /**
   * `unquote(s)` for escapes of ASCII bytes: each `%XX` naming a byte below 0x80 becomes
   * that character; every other character, a stray `%` included, is kept.
   */
  function Unquote(s: string): (r: string)
    ensures |r| <= |s|
    ensures '%' !in s ==> r == s
    decreases |s|
  {
    if |s| >= 3 && s[0] == '%' && HexValue(s[1]) >= 0 && HexValue(s[2]) >= 0
       && HexValue(s[1]) * 16 + HexValue(s[2]) < 128
    then [(HexValue(s[1]) * 16 + HexValue(s[2])) as char] + Unquote(s[3..])
    else if s == [] then []
    else
      assert s == [s[0]] + s[1..];
      [s[0]] + Unquote(s[1..])
  }

  /**
   * `urlparse(url).hostname`: the host of the authority after any `user@`, without the
   * port (or the text inside IPv6 brackets), in lower case up to a `%` zone; `None` when empty.
   */
  function Hostname(netloc: string): (r: Option<string>)
    ensures r.Some? ==> r.value != []
  {
    var hostinfo := netloc[LastIndexOf(netloc, '@') + 1..];
    var host := if '[' in hostinfo then SplitOnce(SplitOnce(hostinfo, '[').1, ']').0 else SplitOnce(hostinfo, ':').0;
    if host == [] then None
    else
      var (name, zone) := SplitOnce(host, '%');
      Some(Lower(name) + (if '%' in host then "%" + zone else []))
  }
}
