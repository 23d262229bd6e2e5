/**
 * Finding a page, its Journal Content portlets and associating a web content with one of
 * them. `web_content_creator.py` and `content_update.py` carry identical copies of this
 * code (`_parse_content_portlets`, `find_page_by_title_or_id`,
 * `get_journal_portlet_instance`, `associate_content_with_page_portlet`); it is modelled
 * once. HTML is summarised by the `id` attributes of its tags in document order, and the
 * HTTP requests are oracle arguments.
 */
module JournalPortlets {
  import opened Wrappers
  import opened PyStr
  import opened PyValues
  import opened Retry

  const DefaultPortletId: string := "com_liferay_journal_content_web_portlet_JournalContentPortlet_INSTANCE_JournalCont_"

  /** The `id` prefix of a rendered Journal Content portlet. */
  const PortletPrefix: string := "p_p_id_"

  const JournalName: string := "c" + "om_liferay_journal_content_web_portlet_JournalContentPortlet"

  /** The `id` prefix of a rendered Journal Content portlet: `p_p_id_com_liferay_journal_content_web_portlet_JournalContentPortlet`. */
  const JournalPrefix: string := PortletPrefix + JournalName

  /** A portlet entry; `None` stands for a missing key. */
  datatype Portlet = Portlet(portletId: Option<string>, articleId: Option<string>)

  predicate TruthyText(o: Option<string>) { o.Some? && o.value != [] }

  // ---------------------------------------------------------------- _parse_content_portlets

  /** A tag `id` that marks a Journal Content portlet. */
  predicate IsJournalId(id: string) { StartsWith(id, JournalPrefix) }

  /** The portlets found among the tag ids, before the default is added. */
  function JournalEntries(ids: seq<string>): (r: seq<Portlet>)
    ensures |r| <= |ids|
    ensures forall i :: 0 <= i < |r| ==> TruthyText(r[i].portletId) && r[i].articleId == Some([])
  {
    if ids == [] then []
    else
      var pid := Replace(ids[0], PortletPrefix, []);
      (if IsJournalId(ids[0]) && pid != [] then [Portlet(Some(pid), Some([]))] else []) + JournalEntries(ids[1..])
  }

  /** `_parse_content_portlets`: the Journal Content portlets, or one default entry when there is none. */
  function ParsePortlets(ids: seq<string>): (r: seq<Portlet>)
    ensures |r| >= 1
    ensures forall i :: 0 <= i < |r| ==> TruthyText(r[i].portletId) && r[i].articleId == Some([])
  {
    var found := JournalEntries(ids);
    if found == [] then [Portlet(Some(DefaultPortletId), Some([]))] else found
  }

  /** Removing `p_p_id_` from a Journal Content id leaves the text that follows the first prefix, so never nothing. */
  lemma JournalIdKept(id: string)
    requires IsJournalId(id)
    ensures Replace(id, PortletPrefix, []) != []
    ensures Replace(id, PortletPrefix, [])[0] == 'c'
  {
    var rest := id[7..];
    assert id[..7] == id[..|JournalPrefix|][..7] == PortletPrefix;
    assert rest[0] == id[..|JournalPrefix|][7] == JournalName[0] == 'c';
    assert rest[..7] != PortletPrefix;
    assert Replace(id, PortletPrefix, []) == Replace(rest, PortletPrefix, []);
  }

  /** The number of Journal Content ids among the tag ids. */
  function CountJournal(ids: seq<string>): nat
  {
    if ids == [] then 0 else (if IsJournalId(ids[0]) then 1 else 0) + CountJournal(ids[1..])
  }

  /** Every Journal Content id yields one portlet and no other tag does. */
  lemma {:induction false} JournalEntriesCount(ids: seq<string>)
    ensures |JournalEntries(ids)| == CountJournal(ids)
    decreases |ids|
  {
    if ids != [] {
      JournalEntriesCount(ids[1..]);
      if IsJournalId(ids[0]) {
        JournalIdKept(ids[0]);
      }
    }
  }

  /** No Journal Content ids among the tags means none are counted. */
  lemma {:induction false} CountJournalZero(ids: seq<string>)
    ensures CountJournal(ids) == 0 <==> forall i :: 0 <= i < |ids| ==> !IsJournalId(ids[i])
    decreases |ids|
  {
    if ids != [] {
      CountJournalZero(ids[1..]);
      assert forall i :: 1 <= i < |ids| ==> ids[i] == ids[1..][i - 1];
    }
  }

  /** A page without Journal Content portlets gets exactly the default one; otherwise one entry per portlet. */
  lemma ParsePortletsCount(ids: seq<string>)
    ensures (forall i :: 0 <= i < |ids| ==> !IsJournalId(ids[i])) ==>
      ParsePortlets(ids) == [Portlet(Some(DefaultPortletId), Some([]))]
    ensures (exists i :: 0 <= i < |ids| && IsJournalId(ids[i])) ==> |ParsePortlets(ids)| == CountJournal(ids)
  {
    JournalEntriesCount(ids);
    CountJournalZero(ids);
  }

  // ---------------------------------------------------------------- find_page_by_title_or_id

  /** A page listing entry; a missing `title` or `friendlyUrlPath` reads as empty. */
  datatype PageItem = PageItem(id: Option<int>, title: string, friendlyUrlPath: string)

  /** A page as the association code sees it. */
  datatype PageInfo = PageInfo(id: Option<int>, title: string, portlets: seq<Portlet>)

  /** `str(item.get('id'))`. */
  function IdText(id: Option<int>): string
  {
    if id.Some? then IntToString(id.value) else "None"
  }

  /** The exact-match test of the first loop. */
  predicate ExactMatch(item: PageItem, search: string, numeric: bool)
  {
    (numeric && IdText(item.id) == search) || Lower(item.title) == search
  }

  predicate PartialMatch(item: PageItem, search: string)
  {
    Contains(Lower(item.title), search)
  }

  /** Index of the first item from `k` on that matches exactly. */
  function FirstExact(items: seq<PageItem>, search: string, numeric: bool, k: nat): (r: Option<nat>)
    requires k <= |items|
    ensures r.Some? ==> k <= r.value < |items| && ExactMatch(items[r.value], search, numeric)
    ensures r.Some? ==> forall j :: k <= j < r.value ==> !ExactMatch(items[j], search, numeric)
    ensures r.None? ==> forall j :: k <= j < |items| ==> !ExactMatch(items[j], search, numeric)
    decreases |items| - k
  {
    if k == |items| then None
    else if ExactMatch(items[k], search, numeric) then Some(k)
    else FirstExact(items, search, numeric, k + 1)
  }

  /** Index of the first item from `k` on whose lower-cased title holds the search term. */
  function FirstPartial(items: seq<PageItem>, search: string, k: nat): (r: Option<nat>)
    requires k <= |items|
    ensures r.Some? ==> k <= r.value < |items| && PartialMatch(items[r.value], search)
    ensures r.Some? ==> forall j :: k <= j < r.value ==> !PartialMatch(items[j], search)
    ensures r.None? ==> forall j :: k <= j < |items| ==> !PartialMatch(items[j], search)
    decreases |items| - k
  {
    if k == |items| then None
    else if PartialMatch(items[k], search) then Some(k)
    else FirstPartial(items, search, k + 1)
  }

  /** The two loops of `find_page_by_title_or_id`: the index of the chosen listing entry. */
  function MatchPage(items: seq<PageItem>, identifier: string): Option<nat>
  {
    var search := Lower(identifier);
    var numeric := IsDigitText(search);
    var exact := FirstExact(items, search, numeric, 0);
    if exact.Some? then exact
    else if !numeric then FirstPartial(items, search, 0)
    else None
  }

  /**
   * An exact match (lower-cased title, or for a numeric identifier the ID text) wins, the
   * first of them; a substring match is tried only for a non-numeric identifier without an
   * exact match, and is then the first title holding the term.
   */
  lemma MatchPageRules(items: seq<PageItem>, identifier: string)
    ensures var r := MatchPage(items, identifier); var search := Lower(identifier); var numeric := IsDigitText(search);
      && (r.Some? ==> r.value < |items|)
      && ((exists j :: 0 <= j < |items| && ExactMatch(items[j], search, numeric)) ==>
            r.Some? && ExactMatch(items[r.value], search, numeric) &&
            forall j :: 0 <= j < r.value ==> !ExactMatch(items[j], search, numeric))
      && ((forall j :: 0 <= j < |items| ==> !ExactMatch(items[j], search, numeric)) ==>
            (numeric ==> r.None?) &&
            (!numeric ==> r == FirstPartial(items, search, 0)))
  {
  }

  /** A numeric identifier never falls back on a title that merely contains it. */
  lemma NumericNeedsExact(items: seq<PageItem>, identifier: string)
    requires IsDigitText(Lower(identifier))
    ensures var r := MatchPage(items, identifier);
      r.Some? ==> r.value < |items| && ExactMatch(items[r.value], Lower(identifier), true)
  {
  }

  /**
   * `isdigit` is true for the superscript `²`, so that identifier is numeric too: a title
   * that merely contains it is not chosen.
   */
  lemma SuperscriptNeedsExact(id: Option<int>, slug: string)
    ensures MatchPage([PageItem(id, "x\U{00B2}", slug)], "\U{00B2}") == None
  {
    var item := PageItem(id, "x\U{00B2}", slug);
    assert Lower("\U{00B2}") == "\U{00B2}";
    assert IsDigitText("\U{00B2}");
    assert Lower("x\U{00B2}") == "x\U{00B2}";
    assert IdText(id) != "\U{00B2}" by {
      if id.Some? {
        var t := IntToString(id.value);
        if id.value < 0 { assert t[0] == '-'; } else { assert IsDigit(t[0]); }
      }
    }
    assert !ExactMatch(item, "\U{00B2}", true);
  }

  /** The rendered-page path: `friendlyUrlPath` without its slashes, else the ID; `None` when both are empty. */
  function RenderPath(item: PageItem): (r: Option<string>)
    ensures r.Some? ==> r.value != [] && r.value[0] != '/' && r.value[|r.value| - 1] != '/'
  {
    var friendly := StripChars(item.friendlyUrlPath, {'/'});
    StripEnds(item.friendlyUrlPath, {'/'});
    if friendly != [] then Some(friendly)
    else if item.id.Some? && item.id.value != 0 then Some(IntToString(item.id.value))
    else None
  }

  /**
   * `find_page_by_title_or_id`: `listing` is the page search reply (`None` for a status
   * other than 200), `rendered(path)` the tag ids of the rendered page (`None` for a status
   * other than 200). The page found carries the parsed portlets.
   */
  function FindPage(listing: Option<seq<PageItem>>, identifier: string, rendered: string -> Option<seq<string>>): (r: Option<PageInfo>)
    ensures r.Some? ==> |r.value.portlets| >= 1
  {
    if listing.None? || listing.value == [] then None
    else
      var items := listing.value;
      var m := MatchPage(items, identifier);
      if m.None? then None
      else
        assert m.value < |items| by { MatchPageRules(items, identifier); }
        var item := items[m.value];
        var path := RenderPath(item);
        if path.None? then None
        else
          var html := rendered(path.value);
          if html.None? then None
          else Some(PageInfo(item.id, item.title, ParsePortlets(html.value)))
  }

  // ---------------------------------------------------------------- get_journal_portlet_instance

  predicate FreePortlet(p: Portlet) { TruthyText(p.portletId) && !TruthyText(p.articleId) }

  function FirstFree(portlets: seq<Portlet>, k: nat): (r: Option<nat>)
    requires k <= |portlets|
    ensures r.Some? ==> k <= r.value < |portlets| && FreePortlet(portlets[r.value])
    ensures r.Some? ==> forall j :: k <= j < r.value ==> !FreePortlet(portlets[j])
    ensures r.None? ==> forall j :: k <= j < |portlets| ==> !FreePortlet(portlets[j])
    decreases |portlets| - k
  {
    if k == |portlets| then None
    else if FreePortlet(portlets[k]) then Some(k)
    else FirstFree(portlets, k + 1)
  }

  /**
   * `get_journal_portlet_instance`: the ID of the first portlet with an ID and no article;
   * failing that, the first portlet's ID when it has one; failing that, the default.
   */
  function JournalPortletInstance(portlets: seq<Portlet>): (r: string)
    ensures r != []
    ensures var f := FirstFree(portlets, 0);
      && (f.Some? ==> r == portlets[f.value].portletId.value)
      && (f.None? && portlets != [] && TruthyText(portlets[0].portletId) ==> r == portlets[0].portletId.value)
      && (f.None? && (portlets == [] || !TruthyText(portlets[0].portletId)) ==> r == DefaultPortletId)
  {
    var f := FirstFree(portlets, 0);
    if f.Some? then portlets[f.value].portletId.value
    else if portlets != [] && TruthyText(portlets[0].portletId) then portlets[0].portletId.value
    else DefaultPortletId
  }

  /** On a parsed page the instance is always one of the page's own portlets. */
  lemma InstanceOfParsedPage(ids: seq<string>)
    ensures var ps := ParsePortlets(ids);
      exists i :: 0 <= i < |ps| && ps[i].portletId == Some(JournalPortletInstance(ps))
  {
    var ps := ParsePortlets(ids);
    assert FreePortlet(ps[0]);
    var f := FirstFree(ps, 0);
    assert f.Some?;
    assert ps[f.value].portletId == Some(JournalPortletInstance(ps));
  }

  // ---------------------------------------------------------------- associate_content_with_page_portlet

  /** `portlets[index]` with Python's negative indexing, `portlets[0]` for an index past the end; `None` for an `IndexError`. */
  function SelectPortlet(portlets: seq<Portlet>, index: int): (r: Option<Portlet>)
    requires portlets != []
    ensures index >= |portlets| ==> r == Some(portlets[0])
    ensures 0 <= index < |portlets| ==> r == Some(portlets[index])
    ensures -|portlets| <= index < 0 ==> r == Some(portlets[|portlets| + index])
    ensures index < -|portlets| ==> r.None?
  {
    if index >= |portlets| then Some(portlets[0])
    else if index >= 0 then Some(portlets[index])
    else if index >= -|portlets| then Some(portlets[|portlets| + index])
    else None
  }

  /** The portlet ID normalisation: `p_p_id_` removed unless the ID starts with it, then one trailing `_` dropped. */
  function NormalizePortletId(id: string): (r: string)
  {
    var unprefixed := if !StartsWith(id, PortletPrefix) then Replace(id, PortletPrefix, []) else id;
    if EndsWith(unprefixed, "_") then unprefixed[..|unprefixed| - 1] else unprefixed
  }

  /** An ID without `p_p_id_` loses exactly one trailing `_`, if it has one, and nothing else. */
  lemma NormalizeDropsOneUnderscore(id: string)
    requires !Contains(id, PortletPrefix)
    ensures var r := NormalizePortletId(id);
      && (EndsWith(id, "_") ==> r + "_" == id)
      && (!EndsWith(id, "_") ==> r == id)
  {
    if !StartsWith(id, PortletPrefix) {
      ReplaceAbsent(id, PortletPrefix, []);
    }
  }

  /** A prefixed ID keeps its `p_p_id_` prefix: only IDs that do not start with it are cleaned. */
  lemma NormalizeKeepsLeadingPrefix(id: string)
    requires StartsWith(id, PortletPrefix) && |id| > |PortletPrefix|
    ensures StartsWith(NormalizePortletId(id), PortletPrefix)
  {
    var r := NormalizePortletId(id);
    assert r == id || r == id[..|id| - 1];
    assert r[..7] == id[..7];
  }

  /** `content.get('key')` for a dictionary, `str(content)` otherwise; `None` for a dictionary without a key. */
  function ContentKey(content: PyValue): (r: Option<PyValue>)
    ensures content.Dict? ==> r == Get(content, "key")
    ensures content.Str? ==> r == Some(content)
    ensures content.Int? ==> r == Some(Str(IntToString(content.i)))
  {
    if content.Dict? then Get(content, "key")
    else if content.List? then None
    else Some(Str(ScalarText(content)))
  }

  /** The query parameters of the association request. */
  datatype AssocRequest = AssocRequest(plid: string, portletId: string, articleId: Option<PyValue>)

  /** The request for the page's chosen portlet; `None` when the page has no portlets or the index fails. */
  function AssociationRequest(page: PageInfo, content: PyValue, index: int): (r: Option<AssocRequest>)
    ensures page.portlets == [] ==> r.None?
    ensures r.Some? ==> r.value.plid == IdText(page.id) && r.value.articleId == ContentKey(content)
  {
    if page.portlets == [] then None
    else
      var p := SelectPortlet(page.portlets, index);
      if p.None? then None
      else
        var pid := p.value.portletId.GetOr(DefaultPortletId);
        Some(AssocRequest(IdText(page.id), NormalizePortletId(pid), ContentKey(content)))
  }

  /** What one association POST did: a reply with its status and the `status` field of its body, an HTTP error, or another error. */
  datatype PostReply = Replied(status: int, resultStatus: Option<string>) | HttpFailed(code: int) | RequestFailed

  /** `associate_content`: 200 or 201 answers whether the body says `SUCCESS`; any other status is raised as a plain exception. */
  function AssociationAttempt(reply: PostReply): (r: Attempt<bool>)
    ensures reply.Replied? && reply.status in {200, 201} ==> r == Ok(reply.resultStatus == Some("SUCCESS"))
    ensures reply.Replied? && reply.status !in {200, 201} ==> r == Fail(OtherError)
  {
    match reply
    case Replied(status, rs) => if status == 200 || status == 201 then Ok(rs == Some("SUCCESS")) else Fail(OtherError)
    case HttpFailed(code) => Fail(HttpStatus(code))
    case RequestFailed => Fail(OtherError)
  }

  const AssociationRetries: nat := 4

  function AssociationAttempts(post: AssocRequest -> nat -> PostReply, req: AssocRequest): nat -> Attempt<bool>
  {
    (k: nat) => AssociationAttempt(post(req)(k))
  }

  /**
   * `associate_content_with_page_portlet`. `page` is the page dictionary, or the page found
   * for a non-dictionary identifier (`None` when none was found); `post(req)(k)` is the k-th
   * POST of request `req`. The answer is `Some(b)` for a boolean and `None` for the `None`
   * that `_retry_operation` returns after four rate-limited attempts.
   */
  function Associate(page: Option<PageInfo>, content: PyValue, index: int, post: AssocRequest -> nat -> PostReply): Option<bool>
  {
    if page.None? then Some(false)
    else
      var req := AssociationRequest(page.value, content, index);
      if req.None? then Some(false)
      else
        var run := RetryFrom(AssociationAttempts(post, req.value), AssociationRetries, Linear, 0);
        match run.result
        case Returned(b) => Some(b)
        case ReturnedNone => None
        case Raised(_) => Some(false)
  }

  /** Without a page or portlets the answer is `False` and no request is made: the replies do not matter. */
  lemma AssociateWithoutPortlets(page: Option<PageInfo>, content: PyValue, index: int,
                                 post1: AssocRequest -> nat -> PostReply, post2: AssocRequest -> nat -> PostReply)
    requires page.None? || page.value.portlets == []
    ensures Associate(page, content, index, post1) == Some(false)
    ensures Associate(page, content, index, post1) == Associate(page, content, index, post2)
  {
  }

  /** An index past the last portlet uses the first portlet's ID. */
  lemma AssociateIndexFallback(page: PageInfo, content: PyValue, index: int)
    requires page.portlets != [] && index >= |page.portlets|
    ensures AssociationRequest(page, content, index).Some?
    ensures AssociationRequest(page, content, index).value.portletId
         == NormalizePortletId(page.portlets[0].portletId.GetOr(DefaultPortletId))
  {
  }

  /** A first reply of 200 or 201 decides the answer: `True` exactly when the body says `SUCCESS`. */
  lemma AssociateFirstReply(page: PageInfo, content: PyValue, index: int, post: AssocRequest -> nat -> PostReply)
    requires AssociationRequest(page, content, index).Some?
    requires var reply := post(AssociationRequest(page, content, index).value)(0);
      reply.Replied? && (reply.status == 200 || reply.status == 201)
    ensures Associate(Some(page), content, index, post)
         == Some(post(AssociationRequest(page, content, index).value)(0).resultStatus == Some("SUCCESS"))
  {
  }

  /**
   * The answer is `None` exactly when the fourth attempt was rate-limited (429, 503, 504)
   * and the three before it failed without a client error; in particular after four
   * rate limits.
   */
  lemma AssociateNoneExactly(page: PageInfo, content: PyValue, index: int, post: AssocRequest -> nat -> PostReply)
    requires AssociationRequest(page, content, index).Some?
    ensures var attempts := AssociationAttempts(post, AssociationRequest(page, content, index).value);
      Associate(Some(page), content, index, post).None? <==>
        FailedBefore(attempts, 0, 3) && attempts(3).Fail? && RateLimitedFailure(attempts(3).failure)
  {
    var attempts := AssociationAttempts(post, AssociationRequest(page, content, index).value);
    RetryNoneExactly(attempts, AssociationRetries, Linear, 0);
  }
}
