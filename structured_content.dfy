// What the collapse and tab creators share: the nested content fields of a Liferay
// structured content, the pruning of tag attributes, and the POST that creates the
// content with its retries, which answers with the content key.

module StructuredContent {
  import opened Wrappers
  import opened PyStr
  import opened PyValues
  import opened Retry

  // ---------------------------------------------------------------- content fields

  /** `contentFieldValue`: the `data` and, for colour fields, the `value`. */
  datatype FieldValue = FieldValue(data: string, value: Option<string>)

  datatype NestedField = NestedField(name: string, fieldValue: FieldValue)

  /** A repeatable field with its nested fields, such as one collapse or one tab. */
  datatype ContentField = ContentField(name: string, nested: seq<NestedField>)

  function NestedNames(f: ContentField): (r: seq<string>)
    ensures |r| == |f.nested| && forall i :: 0 <= i < |r| ==> r[i] == f.nested[i].name
  {
    seq(|f.nested|, i requires 0 <= i < |f.nested| => f.nested[i].name)
  }

  /** The value of the first nested field called `name`. */
  function Lookup(nested: seq<NestedField>, name: string): (r: Option<FieldValue>)
    ensures r.Some? <==> exists i :: 0 <= i < |nested| && nested[i].name == name
  {
    if nested == [] then None
    else if nested[0].name == name then Some(nested[0].fieldValue)
    else
      var r := Lookup(nested[1..], name);
      assert forall i :: 1 <= i < |nested| ==> nested[i] == nested[1..][i - 1];
      r
  }

  // ---------------------------------------------------------------- attribute pruning

  const AllowedAttributes: set<string> := {"src", "href", "style", "class"}

  /** The attributes that survive the pruning. */
  function Allowed(attrs: map<string, string>): (r: map<string, string>)
    ensures r.Keys <= AllowedAttributes && r.Keys <= attrs.Keys
    ensures forall k :: k in attrs && k in AllowedAttributes ==> k in r && r[k] == attrs[k]
  {
    map k | k in attrs && k in AllowedAttributes :: attrs[k]
  }

  lemma AllowedIdempotent(attrs: map<string, string>)
    ensures Allowed(Allowed(attrs)) == Allowed(attrs)
  {
    assert Allowed(Allowed(attrs)).Keys == Allowed(attrs).Keys;
  }

  /** A tag of the parsed HTML, as far as its attributes go. */
  class Tag {
    var attrs: map<string, string>

    constructor(attrs: map<string, string>)
      ensures this.attrs == attrs
    {
      this.attrs := attrs;
    }

    /** Deletes, one by one, every attribute outside `src`, `href`, `style` and `class`. */
    method Prune()
      modifies this
      ensures attrs == Allowed(old(attrs))
    {
      var pending := attrs.Keys;
      while pending != {}
        invariant pending <= old(attrs).Keys
        invariant attrs == map k | k in old(attrs) && (k in pending || k in AllowedAttributes) :: old(attrs)[k]
        decreases pending
      {
        var a :| a in pending;
        if a !in AllowedAttributes {
          attrs := attrs - {a};
        }
        pending := pending - {a};
      }
    }
  }

  /** The pruning loop over every tag inside a panel body, a collapse target or a tab pane. */
  method PruneAll(tags: seq<Tag>)
    requires forall i, j :: 0 <= i < j < |tags| ==> tags[i] != tags[j]
    modifies set t | t in tags
    ensures forall i :: 0 <= i < |tags| ==> tags[i].attrs == Allowed(old(tags[i].attrs))
  {
    for i := 0 to |tags|
      invariant forall j :: 0 <= j < i ==> tags[j].attrs == Allowed(old(tags[j].attrs))
      invariant forall j :: i <= j < |tags| ==> tags[j].attrs == old(tags[j].attrs)
    {
      tags[i].Prune();
    }
  }

  // ---------------------------------------------------------------- creation

  /** `int(v)`: integers, booleans, and texts holding an optionally signed decimal. */
  function IntOf(v: PyValue): (r: Option<int>)
    ensures v.Int? ==> r == Some(v.i)
  {
    match v
    case Int(i) => Some(i)
    case Bool(b) => Some(if b then 1 else 0)
    case Str(s) =>
      var t := Strip(s);
      if IsDigits(t) then Some(DigitsValue(t))
      else if |t| > 1 && (t[0] == '-' || t[0] == '+') && IsDigits(t[1..]) then
        Some(if t[0] == '-' then -(DigitsValue(t[1..]) as int) else DigitsValue(t[1..]))
      else None
    case _ => None
  }

  /** The text of an integer reads back as that integer. */
  lemma IntOfText(n: int)
    ensures IntOf(Str(IntToString(n))) == Some(n)
  {
    var s := IntToString(n);
    var m := if n < 0 then -n else n;
    NatToStringValue(m);
    var d := NatToString(m);
    if n < 0 {
      assert s == "-" + d && s[1..] == d;
    }
    assert s[|s| - 1] == d[|d| - 1];
    DigitNotSpace(d[|d| - 1]);
    if n >= 0 {
      DigitNotSpace(d[0]);
    }
    StripUnchanged(s, Whitespace);
  }

  lemma DigitNotSpace(c: char)
    requires IsDigit(c) || c == '-'
    ensures c !in Whitespace
  {
  }

  /** What the creation request carries that matters here: the fields and the title. */
  datatype Payload = Payload(fields: seq<ContentField>, title: string)

  /** What one POST did: a reply with its status and its parsed body (`None` when not JSON), or an error. */
  datatype PostReply = Replied(status: int, body: Option<PyValue>) | RequestFailed

  /**
   * `create_attempt`: on 200 or 201 with a truthy `id`, the body's `key` read as an
   * integer; everything else raises a plain exception.
   */
  function CreateAttempt(reply: PostReply): (r: Attempt<int>)
    ensures r.Ok? ==> reply.Replied? && reply.status in {200, 201} && reply.body.Some?
    ensures r.Fail? ==> r.failure == OtherError
  {
    match reply
    case RequestFailed => Fail(OtherError)
    case Replied(status, body) =>
      if (status == 200 || status == 201) && body.Some? && body.value.Dict? then
        var id := Get(body.value, "id");
        if id.Some? && Truthy(id.value) then
          match IntOf(Get(body.value, "key").GetOr(NoneValue))
          case Some(k) => Ok(k)
          case None => Fail(OtherError)
        else Fail(OtherError)
      else Fail(OtherError)
  }

  const CreateRetries: nat := 3

  /**
   * The end of `create_collapse_content` and `create_tab_content`: no fields or a failed
   * run give `False` (here `None`); otherwise the key of the created content.
   * `post(p)(k)` is the k-th POST of payload `p`.
   */
  function CreateContent(p: Payload, post: Payload -> nat -> PostReply): (r: Option<int>)
    ensures p.fields == [] ==> r.None?
  {
    if p.fields == [] then None
    else
      match RetryFrom((k: nat) => CreateAttempt(post(p)(k)), CreateRetries, Linear, 0).result
      case Returned(key) => Some(key)
      case _ => None
  }

  /**
   * A first reply of 200 with a truthy `id` and a numeric `key` gives that key, whatever
   * the `id`: the key is returned, not the ID.
   */
  lemma CreateReturnsKey(p: Payload, post: Payload -> nat -> PostReply, id: PyValue, key: int)
    requires p.fields != [] && Truthy(id)
    requires post(p)(0) == Replied(200, Some(Dict(map["id" := id, "key" := Str(IntToString(key))])))
    ensures CreateContent(p, post) == Some(key)
  {
    IntOfText(key);
    var d := map["id" := id, "key" := Str(IntToString(key))];
    assert Get(Dict(d), "key") == Some(Str(IntToString(key)));
    assert CreateAttempt(post(p)(0)) == Ok(key);
  }

  /** Three failed attempts give `False`. */
  lemma CreateFailsAfterRetries(p: Payload, post: Payload -> nat -> PostReply)
    requires forall k: nat :: k < CreateRetries ==> CreateAttempt(post(p)(k)).Fail?
    ensures CreateContent(p, post).None?
  {
    var attempt := (k: nat) => CreateAttempt(post(p)(k));
    assert attempt(0).Fail? && attempt(1).Fail? && attempt(2).Fail?;
  }
}
