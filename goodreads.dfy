/**
 * The Goodreads client (index.js): the URL builders, the API key
 * resolution, the argument dispatch of the three public methods, and what
 * the promise of a request settles to once the HTTP status is known.
 *
 * The public methods stop at the URL they would pass to `fetch`, or at the
 * TypeError they throw before any request is made; `Settle` models the rest
 * of `fetchAndConvertToJson` for a given response.
 */
module Goodreads {
  import opened Wrappers
  import opened Decimal
  import opened UriEncoding
  import opened JsValues
  import opened QueryString

  const BaseUrl: string := "https://www.goodreads.com/"

  /** The two kinds of exception the library raises: `TypeError` and plain `Error`. */
  datatype Error = TypeError(message: string) | PlainError(message: string)

  const TitleMessage: string := "Goodreads JSON Book request requires title to be non-empty string."
  const BookArgumentMessage: string := "Goodreads JSON Book requires a URL or book request object as an argument."
  const UserIdMessage: string := "Parameter userId should be string or number"
  const ShelfArgumentMessage: string := "Parameter should be string or number for userId or object for extra options."
  const InvalidKeyMessage: string := "Invalid API key."

  /** The TypeError Node.js raises for a property read on `null`. */
  function NullReadMessage(prop: string): string {
    "Cannot read properties of null (reading '" + prop + "')"
  }

  /** The TypeError Node.js raises for a property read on `undefined`. */
  function UndefinedReadMessage(prop: string): string {
    "Cannot read properties of undefined (reading '" + prop + "')"
  }

  /** Text that cannot end a query parameter early. */
  predicate Plain(s: string) {
    '&' !in s && '#' !in s
  }

  // ---------------------------------------------------------------- API key

  /** The key the constructor stores: `key || ''`. */
  function InstanceKey(key: JsValue): (k: JsValue)
    ensures Truthy(key) ==> k == key
    ensures !Truthy(key) ==> k == Str("")
  {
    Or(key, Str(""))
  }

  /** The key a call uses: `request.key || this.key`. */
  function ResolveKey(callKey: JsValue, instanceKey: JsValue): (k: JsValue)
    ensures k == callKey || k == instanceKey
    ensures Truthy(k) <==> Truthy(callKey) || Truthy(instanceKey)
    ensures Truthy(callKey) ==> k == callKey
    ensures !Truthy(callKey) ==> k == instanceKey
  {
    Or(callKey, instanceKey)
  }

  /** Precedence: a truthy per-call key, else a truthy constructor key, else the empty string. */
  lemma KeyPrecedence(callKey: JsValue, constructorKey: JsValue)
    ensures ToStr(ResolveKey(callKey, InstanceKey(constructorKey))) ==
      if Truthy(callKey) then ToStr(callKey)
      else if Truthy(constructorKey) then ToStr(constructorKey)
      else ""
  {
  }

  // ------------------------------------------------------------ book lookup

  function BookAuthorParam(author: JsValue): string {
    if Truthy(author) then EncodeUri(ToStr(author)) else ""
  }

  /** `buildBookUrl(title, key, author)`: a TypeError unless the title is a string. */
  function BuildBookUrl(title: JsValue, key: JsValue, author: JsValue): (r: Result<string, Error>)
    ensures r.Err? <==> !title.Str?
    ensures r.Err? ==> r.error == TypeError(TitleMessage)
  {
    if !title.Str? then Err(TypeError(TitleMessage))
    else
      var authorForRequest := BookAuthorParam(author);
      var titleForRequest := EncodeUri(title.s);
      Ok(BaseUrl + "book/title.xml?title=" + titleForRequest + "&key=" + ToStr(key) + "&author=" + authorForRequest)
  }

  /** A book URL carries exactly the parameters title, key and author, in that
      order; the title (and a truthy author) percent-encoded, so that decoding
      the title parameter gives back the title's UTF-8 octets. */
  lemma BookUrlParams(title: string, key: JsValue, author: JsValue)
    requires Plain(title) && Plain(ToStr(key))
    requires Truthy(author) ==> Plain(ToStr(author))
    ensures BuildBookUrl(Str(title), key, author).Ok?
    ensures QueryParams(BuildBookUrl(Str(title), key, author).value) ==
      [Param("title", EncodeUri(title)), Param("key", ToStr(key)), Param("author", BookAuthorParam(author))]
    ensures PercentDecode(EncodeUri(title)) == Some(Utf8String(title))
  {
    EncodeUriKeeps(title, '&');
    EncodeUriKeeps(title, '#');
    if Truthy(author) {
      EncodeUriKeeps(ToStr(author), '&');
      EncodeUriKeeps(ToStr(author), '#');
    }
    BookUrlShape(title, key, author);
    BookQuery(EncodeUri(title), ToStr(key), BookAuthorParam(author));
    PercentDecodeEncodeUri(title);
  }

  /**
   * `encodeURI` keeps `&`, so a title holding one ends the title parameter
   * early: the server reads `title=` followed only by the encoded text before
   * the first `&`. For "A & B" that is `title=A%20` (BookTitleAmpersandExample).
   */
  lemma BookTitleAmpersand(p: string, q: string, key: JsValue, author: JsValue)
    requires Plain(p)
    ensures QueryParams(BuildBookUrl(Str(p + "&" + q), key, author).value)[0] == Param("title", EncodeUri(p))
  {
    var t := p + "&" + q;
    var ep, eq := EncodeUri(p), EncodeUri(q);
    EncodeAmpersand(p, q);
    EncodeUriKeeps(p, '&');
    EncodeUriKeeps(p, '#');
    var k, a := Param("key", ToStr(key)), Param("author", BookAuthorParam(author));
    var x, rest := Param("title", ep), eq + "&" + k + "&" + a;
    var path := BaseUrl + "book/title.xml";
    var url := BuildBookUrl(Str(t), key, author).value;
    var params := [Param("title", EncodeUri(t)), k, a];
    BookUrlShape(t, key, author);
    assert url == path + "?" + Join(params, "&");
    JoinThree(Param("title", EncodeUri(t)), k, a);
    assert Join(params, "&") == Param("title", ep + "&" + eq) + "&" + k + "&" + a;
    TitleSplit(ep, eq, k, a);
    assert url == path + "?" + (x + "&" + rest);
    BookPathPlain();
    TitlePlain(ep);
    FirstParam(path, x, rest);
  }

  lemma BookPathPlain()
    ensures '?' !in BaseUrl + "book/title.xml" && '#' !in BaseUrl + "book/title.xml"
  {
    PathPlain("book/title.xml");
  }

  lemma TitlePlain(v: string)
    requires Plain(v)
    ensures Plain(Param("title", v))
  {
    assert Param("title", v) == "title=" + v;
  }

  lemma EncodeAmpersand(p: string, q: string)
    ensures EncodeUri(p + "&" + q) == EncodeUri(p) + "&" + EncodeUri(q)
  {
    EncodeUriAppend(p + "&", q);
    EncodeUriAppend(p, "&");
    EncodeUriIdentity("&");
  }

  /** The first parameter read back is the text up to the first `&`. */
  lemma FirstParam(path: string, x: string, rest: string)
    requires '?' !in path && '#' !in path && Plain(x)
    ensures QueryParams(path + "?" + (x + "&" + rest))[0] == x
  {
    AfterPlain(path, '?', x + "&" + rest);
    BeforePrefix(x + "&", '#', rest);
    assert x + "&" + rest == (x + "&") + rest;
    SplitOnPiece(x, '&', Before(rest, '#'));
  }

  lemma TitleSplit(ep: string, eq: string, k: string, a: string)
    ensures Param("title", ep + "&" + eq) + "&" + k + "&" + a == Param("title", ep) + "&" + (eq + "&" + k + "&" + a)
  {
  }

  /**
   * The title "A & B" reaches the server as `title=A%20`. The title is a
   * parameter pinned by the requires rather than a literal in the body, so
   * the proof splits it as `"A " + "&" + " B"` and reuses BookTitleAmpersand
   * instead of unfolding the URL of one literal text.
   */
  lemma BookTitleAmpersandExample(title: string, key: JsValue, author: JsValue)
    requires title == "A & B"
    ensures QueryParams(BuildBookUrl(Str(title), key, author).value)[0] == Param("title", "A%20")
  {
    var p, q := "A ", " B";
    assert title == p + "&" + q;
    BookTitleAmpersand(p, q, key, author);
    EncodeTrailingSpace();
  }

  lemma EncodeTrailingSpace()
    ensures EncodeUri("A ") == "A%20"
  {
    EncodeUriSpace("A", "");
    EncodeUriIdentity("A");
    assert "A" + " " + "" == "A ";
  }

  lemma BookQuery(t: string, k: string, a: string)
    requires Plain(t) && Plain(k) && Plain(a)
    ensures QueryParams(BaseUrl + "book/title.xml" + "?" + Join([Param("title", t), Param("key", k), Param("author", a)], "&"))
      == [Param("title", t), Param("key", k), Param("author", a)]
  {
    var params := [Param("title", t), Param("key", k), Param("author", a)];
    assert forall i :: 0 <= i < |params| ==> Plain(params[i]);
    PathPlain("book/title.xml");
    QueryParamsOf(BaseUrl + "book/title.xml", params);
  }

  lemma BookUrlShape(title: string, key: JsValue, author: JsValue)
    ensures BuildBookUrl(Str(title), key, author) == Ok(BaseUrl + "book/title.xml" + "?" +
      Join([Param("title", EncodeUri(title)), Param("key", ToStr(key)), Param("author", BookAuthorParam(author))], "&"))
  {
    JoinThree(Param("title", EncodeUri(title)), Param("key", ToStr(key)), Param("author", BookAuthorParam(author)));
    BookTemplate(BaseUrl, EncodeUri(title), ToStr(key), BookAuthorParam(author));
  }

  /** The base URL followed by a path without `?` or `#` holds neither. */
  lemma PathPlain(path: string)
    requires '?' !in path && '#' !in path
    ensures '?' !in BaseUrl + path && '#' !in BaseUrl + path
  {
    assert forall i :: 0 <= i < |BaseUrl| ==> BaseUrl[i] != '?' && BaseUrl[i] != '#';
  }

  lemma BookTemplate(b: string, t: string, k: string, a: string)
    ensures b + "book/title.xml?title=" + t + "&key=" + k + "&author=" + a ==
      b + "book/title.xml" + "?" + (Param("title", t) + "&" + Param("key", k) + "&" + Param("author", a))
  {
    assert "book/title.xml?title=" == "book/title.xml" + "?" + ("title" + "=");
    assert "&key=" == "&" + ("key" + "=");
    assert "&author=" == "&" + ("author" + "=");
  }

  // ------------------------------------------------------------ user lookup

  /** `buildUserInfoUrl(userId, key)`. */
  function BuildUserInfoUrl(userId: JsValue, key: JsValue): (url: string)
    ensures BaseUrl + "user/show/" + ToStr(userId) <= url
    ensures |url| >= |ToStr(key)| + 9 && url[|url| - |ToStr(key)| - 9..] == ".xml?key=" + ToStr(key)
    ensures |url| == |BaseUrl + "user/show/" + ToStr(userId)| + 9 + |ToStr(key)|
  {
    EndsWith(BaseUrl + "user/show/" + ToStr(userId), ".xml?key=", ToStr(key), "");
    BaseUrl + "user/show/" + ToStr(userId) + ".xml?key=" + ToStr(key)
  }

  /** A user URL carries the key as its one parameter. */
  lemma UserInfoUrlParams(userId: JsValue, key: JsValue)
    requires '?' !in ToStr(userId) && '#' !in ToStr(userId)
    requires Plain(ToStr(key))
    ensures QueryParams(BuildUserInfoUrl(userId, key)) == [Param("key", ToStr(key))]
  {
    var u, k := ToStr(userId), ToStr(key);
    UserPathPlain(u);
    UserTemplate(BaseUrl, u, k);
    UserQuery("user/show/" + u + ".xml", k);
  }

  lemma UserTemplate(b: string, u: string, k: string)
    ensures b + "user/show/" + u + ".xml?key=" + k == b + ("user/show/" + u + ".xml") + "?" + Join([Param("key", k)], "&")
  {
    assert ".xml?key=" == ".xml" + "?" + ("key" + "=");
  }

  lemma UserQuery(path: string, k: string)
    requires '?' !in path && '#' !in path && Plain(k)
    ensures QueryParams(BaseUrl + path + "?" + Join([Param("key", k)], "&")) == [Param("key", k)]
  {
    PathPlain(path);
    QueryParamsOf(BaseUrl + path, [Param("key", k)]);
  }

  lemma UserPathPlain(u: string)
    requires '?' !in u && '#' !in u
    ensures '?' !in "user/show/" + u + ".xml" && '#' !in "user/show/" + u + ".xml"
  {
    var p := "user/show/" + u + ".xml";
    forall i | 0 <= i < |p| ensures p[i] != '?' && p[i] != '#' {
      if i >= 10 && i < 10 + |u| {
        assert p[i] == u[i - 10];
      }
    }
  }

  // ---------------------------------------------------------- shelf listing

  /** The destructured argument of `buildBookShelvesUrl`. */
  datatype ShelfOptions = ShelfOptions(
    key: JsValue, userId: JsValue, shelf: JsValue, sort: JsValue,
    order: JsValue, query: JsValue, page: JsValue, perPage: JsValue)

  /** Destructuring `{ key, userId, shelf, sort, order, query, page, perPage }` from an object. */
  function OptionsOf(o: JsObject): ShelfOptions
    reads o
  {
    ShelfOptions(o.Get("key"), o.Get("userId"), o.Get("shelf"), o.Get("sort"),
                 o.Get("order"), o.Get("query"), o.Get("page"), o.Get("perPage"))
  }

  /** `buildBookAllShelvesUrl(userId, key)`. */
  function BuildBookAllShelvesUrl(userId: JsValue, key: JsValue): (url: string)
    ensures BaseUrl + "review/list/" + ToStr(userId) <= url
    ensures |url| >= |ToStr(key)| + 13 && url[|url| - |ToStr(key)| - 13..] == ".xml?key=" + ToStr(key) + "&v=2"
    ensures |url| == |BaseUrl + "review/list/" + ToStr(userId)| + 13 + |ToStr(key)|
  {
    EndsWith(BaseUrl + "review/list/" + ToStr(userId), ".xml?key=", ToStr(key), "&v=2");
    BaseUrl + "review/list/" + ToStr(userId) + ".xml?key=" + ToStr(key) + "&v=2"
  }

  /** A path followed by `m + k + v` starts with the path and ends with `m + k + v`. */
  lemma EndsWith(h: string, m: string, k: string, v: string)
    ensures h <= h + m + k + v
    ensures (h + m + k + v)[|h + m + k + v| - |m + k + v|..] == m + k + v
  {
    assert h + m + k + v == h + (m + k + v);
  }

  /** `[name=value]` when the option is truthy, nothing otherwise. */
  function OptionParam(name: string, option: JsValue, value: string): (r: seq<string>)
    ensures r == [] <==> !Truthy(option)
  {
    if Truthy(option) then [Param(name, value)] else []
  }

  /** The optional parameters in their fixed order; only the search query is
      percent-encoded, every other value goes verbatim. */
  function ExtraParams(opts: ShelfOptions): seq<string> {
    OptionParam("shelf", opts.shelf, ToStr(opts.shelf))
    + OptionParam("sort", opts.sort, ToStr(opts.sort))
    + OptionParam("order", opts.order, ToStr(opts.order))
    + OptionParam("search[query]", opts.query, EncodeUri(ToStr(opts.query)))
    + OptionParam("page", opts.page, ToStr(opts.page))
    + OptionParam("per_page", opts.perPage, ToStr(opts.perPage))
  }

  function ShelfPath(userId: JsValue): string {
    "review/list/" + ToStr(userId) + ".xml"
  }

  /** The shelf URL: the parameters key and v=2, then every truthy option. */
  function ShelfUrl(opts: ShelfOptions): string {
    ShelfUrlOf(ShelfPath(opts.userId), ToStr(opts.key), ExtraParams(opts))
  }

  function ShelfUrlOf(path: string, k: string, extra: seq<string>): string {
    BaseUrl + path + "?" + Join([Param("key", k), "v=2"] + extra, "&")
  }

  /** The shelf URL is the all-shelves URL followed by `&name=value` for each truthy option. */
  lemma ShelfUrlExtendsAllShelves(opts: ShelfOptions)
    ensures ShelfUrl(opts) == BuildBookAllShelvesUrl(opts.userId, opts.key) + AmpPrefixed(ExtraParams(opts))
  {
    ShelfTemplate(BaseUrl, ToStr(opts.userId), ToStr(opts.key), ExtraParams(opts));
  }

  lemma ShelfTemplate(b: string, u: string, k: string, extra: seq<string>)
    ensures b + ("review/list/" + u + ".xml") + "?" + Join([Param("key", k), "v=2"] + extra, "&")
      == b + "review/list/" + u + ".xml?key=" + k + "&v=2" + AmpPrefixed(extra)
  {
    var head := [Param("key", k), "v=2"];
    JoinAppend(head, extra);
    assert head[1..] == ["v=2"];
    assert Join(head, "&") == Param("key", k) + "&" + "v=2";
    assert ".xml?key=" == ".xml" + "?" + ("key" + "=");
  }

  /** With no truthy option the shelf URL is the all-shelves URL, with no trailing `&`. */
  lemma ShelfUrlWithoutOptions(opts: ShelfOptions)
    requires !Truthy(opts.shelf) && !Truthy(opts.sort) && !Truthy(opts.order)
    requires !Truthy(opts.query) && !Truthy(opts.page) && !Truthy(opts.perPage)
    ensures ShelfUrl(opts) == BuildBookAllShelvesUrl(opts.userId, opts.key)
  {
    ShelfUrlExtendsAllShelves(opts);
    assert ExtraParams(opts) == [];
  }

  /** The optional parameters are omitted exactly when every option is falsy. */
  lemma ExtraParamsEmpty(opts: ShelfOptions)
    ensures ExtraParams(opts) == [] <==>
      !Truthy(opts.shelf) && !Truthy(opts.sort) && !Truthy(opts.order) &&
      !Truthy(opts.query) && !Truthy(opts.page) && !Truthy(opts.perPage)
  {
  }

  /** A shelf URL carries key, v=2 and then exactly the present options, in their fixed order. */
  lemma ShelfUrlParams(opts: ShelfOptions)
    requires '?' !in ToStr(opts.userId) && '#' !in ToStr(opts.userId)
    requires Plain(ToStr(opts.key))
    requires forall i :: 0 <= i < |ExtraParams(opts)| ==> Plain(ExtraParams(opts)[i])
    ensures QueryParams(ShelfUrl(opts)) == [Param("key", ToStr(opts.key)), "v=2"] + ExtraParams(opts)
  {
    ListPathPlain(ToStr(opts.userId));
    ShelfQuery(ShelfPath(opts.userId), ToStr(opts.key), ExtraParams(opts));
  }

  lemma ListPathPlain(u: string)
    requires '?' !in u && '#' !in u
    ensures '?' !in "review/list/" + u + ".xml" && '#' !in "review/list/" + u + ".xml"
  {
    var p := "review/list/" + u + ".xml";
    forall i | 0 <= i < |p| ensures p[i] != '?' && p[i] != '#' {
      if i >= 12 && i < 12 + |u| {
        assert p[i] == u[i - 12];
      }
    }
  }

  lemma ShelfQuery(path: string, k: string, extra: seq<string>)
    requires '?' !in path && '#' !in path && Plain(k)
    requires forall i :: 0 <= i < |extra| ==> Plain(extra[i])
    ensures QueryParams(ShelfUrlOf(path, k, extra)) == [Param("key", k), "v=2"] + extra
  {
    ShelfParamsPlain(k, extra);
    PathPlain(path);
    QueryParamsOf(BaseUrl + path, [Param("key", k), "v=2"] + extra);
  }

  lemma ShelfParamsPlain(k: string, extra: seq<string>)
    requires Plain(k)
    requires forall i :: 0 <= i < |extra| ==> Plain(extra[i])
    ensures forall i :: 0 <= i < |[Param("key", k), "v=2"] + extra| ==> Plain(([Param("key", k), "v=2"] + extra)[i])
  {
    var params := [Param("key", k), "v=2"] + extra;
    forall i | 0 <= i < |params| ensures Plain(params[i]) {
      if i >= 2 {
        assert params[i] == extra[i - 2];
      }
    }
  }

  /** `if (option) extraParameters.push(`${name}=${value}`)`. */
  method PushOption(params: seq<string>, name: string, option: JsValue, value: string) returns (r: seq<string>)
    ensures r == params + OptionParam(name, option, value)
  {
    r := params;
    if Truthy(option) {
      r := r + [name + "=" + value];
    }
  }

  lemma LeadingEmptyAppend(a: seq<string>, b: seq<string>, c: seq<string>,
                            d: seq<string>, e: seq<string>, f: seq<string>)
    ensures [""] + a + b + c + d + e + f == [""] + (a + b + c + d + e + f)
  {
  }

  /** `buildBookShelvesUrl(options)`: pushes each truthy option onto
      `extraParameters` (which starts as `['']`) and joins it with `&`. */
  method BuildBookShelvesUrl(opts: ShelfOptions) returns (url: string)
    ensures url == ShelfUrl(opts)
    ensures url != ""
  {
    var baseUrl := BuildBookAllShelvesUrl(opts.userId, opts.key);
    var extraParameters := [""];
    extraParameters := PushOption(extraParameters, "shelf", opts.shelf, ToStr(opts.shelf));
    extraParameters := PushOption(extraParameters, "sort", opts.sort, ToStr(opts.sort));
    extraParameters := PushOption(extraParameters, "order", opts.order, ToStr(opts.order));
    extraParameters := PushOption(extraParameters, "search[query]", opts.query, EncodeUri(ToStr(opts.query)));
    extraParameters := PushOption(extraParameters, "page", opts.page, ToStr(opts.page));
    extraParameters := PushOption(extraParameters, "per_page", opts.perPage, ToStr(opts.perPage));
    LeadingEmptyAppend(
      OptionParam("shelf", opts.shelf, ToStr(opts.shelf)),
      OptionParam("sort", opts.sort, ToStr(opts.sort)),
      OptionParam("order", opts.order, ToStr(opts.order)),
      OptionParam("search[query]", opts.query, EncodeUri(ToStr(opts.query))),
      OptionParam("page", opts.page, ToStr(opts.page)),
      OptionParam("per_page", opts.perPage, ToStr(opts.perPage)));
    assert extraParameters == [""] + ExtraParams(opts);

    var extraParametersString := if |extraParameters| > 1 then Join(extraParameters, "&") else "";
    JoinLeadingEmpty(ExtraParams(opts));
    assert extraParametersString == AmpPrefixed(ExtraParams(opts));
    url := baseUrl + extraParametersString;
    ShelfUrlExtendsAllShelves(opts);
  }

  // ------------------------------------------------------- responses

  /** The value `JSON.parse` gives for the converted response body. */
  datatype Json =
    | JUndefined
    | JNull
    | JBool(b: bool)
    | JNum(n: nat)
    | JStr(s: string)
    | JArr(items: seq<Json>)
    | JObj(fields: map<string, Json>)

  /** What `fetch` resolved to: the status, the text `${res.body}` renders as, and the
      value `JSON.parse` gives for the converted body text. */
  datatype Response = Response(status: nat, body: string, json: Json)

  /** The member of `GoodreadsResponse` each public method's promise resolves to:
      `Settle(resp, field)` with the field the method returns. */
  const BookField: string := "book"
  const UserField: string := "user"
  const ReviewsField: string := "reviews"

  /** Property read `v[name]`: a TypeError on undefined and null, undefined when absent. */
  function Member(v: Json, name: string): (r: Result<Json, Error>)
    ensures r.Err? <==> v.JUndefined? || v.JNull?
    ensures v.JObj? && name in v.fields ==> r == Ok(v.fields[name])
  {
    match v
    case JUndefined => Err(TypeError(UndefinedReadMessage(name)))
    case JNull => Err(TypeError(NullReadMessage(name)))
    case JObj(m) => Ok(if name in m then m[name] else JUndefined)
    case _ => Ok(JUndefined)
  }

  /** `res.GoodreadsResponse[field]`. */
  function Project(root: Json, field: string): (r: Result<Json, Error>)
    ensures r.Ok? <==>
      root.JObj? && "GoodreadsResponse" in root.fields &&
      !root.fields["GoodreadsResponse"].JUndefined? && !root.fields["GoodreadsResponse"].JNull?
    ensures r.Ok? && root.fields["GoodreadsResponse"].JObj? && field in root.fields["GoodreadsResponse"].fields ==>
      r.value == root.fields["GoodreadsResponse"].fields[field]
  {
    match Member(root, "GoodreadsResponse")
    case Err(e) => Err(e)
    case Ok(g) => Member(g, field)
  }

  /** The status text of `HTTP Error <status>: <body>`, read back. */
  function StatusOf(message: string): Option<nat> {
    var prefix := "HTTP Error ";
    if |message| >= |prefix| && message[..|prefix|] == prefix then
      var d := LeadingDigits(message[|prefix|..]);
      if d == "" then None else Some(DigitsValue(d))
    else None
  }

  /** What the promise of `fetchAndConvertToJson(url).then(res => res.GoodreadsResponse[field])` settles to. */
  function Settle(resp: Response, field: string): (r: Result<Json, Error>)
    ensures r.Ok? ==> resp.status == 200
    ensures resp.status == 200 ==> r == Project(resp.json, field)
    ensures resp.status == 401 ==> r == Err(PlainError(InvalidKeyMessage))
    ensures resp.status != 200 && resp.status != 401 ==>
      r.Err? && r.error.PlainError? && StatusOf(r.error.message) == Some(resp.status)
  {
    if resp.status == 200 then Project(resp.json, field)
    else if resp.status == 401 then Err(PlainError(InvalidKeyMessage))
    else
      var message := "HTTP Error " + NatToString(resp.status) + ": " + resp.body;
      StatusNamed(resp.status, resp.body);
      Err(PlainError(message))
  }

  lemma StatusNamed(status: nat, body: string)
    ensures StatusOf("HTTP Error " + NatToString(status) + ": " + body) == Some(status)
  {
    var prefix := "HTTP Error ";
    var m := prefix + NatToString(status) + ": " + body;
    assert m[..|prefix|] == prefix;
    assert m[|prefix|..] == NatToString(status) + (": " + body);
    LeadingDigitsOf(NatToString(status), ": " + body);
    DigitsValueOfNatToString(status);
  }

  /** A 200 response whose body is `<GoodreadsResponse><field>x</field></GoodreadsResponse>` gives `x`. */
  lemma SettleOk(field: string, x: Json, body: string)
    ensures Settle(Response(200, body, JObj(map["GoodreadsResponse" := JObj(map[field := x])])), field) == Ok(x)
  {
  }

  // ------------------------------------------------------------- the client

  /** An instance of `goodreads(key)`. */
  class Client {
    var key: JsValue

    /** `this.key = key || ''`. */
    constructor (key: JsValue)
      ensures this.key == InstanceKey(key)
    {
      this.key := InstanceKey(key);
    }

    /** `getBookInfo(request)`: a URL-shaped string is used as it is, an object is
        built into a book URL, anything else throws a TypeError. `matchesUrl` is
        the outcome of the URL pattern test on a string argument. `r` is the URL
        fetched and `field` the member its promise resolves to (index.js:109). */
    method GetBookInfo(request: JsValue, matchesUrl: bool) returns (r: Result<string, Error>, field: string)
      ensures field == BookField
      ensures request.Str? ==>
        r == if matchesUrl && request.s != "" then Ok(request.s) else Err(TypeError(BookArgumentMessage))
      ensures request.Obj? ==>
        r == BuildBookUrl(request.ref.Get("title"), ResolveKey(request.ref.Get("key"), key), request.ref.Get("author"))
      ensures request.Null? ==> r == Err(TypeError(NullReadMessage("title")))
      ensures request.Undefined? || request.Bool? || request.Num? ==> r == Err(TypeError(BookArgumentMessage))
      ensures r.Ok? ==> r.value != ""
    {
      field := BookField;
      var isUrl := request.Str? && matchesUrl;
      var isBookRequestObject := TypeOf(request) == "object";
      var bookUrl: JsValue := Undefined;
      if isUrl {
        bookUrl := request;
      } else if isBookRequestObject {
        if request.Null? {
          r := Err(TypeError(NullReadMessage("title")));
          return;
        }
        var o := request.ref;
        var built := BuildBookUrl(o.Get("title"), ResolveKey(o.Get("key"), key), o.Get("author"));
        if built.Err? {
          r := Err(built.error);
          return;
        }
        bookUrl := Str(built.value);
      }
      if !Truthy(bookUrl) {
        r := Err(TypeError(BookArgumentMessage));
        return;
      }
      r := Ok(bookUrl.s);
    }

    /** `getUserInfo(userId, key)`: a TypeError unless `userId` is a number or a
        string; the promise resolves to the `user` member (index.js:124). */
    method GetUserInfo(userId: JsValue, callKey: JsValue) returns (r: Result<string, Error>, field: string)
      ensures field == UserField
      ensures userId.Num? || userId.Str? ==> r == Ok(BuildUserInfoUrl(userId, ResolveKey(callKey, key)))
      ensures !(userId.Num? || userId.Str?) ==> r == Err(TypeError(UserIdMessage))
    {
      field := UserField;
      if TypeOf(userId) != "number" && TypeOf(userId) != "string" {
        r := Err(TypeError(UserIdMessage));
        return;
      }
      r := Ok(BuildUserInfoUrl(userId, ResolveKey(callKey, key)));
    }

    /** `getShelfBooks(request)`: a user id gives the all-shelves URL with the
        instance key; an object first gets `request.key = request.key || this.key`
        written into it and is then built with `buildBookShelvesUrl`. The promise
        resolves to the `reviews` member (index.js:187). */
    method GetShelfBooks(request: JsValue) returns (r: Result<string, Error>, field: string)
      modifies if request.Obj? then {request.ref} else {}
      ensures field == ReviewsField
      ensures request.Str? || request.Num? ==> r == Ok(BuildBookAllShelvesUrl(request, key))
      ensures request.Obj? ==>
        request.ref.props == old(request.ref.props)["key" := ResolveKey(old(request.ref.Get("key")), key)]
      ensures request.Obj? ==> r == Ok(ShelfUrl(OptionsOf(request.ref)))
      ensures request.Null? ==> r == Err(TypeError(NullReadMessage("key")))
      ensures request.Undefined? || request.Bool? ==> r == Err(TypeError(ShelfArgumentMessage))
    {
      field := ReviewsField;
      var shelfUrl: JsValue := Undefined;
      if TypeOf(request) == "string" || TypeOf(request) == "number" {
        var url := BuildBookAllShelvesUrl(request, key);
        shelfUrl := Str(url);
        assert Truthy(shelfUrl);
      } else if TypeOf(request) == "object" {
        if request.Null? {
          r := Err(TypeError(NullReadMessage("key")));
          return;
        }
        var o := request.ref;
        o.props := o.props["key" := ResolveKey(o.Get("key"), key)];
        var opts := OptionsOf(o);
        var url := BuildBookShelvesUrl(opts);
        assert OptionsOf(o) == opts;
        shelfUrl := Str(url);
        assert Truthy(shelfUrl);
      }
      if !Truthy(shelfUrl) {
        r := Err(TypeError(ShelfArgumentMessage));
        return;
      }
      r := Ok(shelfUrl.s);
    }
  }
}
