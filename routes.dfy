/** The `/api/urls` handlers: shorten, list by owner, delete by owner and
    analytics. Each handler is one sequential step over the `Url` collection;
    every answer other than success leaves the collection's records as they
    were.

    Foreign parts are parameters: `validUrl` stands for `new URL(...)` not
    throwing, `generated` for `shortid.generate()`, `now` for the clock in
    milliseconds, `baseUrl` for `process.env.BASE_URL`, and `fault` for a
    database write that fails for reasons outside the model. The requester of
    a protected route is the account id the `auth` middleware decoded. */
module Routes {
  import opened UrlModel
  import opened Analytics

  /** Text meant to hold an ObjectId (a path parameter or the body's
      `userId`): either it casts to one, or it is the empty string (falsy,
      and it does not cast), or it is other text that does not cast. */
  datatype IdText = ObjectIdText(oid: ObjectId) | EmptyText | OtherText

  /** JavaScript truthiness of the body's optional `userId`. */
  predicate LoggedIn(userId: Option<IdText>) {
    userId.Some? && !userId.value.EmptyText?
  }

  /** An error answer: its HTTP status and message. */
  datatype Failure = Failure(status: nat, message: string)

  /** A handler's answer: success with its payload, or an error answer. */
  datatype Reply<T> = Ok(value: T) | Fail(failure: Failure)

  const TITLE_REQUIRED := Failure(400, "Title is required")
  const INVALID_URL := Failure(400, "Invalid URL format")
  const LOGIN_REQUIRED := Failure(401, "Please login to use custom aliases")
  const ALIAS_TAKEN := Failure(400, "Custom alias already taken")
  const NOT_FOUND := Failure(404, "URL not found")
  const NOT_OWNER := Failure(403, "Not authorized to delete this URL")
  const SERVER_ERROR := Failure(500, "Server error")
  const DELETED := "URL deleted successfully"

  /** The JSON body of `POST /shorten`; an absent field is `None`. */
  datatype ShortenRequest = ShortenRequest(
    originalUrl: Option<string>,
    customAlias: Option<string>,
    userId: Option<IdText>,
    title: Option<string>)

  /** `new URL(originalUrl)` does not throw. */
  predicate Parses(originalUrl: Option<string>, validUrl: string -> bool) {
    originalUrl.Some? && validUrl(originalUrl.value)
  }

  /** The owner a request records: the body's `userId` when it casts. */
  function Owner(userId: Option<IdText>): Option<ObjectId> {
    if userId.Some? && userId.value.ObjectIdText? then Some(userId.value.oid) else None
  }

  /** The code a new link gets: the custom alias when truthy, otherwise the
      generated one. */
  function ChosenCode(customAlias: Option<string>, generated: ShortCode): (code: ShortCode)
    ensures Truthy(customAlias) ==> code == customAlias.value
    ensures !Truthy(customAlias) ==> code == generated
  {
    if Truthy(customAlias) then customAlias.value else generated
  }

  /** A request gets past all four input checks. */
  predicate PassesChecks(links: seq<Link>, req: ShortenRequest, validUrl: string -> bool) {
    && Truthy(req.title)
    && Parses(req.originalUrl, validUrl)
    && (Truthy(req.customAlias) ==> LoggedIn(req.userId) && IndexOfCode(links, req.customAlias.value).None?)
  }

  /** After the checks, the save succeeds: an owner that is given casts, the
      URL is not empty (the `required` check), the code is free, and the
      write goes through. */
  predicate Storable(links: seq<Link>, req: ShortenRequest, code: string, fault: bool) {
    && !fault
    && (req.userId.Some? ==> req.userId.value.ObjectIdText?)
    && req.originalUrl != Some("")
    && IndexOfCode(links, code).None?
  }

  /** Every record that sets a custom alias uses it as its code. */
  predicate AliasesAreCodes(links: seq<Link>) {
    forall i :: 0 <= i < |links| && links[i].customAlias.Some? ==> links[i].customAlias.value == links[i].shortUrl
  }

  /** While every stored alias is a code, the alias check, which looks the
      alias up among the codes only, finds every stored alias. */
  lemma AliasCheckFindsAliases(links: seq<Link>, alias: string)
    requires AliasesAreCodes(links)
    ensures (exists i :: 0 <= i < |links| && links[i].customAlias == Some(alias)) ==> IndexOfCode(links, alias).Some?
  {
    if exists i :: 0 <= i < |links| && links[i].customAlias == Some(alias) {
      var i :| 0 <= i < |links| && links[i].customAlias == Some(alias);
      assert links[i].shortUrl == alias;
    }
  }

  /** The document `new Url({...})` builds for a request that passed the
      checks, storing the custom alias only when it is truthy: the record
      keeps the alias-is-code invariant and the hook leaves it as it is. */
  function NewLink(id: ObjectId, req: ShortenRequest, generated: ShortCode, now: int): (r: Link)
    requires req.originalUrl.Some? && req.title.Some?
    ensures r.shortUrl == ChosenCode(req.customAlias, generated)
    ensures r.customAlias.Some? <==> Truthy(req.customAlias)
    ensures r.customAlias.Some? ==> r.customAlias.value == r.shortUrl
    ensures AliasesAreCodes([r])
    ensures PreSave(r, generated) == r
    ensures r.id == id && r.userId == Owner(req.userId) && r.createdAt == now && r.clicks == []
    ensures Truthy(req.title) ==> (HasRequiredFields(r) <==> req.originalUrl != Some(""))
  {
    Link(id, req.originalUrl.value, ChosenCode(req.customAlias, generated),
         if Truthy(req.customAlias) then req.customAlias else None,
         Owner(req.userId), req.title.value, now, [])
  }

  /** The same document with the custom alias stored exactly as the request
      gave it: an empty alias is stored too, and then the record breaks the
      alias-is-code invariant. */
  function NewLinkAsWritten(id: ObjectId, req: ShortenRequest, generated: ShortCode, now: int): (r: Link)
    requires req.originalUrl.Some? && req.title.Some?
    ensures r.shortUrl == ChosenCode(req.customAlias, generated)
    ensures r.customAlias == req.customAlias
    ensures AliasesAreCodes([r]) <==> req.customAlias != Some("")
    ensures PreSave(r, generated) == r
  {
    var r := Link(id, req.originalUrl.value, ChosenCode(req.customAlias, generated), req.customAlias,
                  Owner(req.userId), req.title.value, now, []);
    assert [r][0] == r;
    r
  }

  /** With the alias stored only when truthy, a new link is refused by the
      schema exactly when its code is already some record's code or its URL
      is empty: the sparse alias index never refuses on its own. */
  lemma NewLinkAdmittedIff(links: seq<Link>, id: ObjectId, req: ShortenRequest, generated: ShortCode, now: int)
    requires SchemaValid(links) && AliasesAreCodes(links)
    requires forall i :: 0 <= i < |links| ==> links[i].id != id
    requires Truthy(req.title) && req.originalUrl.Some?
    ensures var code := ChosenCode(req.customAlias, generated);
      CanInsert(links, NewLink(id, req, generated, now)) <==> req.originalUrl != Some("") && IndexOfCode(links, code).None?
  {
    var rec := NewLink(id, req, generated, now);
    var code := ChosenCode(req.customAlias, generated);
    if req.originalUrl != Some("") && IndexOfCode(links, code).None? {
      forall i | 0 <= i < |links| ensures Compatible(links[i], rec) {
        if links[i].customAlias.Some? && rec.customAlias.Some? {
          assert links[i].shortUrl == links[i].customAlias.value;
        }
      }
    }
  }

  /** The code as written stores an empty custom alias, and the sparse unique
      index counts it: after one link made with `customAlias: ""`, a second
      one made the same way is refused although its generated code is free
      and it passed every check. */
  lemma EmptyAliasBlocksSecondLink()
    ensures
      var first := ShortenRequest(Some("https://a.example"), Some(""), None, Some("a"));
      var second := ShortenRequest(Some("https://b.example"), Some(""), None, Some("b"));
      var stored := [NewLinkAsWritten(0, first, "abc1234", 0)];
      && CanInsert([], stored[0])
      && PassesChecks(stored, second, (u: string) => true)
      && Storable(stored, second, "xyz7890", false)
      && !CanInsert(stored, NewLinkAsWritten(1, second, "xyz7890", 1))
      && CanInsert([NewLink(0, first, "abc1234", 0)], NewLink(1, second, "xyz7890", 1))
  {
    var first := ShortenRequest(Some("https://a.example"), Some(""), None, Some("a"));
    var stored := [NewLinkAsWritten(0, first, "abc1234", 0)];
    assert IndexOfCode(stored, "xyz7890").None?;
  }

  /** `POST /shorten`: the title check, the URL check, the login check for a
      custom alias and the alias check, in that order; then one new record
      whose code is the alias or a generated code, answered with the full
      short URL. A failed save answers 500 with no retry. */
  method Shorten(urls: UrlCollection, req: ShortenRequest, generated: ShortCode, baseUrl: string,
                 now: int, validUrl: string -> bool, fault: bool) returns (reply: Reply<string>)
    requires urls.Valid() && AliasesAreCodes(urls.links)
    modifies urls
    ensures urls.Valid() && AliasesAreCodes(urls.links)
    ensures !Truthy(req.title) ==> reply == Fail(TITLE_REQUIRED)
    ensures Truthy(req.title) && !Parses(req.originalUrl, validUrl) ==> reply == Fail(INVALID_URL)
    ensures Truthy(req.title) && Parses(req.originalUrl, validUrl) && Truthy(req.customAlias) && !LoggedIn(req.userId)
      ==> reply == Fail(LOGIN_REQUIRED)
    ensures (Truthy(req.title) && Parses(req.originalUrl, validUrl) && Truthy(req.customAlias) && LoggedIn(req.userId)
             && IndexOfCode(old(urls.links), req.customAlias.value).Some?) ==> reply == Fail(ALIAS_TAKEN)
    ensures !PassesChecks(old(urls.links), req, validUrl) ==> urls.links == old(urls.links)
    ensures PassesChecks(old(urls.links), req, validUrl) ==>
      var code := ChosenCode(req.customAlias, generated);
      var n := |old(urls.links)|;
      if Storable(old(urls.links), req, code, fault) then
        && reply == Ok(baseUrl + "/" + code)
        && |urls.links| == n + 1
        && urls.links[..n] == old(urls.links)
        && urls.links[n] == NewLink(urls.links[n].id, req, generated, now)
        && forall i :: 0 <= i < n ==> old(urls.links)[i].id != urls.links[n].id
      else
        reply == Fail(SERVER_ERROR) && urls.links == old(urls.links)
  {
    if !Truthy(req.title) {
      return Fail(TITLE_REQUIRED);
    }
    if !Parses(req.originalUrl, validUrl) {
      return Fail(INVALID_URL);
    }
    if Truthy(req.customAlias) && !LoggedIn(req.userId) {
      return Fail(LOGIN_REQUIRED);
    }
    if Truthy(req.customAlias) && IndexOfCode(urls.links, req.customAlias.value).Some? {
      return Fail(ALIAS_TAKEN);
    }
    var code := ChosenCode(req.customAlias, generated);
    if req.userId.Some? && !req.userId.value.ObjectIdText? {
      // the owner cannot be cast to an ObjectId, so validation rejects the save
      return Fail(SERVER_ERROR);
    }
    var id := urls.NewId();
    var doc := NewLink(id, req, generated, now);
    NewLinkAdmittedIff(urls.links, id, req, generated, now);
    // the hook's own call to the generator is never reached: `doc` has a code
    var saved := urls.Insert(doc, generated, fault);
    if !saved {
      return Fail(SERVER_ERROR);
    }
    reply := Ok(baseUrl + "/" + code);
  }

  /** Ordered by `createdAt`, newest first. */
  predicate NewestFirst(s: seq<Link>) {
    forall i, j :: 0 <= i < j < |s| ==> s[i].createdAt >= s[j].createdAt
  }

  /** `find({ userId })`: the owner's records, each as often as stored. */
  function OwnedBy(links: seq<Link>, owner: ObjectId): (r: seq<Link>)
    ensures forall l :: multiset(r)[l] == if l.userId == Some(owner) then multiset(links)[l] else 0
  {
    if |links| == 0 then []
    else
      assert links == [links[0]] + links[1..];
      (if links[0].userId == Some(owner) then [links[0]] else []) + OwnedBy(links[1..], owner)
  }

  /** One step of the sort: `l` placed before the first record not newer than it. */
  function InsertNewest(l: Link, s: seq<Link>): (r: seq<Link>)
    requires NewestFirst(s)
    ensures NewestFirst(r)
    ensures multiset(r) == multiset(s) + multiset{l}
    ensures |r| == |s| + 1 && (r[0] == l || (|s| > 0 && r[0] == s[0]))
  {
    if |s| == 0 then [l]
    else if l.createdAt >= s[0].createdAt then [l] + s
    else
      var rest := InsertNewest(l, s[1..]);
      assert s == [s[0]] + s[1..];
      assert multiset([s[0]] + rest) == multiset{s[0]} + multiset(rest);
      assert forall j :: 0 < j < |rest| ==> rest[0].createdAt >= rest[j].createdAt;
      [s[0]] + rest
  }

  /** `sort({ createdAt: -1 })`. */
  function SortNewestFirst(s: seq<Link>): (r: seq<Link>)
    ensures NewestFirst(r)
    ensures multiset(r) == multiset(s)
  {
    if |s| == 0 then []
    else
      assert s == [s[0]] + s[1..];
      InsertNewest(s[0], SortNewestFirst(s[1..]))
  }

  /** The owner's listing: exactly the records whose owner is `owner`, each
      once per occurrence, newest first. */
  function ListByOwner(links: seq<Link>, owner: ObjectId): (r: seq<Link>)
    ensures NewestFirst(r)
    ensures forall l :: multiset(r)[l] == if l.userId == Some(owner) then multiset(links)[l] else 0
    ensures forall l :: l in r <==> l in links && l.userId == Some(owner)
  {
    SortNewestFirst(OwnedBy(links, owner))
  }

  /** `GET /user/:userId`: read-only; a parameter that is not an ObjectId
      makes the query throw. */
  method ListUserUrls(urls: UrlCollection, userId: IdText) returns (reply: Reply<seq<Link>>)
    ensures !userId.ObjectIdText? ==> reply == Fail(SERVER_ERROR)
    ensures userId.ObjectIdText? ==> reply == Ok(ListByOwner(urls.links, userId.oid))
  {
    if !userId.ObjectIdText? {
      return Fail(SERVER_ERROR);
    }
    reply := Ok(ListByOwner(urls.links, userId.oid));
  }

  /** Removing a record keeps every remaining alias equal to its code. */
  lemma RemoveKeepsAliasesAreCodes(links: seq<Link>, k: nat)
    requires AliasesAreCodes(links) && k < |links|
    ensures AliasesAreCodes(links[..k] + links[k + 1..])
  {
    var rest := links[..k] + links[k + 1..];
    forall i | 0 <= i < |rest| ensures rest[i] == links[if i < k then i else i + 1] { }
  }

  /** `DELETE /:id`: 404 for an unknown id, 500 for a record without an owner
      (`url.userId.toString()` throws), 403 for someone else's record; only
      the owner removes exactly that record. */
  method DeleteUrl(urls: UrlCollection, id: IdText, requester: ObjectId, fault: bool) returns (reply: Reply<string>)
    requires urls.Valid()
    modifies urls`links
    ensures urls.Valid()
    ensures AliasesAreCodes(old(urls.links)) ==> AliasesAreCodes(urls.links)
    ensures !id.ObjectIdText? ==> reply == Fail(SERVER_ERROR)
    ensures id.ObjectIdText? ==> match IndexOfId(old(urls.links), id.oid)
      case None => reply == Fail(NOT_FOUND)
      case Some(k) =>
        var owner := old(urls.links)[k].userId;
        if owner.None? then reply == Fail(SERVER_ERROR)
        else if owner.value != requester then reply == Fail(NOT_OWNER)
        else if fault then reply == Fail(SERVER_ERROR)
        else reply == Ok(DELETED) && urls.links == old(urls.links)[..k] + old(urls.links)[k + 1..]
    ensures !reply.Ok? ==> urls.links == old(urls.links)
    ensures reply.Ok? ==> |urls.links| == |old(urls.links)| - 1
    ensures reply.Ok? ==> forall l :: l in urls.links <==> l in old(urls.links) && l.id != id.oid
  {
    if !id.ObjectIdText? {
      // `findById` cannot cast the parameter
      return Fail(SERVER_ERROR);
    }
    var found := IndexOfId(urls.links, id.oid);
    if found.None? {
      return Fail(NOT_FOUND);
    }
    var k := found.value;
    var owner := urls.links[k].userId;
    if owner.None? {
      return Fail(SERVER_ERROR);
    }
    if owner.value != requester {
      return Fail(NOT_OWNER);
    }
    ghost var rest := urls.links[..k] + urls.links[k + 1..];
    RemoveKeepsSchema(urls.links, k);
    if AliasesAreCodes(urls.links) {
      RemoveKeepsAliasesAreCodes(urls.links, k);
    }
    var ok := urls.DeleteOne(id.oid, fault);
    if !ok {
      return Fail(SERVER_ERROR);
    }
    assert urls.links == rest;
    reply := Ok(DELETED);
  }

  /** `GET /:id/analytics`: read-only, with no ownership check; 404 for an
      unknown id, otherwise the click log's summary. */
  method GetAnalytics(urls: UrlCollection, id: IdText, now: int) returns (reply: Reply<Summary>)
    ensures !id.ObjectIdText? ==> reply == Fail(SERVER_ERROR)
    ensures id.ObjectIdText? ==> match IndexOfId(urls.links, id.oid)
      case None => reply == Fail(NOT_FOUND)
      case Some(k) => reply == Ok(Summarize(urls.links[k].clicks, now))
  {
    if !id.ObjectIdText? {
      return Fail(SERVER_ERROR);
    }
    var found := IndexOfId(urls.links, id.oid);
    if found.None? {
      return Fail(NOT_FOUND);
    }
    var clicks := urls.links[found.value].clicks;
    var totalClicks := |clicks|;
    var uniqueVisitors := |DistinctIps(clicks)|;
    var daily := DailyClicks(clicks, now);
    reply := Ok(Summary(totalClicks, uniqueVisitors, daily));
  }
}
