/** The redirect route `GET /:shortUrl`: look the code up, append one click
    to that record's log, save it, and only then redirect to its target. */
module Server {
  import opened UrlModel
  import opened Routes

  /** A record with one more click at the end of its log. */
  function WithClick(l: Link, c: Click): Link {
    l.(clicks := l.clicks + [c])
  }

  /** The collection after a click on `code`: the first record with that code
      gains the click; nothing else changes. */
  function AfterClick(links: seq<Link>, code: string, c: Click): (r: seq<Link>)
    ensures |r| == |links|
    ensures forall i :: 0 <= i < |links| ==> links[i].clicks <= r[i].clicks
    ensures forall i :: 0 <= i < |links| ==> r[i].(clicks := links[i].clicks) == links[i]
    ensures IndexOfCode(links, code).None? ==> r == links
    ensures IndexOfCode(links, code).Some? ==>
      var k := IndexOfCode(links, code).value;
      && r[k].clicks == links[k].clicks + [c]
      && forall i :: 0 <= i < |links| && i != k ==> r[i] == links[i]
  {
    match IndexOfCode(links, code)
    case None => links
    case Some(k) => links[k := WithClick(links[k], c)]
  }

  /** The number of clicks recorded over the whole collection. */
  function ClickCount(links: seq<Link>): nat {
    if |links| == 0 then 0 else ClickCount(links[..|links| - 1]) + |links[|links| - 1].clicks|
  }

  /** Changing one record changes the total by the change in its log's length. */
  lemma {:induction false} ClickCountUpdate(links: seq<Link>, k: nat, rec: Link)
    requires k < |links|
    ensures ClickCount(links[k := rec]) + |links[k].clicks| == ClickCount(links) + |rec.clicks|
  {
    var n := |links|;
    var changed := links[k := rec];
    if k < n - 1 {
      assert changed[..n - 1] == links[..n - 1][k := rec];
      ClickCountUpdate(links[..n - 1], k, rec);
    } else {
      assert changed[..n - 1] == links[..n - 1];
    }
  }

  /** A click on a known code adds exactly one click to the collection's
      total; a click on an unknown code adds none. */
  lemma ClickCountGrowsByOne(links: seq<Link>, code: string, c: Click)
    ensures ClickCount(AfterClick(links, code, c)) == ClickCount(links) + (if IndexOfCode(links, code).Some? then 1 else 0)
  {
    var found := IndexOfCode(links, code);
    if found.Some? {
      ClickCountUpdate(links, found.value, WithClick(links[found.value], c));
    }
  }

  /** `GET /:shortUrl`: 404 for an unknown code; otherwise the click (stamped
      `now`, from `ip`) is appended and saved, and the answer is the redirect
      to the record's `originalUrl`; if the save fails the answer is 500, no
      redirect, and nothing changes. */
  method Redirect(urls: UrlCollection, code: string, ip: Option<string>, now: int,
                  generated: ShortCode, fault: bool) returns (reply: Reply<string>)
    requires urls.Valid()
    modifies urls`links
    ensures urls.Valid()
    ensures AliasesAreCodes(old(urls.links)) ==> AliasesAreCodes(urls.links)
    ensures IndexOfCode(old(urls.links), code).None? ==> reply == Fail(NOT_FOUND)
    ensures IndexOfCode(old(urls.links), code).Some? ==>
      var k := IndexOfCode(old(urls.links), code).value;
      reply == if fault then Fail(SERVER_ERROR) else Ok(old(urls.links)[k].originalUrl)
    ensures urls.links == if reply.Ok? then AfterClick(old(urls.links), code, Click(now, ip)) else old(urls.links)
  {
    var found := IndexOfCode(urls.links, code);
    if found.None? {
      return Fail(NOT_FOUND);
    }
    var k := found.value;
    var url := urls.links[k];
    url := WithClick(url, NewClick(Some(now), ip, now));
    SameKeysAdmitted(urls.links, k, url);
    // the hook's call to the generator is never reached: the record has a code
    var saved := urls.Update(url, generated, fault);
    if !saved {
      return Fail(SERVER_ERROR);
    }
    reply := Ok(url.originalUrl);
  }
}
