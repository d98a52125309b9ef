/** lib/getServices.js: look up businesses near a ZIP code that offer a
    service, page by page, until 20 entries are collected or 5 pages have
    been requested. The geocoding answer, the nearby-search pages and the
    place details are inputs: `located` says whether geocoding found a
    location, `nearby(token)` is the page returned for a page token, and
    `details(placeId)` the details result for a place. */
module Services {
  import opened Base
  import opened Phone

  const MaxEntries: nat := 20
  const MaxPages: nat := 5

  /** A nearby-search page: its place ids and its `next_page_token`
      (`""` when there is none). */
  datatype Page = Page(results: seq<string>, nextToken: string)

  /** A details result; a field that is missing is `""`. */
  datatype Details = Details(name: string, phone: string)

  datatype Business = Business(name: string, phone: string)

  /** What the crawl collected and the page tokens it requested, in order. */
  datatype Crawled = Crawled(entries: seq<Business>, requested: seq<string>)

  /** An entry as the loop builds it: a name and a formatted phone. */
  predicate WellFormed(b: Business)
  {
    b.name != "" && StartsWith(b.phone, "+1")
  }

  predicate AllWellFormed(entries: seq<Business>)
  {
    forall i :: 0 <= i < |entries| ==> WellFormed(entries[i])
  }

  /** The entry a details result contributes: only one with both a name and
      a phone, the phone formatted. */
  function EntryOf(d: Option<Details>): (r: Option<Business>)
    ensures r.Some? <==> d.Some? && d.value.name != "" && d.value.phone != ""
    ensures r.Some? ==> r.value == Business(d.value.name, FormatPhoneNumber(Some(d.value.phone)).value)
    ensures r.Some? ==> WellFormed(r.value)
  {
    if d.Some? && d.value.name != "" && d.value.phone != "" then
      Some(Business(d.value.name, FormatPhoneNumber(Some(d.value.phone)).value))
    else None
  }

  /** The inner loop over one page's places, starting from `acc`: entries
      are appended in place order and nothing is added once 20 are held. */
  function FromPage(results: seq<string>, details: string -> Option<Details>, acc: seq<Business>)
    : (r: seq<Business>)
    ensures acc <= r
    ensures |r| <= |acc| + |results|
    ensures |acc| <= MaxEntries ==> |r| <= MaxEntries
    ensures |acc| >= MaxEntries ==> r == acc
    ensures AllWellFormed(acc) ==> AllWellFormed(r)
  {
    if results == [] || |acc| >= MaxEntries then acc
    else
      var e := EntryOf(details(results[0]));
      FromPage(results[1..], details, if e.Some? then acc + [e.value] else acc)
  }

  /** The entries the places of one page offer, in place order, with no
      bound: a reference for what the inner loop collects. */
  function Entries(results: seq<string>, details: string -> Option<Details>): (r: seq<Business>)
    ensures |r| <= |results|
  {
    if results == [] then []
    else
      var e := EntryOf(details(results[0]));
      (if e.Some? then [e.value] else []) + Entries(results[1..], details)
  }

  /** The entries offered by the pages requested with `tokens`, in request
      order. */
  function Listed(nearby: string -> Page, details: string -> Option<Details>, tokens: seq<string>): seq<Business>
  {
    if tokens == [] then [] else Entries(nearby(tokens[0]).results, details) + Listed(nearby, details, tokens[1..])
  }

  /** The inner loop keeps the first 20 of what it held followed by every
      entry the page offers. */
  lemma {:induction false} FromPageCollects(results: seq<string>, details: string -> Option<Details>, acc: seq<Business>)
    requires |acc| <= MaxEntries
    ensures FromPage(results, details, acc) == Take(acc + Entries(results, details), MaxEntries)
    decreases |results|
  {
    if results == [] {
      assert acc + [] == acc;
    } else if |acc| >= MaxEntries {
      assert (acc + Entries(results, details))[..MaxEntries] == acc;
    } else {
      var e := EntryOf(details(results[0]));
      var later := Entries(results[1..], details);
      var next := if e.Some? then acc + [e.value] else acc;
      if e.Some? {
        assert Entries(results, details) == [e.value] + later;
        assert acc + ([e.value] + later) == next + later;
      } else {
        assert Entries(results, details) == [] + later == later;
      }
      FromPageCollects(results[1..], details, next);
    }
  }

  /** The outer loop from page token `token` after `attempts` pages. */
  function Crawl(nearby: string -> Page, details: string -> Option<Details>,
                 token: string, attempts: nat, acc: seq<Business>)
    : (r: Crawled)
    requires attempts <= MaxPages
    ensures |r.requested| <= MaxPages - attempts
    decreases MaxPages - attempts
  {
    if |acc| >= MaxEntries || attempts >= MaxPages then Crawled(acc, [])
    else
      var page := nearby(token);
      var rest := Crawl(nearby, details, page.nextToken, attempts + 1, FromPage(page.results, details, acc));
      Crawled(rest.entries, [token] + rest.requested)
  }

  /** What the crawl promises: earlier entries stay first, at most 20
      entries, at most 5 page requests, and fewer than 5 only once 20
      entries are held; each request after the first uses the previous
      page's `next_page_token`, and every entry is a named business with a
      `+1` phone. */
  lemma {:induction false} CrawlShape(nearby: string -> Page, details: string -> Option<Details>,
                                      token: string, attempts: nat, acc: seq<Business>)
    requires attempts <= MaxPages && |acc| <= MaxEntries
    requires AllWellFormed(acc)
    ensures var r := Crawl(nearby, details, token, attempts, acc);
      && acc <= r.entries
      && |r.entries| <= MaxEntries
      && |r.requested| <= MaxPages - attempts
      && (|r.requested| == MaxPages - attempts || |r.entries| == MaxEntries)
      && (r.requested != [] ==> r.requested[0] == token)
      && (forall i :: 0 <= i < |r.requested| - 1 ==> r.requested[i + 1] == nearby(r.requested[i]).nextToken)
      && AllWellFormed(r.entries)
    decreases MaxPages - attempts
  {
    CrawlStops(nearby, details, token, attempts, acc);
    CrawlTokens(nearby, details, token, attempts, acc);
    if !(|acc| >= MaxEntries || attempts >= MaxPages) {
      var page := nearby(token);
      var next := FromPage(page.results, details, acc);
      CrawlShape(nearby, details, page.nextToken, attempts + 1, next);
      assert Crawl(nearby, details, token, attempts, acc).entries
          == Crawl(nearby, details, page.nextToken, attempts + 1, next).entries;
    }
  }

  /** Each request after the first uses the previous page's
      `next_page_token`. */
  lemma {:induction false} CrawlTokens(nearby: string -> Page, details: string -> Option<Details>,
                                       token: string, attempts: nat, acc: seq<Business>)
    requires attempts <= MaxPages
    ensures var r := Crawl(nearby, details, token, attempts, acc);
      && (r.requested != [] ==> r.requested[0] == token)
      && (forall i :: 0 <= i < |r.requested| - 1 ==> r.requested[i + 1] == nearby(r.requested[i]).nextToken)
    decreases MaxPages - attempts
  {
    if !(|acc| >= MaxEntries || attempts >= MaxPages) {
      var page := nearby(token);
      var next := FromPage(page.results, details, acc);
      CrawlTokens(nearby, details, page.nextToken, attempts + 1, next);
      var rest := Crawl(nearby, details, page.nextToken, attempts + 1, next);
      var r := Crawl(nearby, details, token, attempts, acc);
      assert r.requested == [token] + rest.requested;
      forall i | 0 <= i < |r.requested| - 1
        ensures r.requested[i + 1] == nearby(r.requested[i]).nextToken
      {
        if i > 0 {
          assert r.requested[i] == rest.requested[i - 1];
        }
      }
    }
  }

  /** What the crawl collects: the first 20 of the entries it held followed
      by those of every page it requested, in request order. */
  lemma {:induction false} CrawlCollects(nearby: string -> Page, details: string -> Option<Details>,
                                         token: string, attempts: nat, acc: seq<Business>)
    requires attempts <= MaxPages && |acc| <= MaxEntries
    ensures var r := Crawl(nearby, details, token, attempts, acc);
      r.entries == Take(acc + Listed(nearby, details, r.requested), MaxEntries)
    decreases MaxPages - attempts
  {
    var r := Crawl(nearby, details, token, attempts, acc);
    if |acc| >= MaxEntries || attempts >= MaxPages {
      assert r == Crawled(acc, []);
      assert acc + [] == acc;
    } else {
      var page := nearby(token);
      var here := Entries(page.results, details);
      var next := FromPage(page.results, details, acc);
      FromPageCollects(page.results, details, acc);
      CrawlCollects(nearby, details, page.nextToken, attempts + 1, next);
      var rest := Crawl(nearby, details, page.nextToken, attempts + 1, next);
      var later := Listed(nearby, details, rest.requested);
      assert r == Crawled(rest.entries, [token] + rest.requested);
      assert Listed(nearby, details, r.requested) == here + later by {
        assert r.requested[0] == token && r.requested[1..] == rest.requested;
      }
      TakeAppend(acc, here, later, MaxEntries);
    }
  }

  /** The crawl requests fewer than 5 pages only when it ends holding 20
      entries. */
  lemma {:induction false} CrawlStops(nearby: string -> Page, details: string -> Option<Details>,
                                      token: string, attempts: nat, acc: seq<Business>)
    requires attempts <= MaxPages && |acc| <= MaxEntries
    ensures var r := Crawl(nearby, details, token, attempts, acc);
      |r.requested| == MaxPages - attempts || |r.entries| == MaxEntries
    decreases MaxPages - attempts
  {
    if !(|acc| >= MaxEntries || attempts >= MaxPages) {
      var page := nearby(token);
      CrawlStops(nearby, details, page.nextToken, attempts + 1, FromPage(page.results, details, acc));
    }
  }

  /** A first page without a `next_page_token` resets the token to `""`,
      so every page requested is the first page again; there is no
      deduplication. */
  lemma {:induction false} NoNextTokenRepeatsFirstPage(nearby: string -> Page, details: string -> Option<Details>,
                                                        attempts: nat, acc: seq<Business>)
    requires attempts <= MaxPages
    requires nearby("").nextToken == ""
    ensures forall i :: 0 <= i < |Crawl(nearby, details, "", attempts, acc).requested| ==>
      Crawl(nearby, details, "", attempts, acc).requested[i] == ""
    decreases MaxPages - attempts
  {
    if !(|acc| >= MaxEntries || attempts >= MaxPages) {
      NoNextTokenRepeatsFirstPage(nearby, details, attempts + 1, FromPage(nearby("").results, details, acc));
    }
  }

  /** With one listed place and no next page, the same business is
      collected once per page request: five times. */
  lemma SamePlaceCollectedPerPage(nearby: string -> Page, details: string -> Option<Details>, place: string, b: Business)
    requires nearby("") == Page([place], "")
    requires EntryOf(details(place)) == Some(b)
    ensures Crawl(nearby, details, "", 0, []) == Crawled([b, b, b, b, b], ["", "", "", "", ""])
  {
    SamePlaceFrom(nearby, details, place, b, 0);
    assert seq(0, _ => b) == [];
    assert seq(MaxPages, _ => b) == [b, b, b, b, b];
    assert seq(MaxPages, _ => "") == ["", "", "", "", ""];
  }

  lemma {:induction false} SamePlaceFrom(nearby: string -> Page, details: string -> Option<Details>, place: string,
                                         b: Business, attempts: nat)
    requires attempts <= MaxPages
    requires nearby("") == Page([place], "")
    requires EntryOf(details(place)) == Some(b)
    ensures Crawl(nearby, details, "", attempts, seq(attempts, _ => b))
         == Crawled(seq(MaxPages, _ => b), seq(MaxPages - attempts, _ => ""))
    decreases MaxPages - attempts
  {
    var acc := seq(attempts, _ => b);
    if attempts < MaxPages {
      assert FromPage([place], details, acc) == seq(attempts + 1, _ => b) by {
        assert [place][1..] == [];
      }
      SamePlaceFrom(nearby, details, place, b, attempts + 1);
      assert [""] + seq(MaxPages - (attempts + 1), _ => "") == seq(MaxPages - attempts, _ => "");
    }
  }

  /** One turn of the inner loop. */
  lemma FromPageStep(results: seq<string>, i: nat, details: string -> Option<Details>, acc: seq<Business>)
    requires i < |results| && |acc| < MaxEntries
    ensures var e := EntryOf(details(results[i]));
      FromPage(results[i..], details, acc) == FromPage(results[i + 1..], details, if e.Some? then acc + [e.value] else acc)
  {
    assert results[i..][0] == results[i] && results[i..][1..] == results[i + 1..];
  }

  /** One turn of the outer loop. */
  lemma CrawlStep(nearby: string -> Page, details: string -> Option<Details>, token: string, attempts: nat,
                  acc: seq<Business>, requested: seq<string>)
    requires attempts < MaxPages && |acc| < MaxEntries
    ensures var page := nearby(token);
      var here := Crawl(nearby, details, token, attempts, acc);
      var rest := Crawl(nearby, details, page.nextToken, attempts + 1, FromPage(page.results, details, acc));
      here.entries == rest.entries && requested + here.requested == (requested + [token]) + rest.requested
  {
    var page := nearby(token);
    var rest := Crawl(nearby, details, page.nextToken, attempts + 1, FromPage(page.results, details, acc));
    assert Crawl(nearby, details, token, attempts, acc) == Crawled(rest.entries, [token] + rest.requested);
    assert requested + ([token] + rest.requested) == (requested + [token]) + rest.requested;
  }

  /** The inner loop over one page: stops adding once 20 entries are held. */
  method TakeFromPage(results: seq<string>, details: string -> Option<Details>, acc: seq<Business>)
    returns (found: seq<Business>)
    requires |acc| <= MaxEntries
    ensures found == FromPage(results, details, acc)
  {
    found := acc;
    var i := 0;
    while i < |results|
      invariant 0 <= i <= |results| && |found| <= MaxEntries
      invariant FromPage(results[i..], details, found) == FromPage(results, details, acc)
    {
      if |found| >= MaxEntries {
        break;
      }
      FromPageStep(results, i, details, found);
      var e := EntryOf(details(results[i]));
      if e.Some? {
        found := found + [e.value];
      }
      i := i + 1;
    }
  }

  /** `getServices`: `None` when geocoding finds no location (the function
      throws before any nearby search); otherwise the collected entries.
      `requested` lists the page token of every nearby-search request. */
  method GetServices(located: bool, nearby: string -> Page, details: string -> Option<Details>)
    returns (businesses: Option<seq<Business>>, requested: seq<string>)
    ensures !located ==> businesses.None? && requested == []
    ensures located ==> var c := Crawl(nearby, details, "", 0, []);
      businesses == Some(c.entries) && requested == c.requested
    ensures located ==>
      && |businesses.value| <= MaxEntries && |requested| <= MaxPages
      && (|requested| == MaxPages || |businesses.value| == MaxEntries)
      && (requested != [] ==> requested[0] == "")
      && AllWellFormed(businesses.value)
    ensures located ==> businesses.value == Take(Listed(nearby, details, requested), MaxEntries)
  {
    requested := [];
    if !located {
      return None, requested;
    }
    var found: seq<Business> := [];
    var pageToken := "";
    var attempts := 0;
    ghost var goal := Crawl(nearby, details, "", 0, []);
    while |found| < MaxEntries && attempts < MaxPages
      invariant 0 <= attempts <= MaxPages && |found| <= MaxEntries
      invariant Crawl(nearby, details, pageToken, attempts, found).entries == goal.entries
      invariant requested + Crawl(nearby, details, pageToken, attempts, found).requested == goal.requested
      decreases MaxPages - attempts
    {
      CrawlStep(nearby, details, pageToken, attempts, found, requested);
      var page := nearby(pageToken);
      var next := TakeFromPage(page.results, details, found);
      requested := requested + [pageToken];
      found := next;
      pageToken := page.nextToken;
      attempts := attempts + 1;
    }
    assert Crawl(nearby, details, pageToken, attempts, found) == Crawled(found, []);
    assert requested + [] == requested;
    CrawlShape(nearby, details, "", 0, []);
    CrawlCollects(nearby, details, "", 0, []);
    assert [] + Listed(nearby, details, requested) == Listed(nearby, details, requested);
    businesses := Some(found);
  }
}
