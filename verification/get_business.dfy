/** api/get_business.js: the same paged lookup as lib/getServices.js, but
    collecting formatted phone numbers only, behind request validation.
    Geocoding, nearby-search pages and place details are inputs as in
    module Services. */
module GetBusiness {
  import opened Base
  import opened Phone
  import opened Platform
  import Services

  /** The `formatted_phone_number` of a details result, `""` when absent. */
  function PhoneOf(d: Option<Services.Details>): string
  {
    if d.Some? then d.value.phone else ""
  }

  /** Every listed phone is a formatted one, starting `+1`. */
  predicate AllFormatted(phones: seq<string>)
  {
    forall i :: 0 <= i < |phones| ==> StartsWith(phones[i], "+1")
  }

  /** The inner loop over one page's places, starting from `phones`. A
      phone is appended, formatted, when present and when the RAW string
      is not already listed; nothing is added once 20 are held. */
  function FromPage(results: seq<string>, details: string -> Option<Services.Details>, phones: seq<string>)
    : (r: seq<string>)
    ensures phones <= r
    ensures |phones| <= Services.MaxEntries ==> |r| <= Services.MaxEntries
  {
    if results == [] || |phones| >= Services.MaxEntries then phones
    else
      var phone := PhoneOf(details(results[0]));
      var next := if phone != "" && phone !in phones then phones + [FormatPhoneNumber(Some(phone)).value] else phones;
      FromPage(results[1..], details, next)
  }

  /** Places are taken in order: one more place at the end of a page adds
      at most that place's phone, formatted, after everything the earlier
      places added; and it adds it exactly when fewer than 20 phones are
      held, the raw phone is present, and the raw phone is not already
      listed at that point. */
  lemma {:induction false} FromPageAppendPlace(results: seq<string>, x: string,
                                               details: string -> Option<Services.Details>, phones: seq<string>)
    ensures var before := FromPage(results, details, phones);
      var raw := PhoneOf(details(x));
      FromPage(results + [x], details, phones)
        == if |before| < Services.MaxEntries && raw != "" && raw !in before
           then before + [FormatPhoneNumber(Some(raw)).value]
           else before
    decreases |results|
  {
    if results == [] {
      assert results + [x] == [x];
      assert [x][1..] == [];
    } else if |phones| < Services.MaxEntries {
      assert (results + [x])[0] == results[0] && (results + [x])[1..] == results[1..] + [x];
      var phone := PhoneOf(details(results[0]));
      var next := if phone != "" && phone !in phones then phones + [FormatPhoneNumber(Some(phone)).value] else phones;
      FromPageAppendPlace(results[1..], x, details, next);
    }
  }

  /** `phone` is the formatted, present phone of one of the places. */
  ghost predicate FormattedFromSome(results: seq<string>, details: string -> Option<Services.Details>, phone: string)
  {
    exists i :: 0 <= i < |results| && PhoneOf(details(results[i])) != ""
                && phone == FormatPhoneNumber(Some(PhoneOf(details(results[i])))).value
  }

  /** Every phone a page adds is the formatted, present phone of one of
      its places: nothing else enters the list. */
  lemma {:induction false} FromPageOrigin(results: seq<string>, details: string -> Option<Services.Details>,
                                          phones: seq<string>, k: nat)
    requires |phones| <= k < |FromPage(results, details, phones)|
    ensures FormattedFromSome(results, details, FromPage(results, details, phones)[k])
    decreases |results|
  {
    var phone := PhoneOf(details(results[0]));
    var next := if phone != "" && phone !in phones then phones + [FormatPhoneNumber(Some(phone)).value] else phones;
    var r := FromPage(results, details, phones);
    assert r == FromPage(results[1..], details, next);
    if k < |next| {
      assert r[k] == next[k] == FormatPhoneNumber(Some(PhoneOf(details(results[0])))).value;
    } else {
      FromPageOrigin(results[1..], details, next, k);
      var j :| 0 <= j < |results[1..]| && PhoneOf(details(results[1..][j])) != ""
               && r[k] == FormatPhoneNumber(Some(PhoneOf(details(results[1..][j])))).value;
      assert results[1..][j] == results[j + 1];
    }
  }

  /** The outer loop from page token `token` after `attempts` pages. */
  function Crawl(nearby: string -> Services.Page, details: string -> Option<Services.Details>,
                 token: string, attempts: nat, phones: seq<string>)
    : (r: (seq<string>, seq<string>))
    requires attempts <= Services.MaxPages
    ensures |r.1| <= Services.MaxPages - attempts
    decreases Services.MaxPages - attempts
  {
    if |phones| >= Services.MaxEntries || attempts >= Services.MaxPages then (phones, [])
    else
      var page := nearby(token);
      var rest := Crawl(nearby, details, page.nextToken, attempts + 1, FromPage(page.results, details, phones));
      (rest.0, [token] + rest.1)
  }

  /** Every phone the loop adds is a formatted one, starting `+1`. */
  lemma {:induction false} FromPageFormatted(results: seq<string>, details: string -> Option<Services.Details>,
                                             phones: seq<string>)
    requires AllFormatted(phones)
    ensures AllFormatted(FromPage(results, details, phones))
    decreases |results|
  {
    if !(results == [] || |phones| >= Services.MaxEntries) {
      var phone := PhoneOf(details(results[0]));
      var next := if phone != "" && phone !in phones then phones + [FormatPhoneNumber(Some(phone)).value] else phones;
      assert FromPage(results, details, phones) == FromPage(results[1..], details, next);
      if phone != "" && phone !in phones {
        var f := FormatPhoneNumber(Some(phone)).value;
        assert StartsWith(f, "+1");
        forall i | 0 <= i < |next| ensures StartsWith(next[i], "+1") {
          if i < |phones| {
            assert next[i] == phones[i];
          } else {
            assert next[i] == f;
          }
        }
      }
      FromPageFormatted(results[1..], details, next);
    }
  }

  /** What the crawl promises: earlier phones stay first, at most 20
      phones, each a formatted `+1` number, and at most 5 page requests,
      fewer than 5 only once 20 phones are held. */
  lemma {:induction false} CrawlShape(nearby: string -> Services.Page, details: string -> Option<Services.Details>,
                                      token: string, attempts: nat, phones: seq<string>)
    requires attempts <= Services.MaxPages && |phones| <= Services.MaxEntries
    requires AllFormatted(phones)
    ensures var r := Crawl(nearby, details, token, attempts, phones);
      && phones <= r.0
      && |r.0| <= Services.MaxEntries
      && |r.1| <= Services.MaxPages - attempts
      && (|r.1| == Services.MaxPages - attempts || |r.0| == Services.MaxEntries)
      && (r.1 != [] ==> r.1[0] == token)
      && AllFormatted(r.0)
    decreases Services.MaxPages - attempts
  {
    if !(|phones| >= Services.MaxEntries || attempts >= Services.MaxPages) {
      var page := nearby(token);
      FromPageFormatted(page.results, details, phones);
      CrawlShape(nearby, details, page.nextToken, attempts + 1, FromPage(page.results, details, phones));
    }
  }

  /** The `includes` check compares the raw phone with the already
      formatted entries, so the same phone listed by two places is added
      twice: the list may hold duplicates. */
  lemma RepeatedPhoneAddedTwice(details: string -> Option<Services.Details>, p: string, q: string, phones: seq<string>)
    requires PhoneOf(details(p)) != "" && PhoneOf(details(q)) == PhoneOf(details(p))
    requires PhoneOf(details(p)) !in phones
    requires |phones| + 2 <= Services.MaxEntries
    ensures var f := FormatPhoneNumber(Some(PhoneOf(details(p)))).value;
      FromPage([p, q], details, phones) == phones + [f] + [f]
  {
    var raw := PhoneOf(details(p));
    var f := FormatPhoneNumber(Some(raw)).value;
    assert raw !in phones + [f] by {
      FormatHasNoFixedPoint(raw);
    }
    assert FromPage([p, q], details, phones) == FromPage([q], details, phones + [f]) by {
      FromPageStep([p, q], 0, details, phones);
      assert [p, q][1..] == [q];
    }
    assert FromPage([q], details, phones + [f]) == phones + [f] + [f] by {
      FromPageStep([q], 0, details, phones + [f]);
      assert [q][1..] == [];
    }
  }

  /** One turn of the inner loop. */
  lemma FromPageStep(results: seq<string>, i: nat, details: string -> Option<Services.Details>, phones: seq<string>)
    requires i < |results| && |phones| < Services.MaxEntries
    ensures var phone := PhoneOf(details(results[i]));
      FromPage(results[i..], details, phones)
        == FromPage(results[i + 1..], details,
                    if phone != "" && phone !in phones then phones + [FormatPhoneNumber(Some(phone)).value] else phones)
  {
    assert results[i..][0] == results[i] && results[i..][1..] == results[i + 1..];
  }

  /** One turn of the outer loop. */
  lemma CrawlStep(nearby: string -> Services.Page, details: string -> Option<Services.Details>,
                  token: string, attempts: nat, phones: seq<string>, requested: seq<string>)
    requires attempts < Services.MaxPages && |phones| < Services.MaxEntries
    ensures var page := nearby(token);
      var here := Crawl(nearby, details, token, attempts, phones);
      var rest := Crawl(nearby, details, page.nextToken, attempts + 1, FromPage(page.results, details, phones));
      here.0 == rest.0 && requested + here.1 == (requested + [token]) + rest.1
  {
    var page := nearby(token);
    var rest := Crawl(nearby, details, page.nextToken, attempts + 1, FromPage(page.results, details, phones));
    assert Crawl(nearby, details, token, attempts, phones) == (rest.0, [token] + rest.1);
    assert requested + ([token] + rest.1) == (requested + [token]) + rest.1;
  }

  /** The handler. `zipcode` and `service` are the body fields. It returns
      the reply, the phones of a 200 answer, and the page token of every
      nearby-search request. */
  method Handle(httpMethod: string, zipcode: Option<string>, service: Option<string>, located: bool,
                nearby: string -> Services.Page, details: string -> Option<Services.Details>)
    returns (reply: Reply, phones: seq<string>, requested: seq<string>)
    ensures httpMethod != "POST" ==> reply == Status(405) && phones == [] && requested == []
    ensures httpMethod == "POST" && !(Truthy(zipcode) && Truthy(service)) ==>
      reply == Status(400) && phones == [] && requested == []
    ensures httpMethod == "POST" && Truthy(zipcode) && Truthy(service) && !located ==>
      reply == Status(400) && phones == [] && requested == []
    ensures httpMethod == "POST" && Truthy(zipcode) && Truthy(service) && located ==>
      && reply == Status(200)
      && (phones, requested) == Crawl(nearby, details, "", 0, [])
      && |phones| <= Services.MaxEntries && |requested| <= Services.MaxPages
      && (|requested| == Services.MaxPages || |phones| == Services.MaxEntries)
      && AllFormatted(phones)
  {
    phones, requested := [], [];
    if httpMethod != "POST" {
      return Status(405), phones, requested;
    }
    if !Truthy(zipcode) || !Truthy(service) {
      return Status(400), phones, requested;
    }
    if !located {
      return Status(400), phones, requested;
    }
    phones, requested := CrawlPages(nearby, details);
    CrawlShape(nearby, details, "", 0, []);
    reply := Status(200);
  }

  /** The outer loop: a page per turn until 20 phones are held or 5 pages
      have been requested. */
  method CrawlPages(nearby: string -> Services.Page, details: string -> Option<Services.Details>)
    returns (phones: seq<string>, requested: seq<string>)
    ensures phones == Crawl(nearby, details, "", 0, []).0
    ensures requested == Crawl(nearby, details, "", 0, []).1
  {
    phones, requested := [], [];
    var pageToken := "";
    var attempts := 0;
    ghost var goal := Crawl(nearby, details, "", 0, []);
    while |phones| < Services.MaxEntries && attempts < Services.MaxPages
      invariant 0 <= attempts <= Services.MaxPages && |phones| <= Services.MaxEntries
      invariant Crawl(nearby, details, pageToken, attempts, phones).0 == goal.0
      invariant requested + Crawl(nearby, details, pageToken, attempts, phones).1 == goal.1
      decreases Services.MaxPages - attempts
    {
      CrawlStep(nearby, details, pageToken, attempts, phones, requested);
      var page := nearby(pageToken);
      var next := PhonesFromPage(page.results, details, phones);
      requested := requested + [pageToken];
      phones := next;
      pageToken := page.nextToken;
      attempts := attempts + 1;
    }
    assert Crawl(nearby, details, pageToken, attempts, phones) == (phones, []);
    assert requested + [] == requested;
    assert phones == goal.0 && requested == goal.1;
  }

  /** The inner loop over one page. */
  method PhonesFromPage(results: seq<string>, details: string -> Option<Services.Details>, acc: seq<string>)
    returns (phones: seq<string>)
    requires |acc| <= Services.MaxEntries
    ensures phones == FromPage(results, details, acc)
  {
    phones := acc;
    var i := 0;
    while i < |results|
      invariant 0 <= i <= |results| && |phones| <= Services.MaxEntries
      invariant FromPage(results[i..], details, phones) == FromPage(results, details, acc)
    {
      if |phones| >= Services.MaxEntries {
        break;
      }
      FromPageStep(results, i, details, phones);
      var phone := PhoneOf(details(results[i]));
      if phone != "" && phone !in phones {
        phones := phones + [FormatPhoneNumber(Some(phone)).value];
      }
      i := i + 1;
    }
  }
}
