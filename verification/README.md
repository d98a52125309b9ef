# Call routing: a Dafny model

This project models the call-routing core of a small telephony server. A
customer's inbound call is handed to a voice assistant. When the assistant
decides to connect the customer, the server does four things:

- it opens a *conference session* in a key-value store;
- it moves the customer's call into the conference;
- it dials every specialist;
- the first specialist leg to report `in-progress` keeps the call, and
  every other leg of the session is hung up.

There is also an emergency sweep that hangs up every leg listed by any
session. Two search handlers collect businesses or phone numbers near a
ZIP code, page by page. The model covers the handlers under `api/`, the
earlier single-file `server.js`, `lib/getServices.js` and
`util/formatPhoneNumber.js`.

How the outside world is represented:

- **Store.** `Platform.World` is a class whose `store` field is a map from
  key to entry. An entry is a structured value (a call reference or a
  session `{name, sids}`) together with its lifetime of 600 seconds.
- **Gateway requests.** Every request to the telephony gateway or the
  voice assistant is appended to the class's `log` field, together with
  the outcome the outside world gave it.
- **Outcomes as inputs.** Those outcomes, the clock reading, the request
  host and the Places/geocoding answers are all parameters. A dial outcome
  is the new leg's sid or `None`; a hang-up outcome is an oracle
  `string -> bool`; a page of nearby results is a function of the page
  token.
- **Handlers.** Each handler is a method that changes the world. Its
  `ensures` gives the reply and the whole new store and log in terms of the
  old ones.
- **Loops.** Every loop of the source is a method with a `while` loop,
  proved equal to a specification function. The properties the source
  promises are proved as lemmas about those functions.

Modules:

| module | file | models |
|---|---|---|
| `Base` | base.dfy | optional values, JavaScript truthiness, order-preserving `Filter` and its lemmas |
| `Phone` | phone.dfy | `formatPhoneNumber`, `normalizePhone`, the `call:` key |
| `Platform` | platform.dfy | stored values, gateway actions, replies, the `World` class |
| `InboundCall` | inbound_call.dfy | api/inbound_call.js |
| `Connect` | connect.dfy | api/connect.js |
| `ParticipantStatus` | participant_status.dfy | api/participant-status.js |
| `EmergencyHangup` | emergency_hangup.dfy | api/emergency-hangup.js |
| `Services` | services.dfy | lib/getServices.js |
| `GetBusiness` | get_business.dfy | api/get_business.js |
| `DraftServer` | draft_server.dfy | server.js (`/inbound_call`, `/connect`, `/participant-status`) |

### What the code does not do

The code has no atomic compare-and-swap accept, no rejection counter, no
fallback that fires once, no persistent kill-switch flag, and no broadcast
in which a failed dial leaves the others running.

Acceptance is a read followed by a delete,
so "only the first answered leg survives" holds only when events are
handled one after the other. That is the setting of
`ParticipantStatus.AnsweredTwice`. A failed dial aborts the remaining
dials (`Connect.DialActions`). The emergency sweep is a one-off request,
not a flag.

## Model

| member | source | states |
|---|---|---|
| Base.Decimal | api/connect.js:30 | the rendering of `Date.now()` in the conference name is a non-empty string of decimal digits with no leading zero except for `0` itself |
| Base.DecimalValue | api/connect.js:30 | reading the rendered digits back as a decimal numeral (`DigitsValue`, an independent left-to-right reading) gives the instant itself |
| Base.DecimalInjective | api/connect.js:30 | two instants render to the same digits exactly when they are equal |
| Phone.FormatPhoneNumber | util/formatPhoneNumber.js:1-7 | the result is null exactly when the input is falsy; otherwise it starts `+1`, and nothing after the `+1` is white space, `(`, `)` or `-` |
| Phone.FormatKeepsOthers | util/formatPhoneNumber.js:5-6 | after the `+1` come exactly the input's other characters, in order (a subsequence) and with their multiplicities; the length is 2 plus the number of kept characters |
| Phone.KeptPlusSeparators | util/formatPhoneNumber.js:5 | each character is either removed or kept, so the two counts add up to the input length |
| Phone.FormatAddsSecondPrefix | util/formatPhoneNumber.js:6 | there is no country-code detection: formatting a formatted number prefixes a second `+1`, so formatting is not idempotent |
| Phone.FormatHasNoFixedPoint | util/formatPhoneNumber.js:5-6 | formatting changes every non-empty input, including one that already starts `+1` |
| Phone.PrefixedCleanDiffers | util/formatPhoneNumber.js:5-6 | no string equals `+1` followed by its own cleaned form (the induction behind the previous row) |
| Phone.FormatOnlySeparators | util/formatPhoneNumber.js:2-6 | a non-empty input made only of removable characters formats to exactly `+1` |
| Phone.FormatSeparatorsExample | util/formatPhoneNumber.js:2-6 | `" ( - ) "` formats to `+1` |
| Phone.NormalizePhone | api/inbound_call.js:19-21 | the normalized number contains only digits and `+` |
| Phone.NormalizeKeepsDialChars | api/inbound_call.js:19-21 | normalizing keeps every digit and `+` in order (a subsequence) and with its multiplicity, and drops everything else |
| Phone.NormalizeIdempotent | api/inbound_call.js:19-21 | normalizing twice equals normalizing once |
| Phone.NormalizedIffDialChars | api/inbound_call.js:19-21 | a number is unchanged by normalizing if and only if it has only digits and `+` |
| Phone.CallKeyMatches | api/inbound_call.js:23-24 | two caller strings reach the same `call:` key if and only if they normalize to the same number, so connect finds the call that inbound recorded |
| Platform.Hangups | api/emergency-hangup.js:35-42 | one `completed` request per sid, in order, each with its own outcome, whatever the other outcomes were |
| Platform.HangupsConcat | api/emergency-hangup.js:35-42 | the hang-ups of a concatenation are the concatenation of the hang-ups |
| InboundCall.Handle | api/inbound_call.js:4-49 | non-POST: 405 and nothing written or requested. Missing or empty `CallSid`/`Caller`: 400 and nothing changes. Otherwise the normalized `call:` key maps to `CallSid` for 600 s, the assistant is asked once, and the reply is 200 or 500 by that outcome; the key stays written when the assistant fails |
| Connect.StatusCallback | api/connect.js:54 | every dialed leg's status callback ends with `?parent=` and the customer's call sid |
| Connect.Legs | api/connect.js:48-64 | the recorded legs are exactly the sids of the dials that succeeded before the first failure, in dial order |
| Connect.DialActions | api/connect.js:48-57 | one dial per specialist in order, up to and including the first failure and none after it, all with the same join URL and callback |
| Connect.DialSpecialists | api/connect.js:46-64 | after the loop the session's `sids` are `Legs(placed)` under the same name and lifetime, the log has grown by `DialActions`, and the result is true if and only if every dial succeeded |
| Connect.Handle | api/connect.js:6-71 | 405 for non-POST; 400 for a falsy caller; 400 when the stored value is missing, empty or not `CA`-prefixed; 500 when it is a session object, since `startsWith` throws; nothing changes in these cases. Otherwise the session `conf:{sid}` is created (name from the clock, `sids` filled by the dial loop when the redirect succeeded), one redirect is requested and then the dials; the reply is 200 exactly when the redirect and every dial succeed |
| Connect.CallThenConnect | api/connect.js:20-37 | round trip: after an inbound call recorded for a caller, a connect request for the same number written differently opens the session under that call's sid, with the expected requests |
| ParticipantStatus.Others | api/participant-status.js:17-18 | no cancelled leg is the reporting leg |
| ParticipantStatus.OthersAreTheRest | api/participant-status.js:17-26 | the cancelled legs are the session's legs in list order, each as often as listed, except the reporting one |
| ParticipantStatus.ReporterSurvives | api/participant-status.js:12-31 | the reporting leg is never completed, and every other leg of the session is |
| ParticipantStatus.CancellationsStep | api/participant-status.js:17-26 | one more leg in the list adds at most its own cancellation |
| ParticipantStatus.CancelOthers | api/participant-status.js:17-26 | the loop appends exactly the cancellations of the non-reporting legs; a failed cancellation does not stop it |
| ParticipantStatus.Handle | api/participant-status.js:6-35 | always 200. Unless the status is `in-progress` and a parent is given, nothing changes. With a truthy session, the other legs are cancelled (none when `sids` is not an array) and the session is deleted; without one, nothing changes |
| ParticipantStatus.AnsweredTwice | api/participant-status.js:12-31 | two `in-progress` reports handled one after the other: the second is a no-op, and the first reporter is the leg left up |
| EmergencyHangup.UnsweptKeyContributesNothing | api/emergency-hangup.js:20-24 | a counter-suffixed key or a key outside `conf:*` never adds a leg to the sweep, whatever it holds |
| EmergencyHangup.ListedByStep | api/emergency-hangup.js:23-32 | reading one more key adds exactly the legs its session lists |
| EmergencyHangup.AddAll | api/emergency-hangup.js:29 | `Set.add` over a list keeps the set's order and distinctness; the new set is the union |
| EmergencyHangup.CollectSids | api/emergency-hangup.js:20-32 | whatever order the keys come in, the collected legs are exactly the union of the `sids` of every swept session, each once |
| EmergencyHangup.HangUpAll | api/emergency-hangup.js:35-42 | one `completed` request per collected leg, failures not stopping the rest |
| EmergencyHangup.Handle | api/emergency-hangup.js:5-49 | the store is never written. 405 for non-POST; 403 when the header differs from the configured token; otherwise 200, and every leg listed by a swept session is hung up exactly once |
| Services.EntryOf | lib/getServices.js:33-39 | a place contributes an entry exactly when its details have both a name and a phone; the entry's phone is the formatted phone |
| Services.FromPage | lib/getServices.js:26-40 | the inner loop only appends; it adds at most one entry per place, never goes past 20, adds nothing once 20 are held, and keeps entries well formed |
| Services.Crawl | lib/getServices.js:18-44 | at most 5 pages are requested in total |
| Services.FromPageCollects | lib/getServices.js:26-40 | starting from at most 20 entries, the inner loop yields exactly the first 20 of the entries held followed by `Entries`, the entries the page's places offer in place order |
| Services.CrawlCollects | lib/getServices.js:18-44 | the crawl yields exactly the first 20 of the entries held followed by the `Entries` of every page it requested, in request order |
| Services.CrawlShape | lib/getServices.js:14-46 | entries only grow, there are at most 20 of them, at most 5 page requests and fewer than 5 only once 20 entries are held, the first request uses the page token it starts from, each later request uses the previous page's next token, and every entry is named with a `+1` phone |
| Services.CrawlTokens | lib/getServices.js:18-43 | the first request uses the page token the crawl starts from, and each later request uses the previous page's `next_page_token` |
| Services.CrawlStops | lib/getServices.js:18 | the crawl stops short of 5 page requests only once it holds 20 entries |
| Services.NoNextTokenRepeatsFirstPage | lib/getServices.js:42 | when the first page has no next token, every request is for the first page again |
| Services.SamePlaceCollectedPerPage | lib/getServices.js:18-44 | there is no deduplication: one listed place with no next page is collected five times |
| Services.SamePlaceFrom | lib/getServices.js:18-44 | the induction behind the previous row, from any attempt count |
| Services.FromPageStep | lib/getServices.js:26-40 | one turn of the inner loop |
| Services.CrawlStep | lib/getServices.js:18-44 | one turn of the outer loop |
| Services.TakeFromPage | lib/getServices.js:26-40 | the inner loop computes `FromPage` |
| Services.GetServices | lib/getServices.js:3-47 | nothing is requested when geocoding finds no location; otherwise the result is `Crawl`, with at most 20 well-formed entries, at most 5 requests and fewer only when 20 entries were collected, and the first request on the empty token. The entries are the first 20 of those offered by the requested pages, in request order |
| GetBusiness.FromPage | api/get_business.js:51-62 | the inner loop only appends and never goes past 20 phones |
| GetBusiness.FromPageAppendPlace | api/get_business.js:51-62 | one more place at the end of a page appends `formatPhoneNumber` of its raw phone exactly when fewer than 20 phones are held, the raw phone is not empty and the raw phone is not already in the list; otherwise it adds nothing. Phones are therefore appended in place order |
| GetBusiness.FromPageOrigin | api/get_business.js:57-61 | every phone the inner loop adds is the formatted, non-empty phone of one of the page's places |
| GetBusiness.Crawl | api/get_business.js:40-66 | at most 5 pages are requested in total |
| GetBusiness.FromPageFormatted | api/get_business.js:57-61 | every phone added is formatted and starts `+1` |
| GetBusiness.CrawlShape | api/get_business.js:35-66 | phones only grow, there are at most 20 of them, at most 5 requests and fewer than 5 only once 20 phones are held, the first request uses the empty token, and every phone starts `+1` |
| GetBusiness.RepeatedPhoneAddedTwice | api/get_business.js:59-60 | the `includes` check compares the raw phone with formatted entries, so a phone listed by two places is added twice; the list is not duplicate-free |
| GetBusiness.FromPageStep | api/get_business.js:51-62 | one turn of the inner loop |
| GetBusiness.CrawlStep | api/get_business.js:40-66 | one turn of the outer loop |
| GetBusiness.Handle | api/get_business.js:7-71 | non-POST gives 405, a missing `zipcode` or `service` gives 400, and no location gives 400, none of them requesting a page. Otherwise 200 with the crawl's phones: at most 20, all starting `+1`, and at most 5 requests, fewer only when 20 phones were collected |
| GetBusiness.CrawlPages | api/get_business.js:35-66 | the outer loop computes `Crawl` |
| GetBusiness.PhonesFromPage | api/get_business.js:51-62 | the inner loop computes `FromPage` |
| DraftServer.DraftKeyIsCallKeyIff | server.js:35 | the raw `call:` key equals the normalized one if and only if the caller has only digits and `+` |
| DraftServer.UnknownCallersShareSession | server.js:63-72 | with no validation, connect requests for callers without a recorded call all open their session under `conf:null` |
| DraftServer.HandleInboundCall | server.js:29-59 | the raw `call:{Caller}` key maps to the call sid for 600 s, then the assistant is asked; 200 or 500 by its outcome |
| DraftServer.HandleConnect | server.js:61-102 | with no checks, the session is created under `conf:` plus whatever the caller's key held (`null` when absent), the customer is redirected, and the specialists are dialed in order; 200 exactly when every request succeeded |
| DraftServer.HandleParticipantStatus | server.js:132-154 | other statuses, or no truthy session under `conf:{ParentCallSid}`: 200 and nothing changes. A session with a `sids` array: the other legs are cancelled, the session is deleted, and the reply is 200. A session with no `sids` field (or a plain string value, which has none): the loop throws, the request is not answered, and nothing changes |
| DraftServer.AnsweredTwice | server.js:136-150 | a second `in-progress` report after the first is a no-op answered 200, so the first reporter's leg survives |

## Left out

- Time-to-live expiry: every write records its 600-second lifetime, but keys never expire in the model. `Date.now()` is the parameter `now`.
- Concurrency: handlers run one after another. The read-append-write of the dial loop and the read-then-delete of the status handler are not atomic in the source, and no race-freedom is claimed.
- Encoding: sessions are one structured value. The model does not capture JSON strings against objects, or what `JSON.parse` makes of a stored string that is not a session. A stored string is treated as a value without a `sids` array.
- TwiML endpoints (api/conference.js, api/twiml-join-conference.js, api/twiml-call-taken.js and server.js:104-130): their XML is produced by an external builder. The conference name created by connect is not used by those endpoints, and the model does not look at it either.
- External services: Twilio, the voice assistant, Google geocoding, nearby search and place details, Express routing, environment loading and `lib/redis` are not part of this model. Only the outcomes they return appear, as parameters.
- Store failures (a `redis` call that throws) and failures of `fetch` or `req.json()` are not modelled. The 500 answers they cause in get_business, connect and the emergency sweep are therefore absent. The one exception is connect's `startsWith` on a session object, which is modelled.
- A nearby-search page without a `results` array is not modelled; every page is taken to have one. The 2-second delay before a follow-up page is left out.
- `baseUrl` is a parameter; how connect builds it from `x-forwarded-proto` and `host` is not modelled.
- lib/getServices.js:1 default-imports `formatPhoneNumber`, but util/formatPhoneNumber.js:1 exports it only by name. The model assumes the named function is meant.
- Callers are strings. Non-string JSON values for `Caller`, `caller` or `sids` entries are not modelled.
- DraftServer.HandleParticipantStatus: a session's `sids` is a list or absent. A `sids` stored as a string, which `for...of` at server.js:139 would walk character by character, is not modelled.
- DraftServer.HandleInboundCall: takes `CallSid` and `Caller` as present strings; the `call:undefined` key written for a request without them is not modelled.
- EmergencyHangup.Handle: compares the header with the configured token as optional values, as `!==` does. When `EMERGENCY_KILL_TOKEN` is unset, a request without the header therefore passes the check, and the model keeps that behaviour.
- Services.Crawl and GetBusiness.Crawl: their own contracts give only the page bound. The other promises are proved separately in the `CrawlShape` lemmas.
