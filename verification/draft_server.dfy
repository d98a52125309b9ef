/** server.js: the earlier single-file server. Its `/inbound_call`,
    `/connect` and `/participant-status` handlers make the same store
    updates and gateway requests as the handlers under api/, but with no
    method or field validation, with keys built from the raw request
    fields, and with shorter callback paths. */
module DraftServer {
  import opened Base
  import opened Phone
  import opened Platform
  import Connect
  import ParticipantStatus

  /** `call:${caller}` with the caller exactly as received. */
  function DraftCallKey(caller: string): string
  {
    "call:" + caller
  }

  /** A value read back from the store as a template literal renders it:
      a missing key reads `null`, and a session object `[object Object]`. */
  function SidText(v: Option<Value>): string
  {
    match v
    case None => "null"
    case Some(Text(s)) => s
    case Some(Conf(_, _)) => "[object Object]"
  }

  /** `conf:${callSid}` for the value read under the caller's key. */
  function DraftSessionKey(stored: Option<Value>): string
  {
    "conf:" + SidText(stored)
  }

  /** The raw key agrees with the normalized key of api/inbound_call.js
      exactly when the caller is already made only of digits and `+`: a
      number written with spaces, dashes or brackets is stored where the
      normalizing connect handler never looks. */
  lemma DraftKeyIsCallKeyIff(caller: string)
    ensures DraftCallKey(caller) == CallKey(caller) <==> forall i :: 0 <= i < |caller| ==> IsDialChar(caller[i])
  {
    NormalizedIffDialChars(caller);
    if DraftCallKey(caller) == CallKey(caller) {
      assert DraftCallKey(caller)[5..] == caller;
      assert CallKey(caller)[5..] == NormalizePhone(caller);
    }
  }

  /** With no validation, every connect request for a caller with no
      recorded call opens its session under the same key, `conf:null`. */
  lemma UnknownCallersShareSession(store: map<string, Entry>, a: string, b: string)
    requires DraftCallKey(a) !in store && DraftCallKey(b) !in store
    ensures DraftSessionKey(Connect.Lookup(store, DraftCallKey(a))) == "conf:null"
    ensures DraftSessionKey(Connect.Lookup(store, DraftCallKey(a))) == DraftSessionKey(Connect.Lookup(store, DraftCallKey(b)))
  {
  }

  /** `/inbound_call`. `callSid` and `caller` are the body fields;
      `assistantOk` is the outcome of the assistant request. */
  method HandleInboundCall(w: World, callSid: string, caller: string, assistantOk: bool) returns (reply: Reply)
    modifies w
    ensures w.store == old(w.store)[DraftCallKey(caller) := Entry(Text(callSid), Lifetime)]
    ensures w.log == old(w.log) + [AssistantCall(caller, assistantOk)]
    ensures reply == Status(if assistantOk then 200 else 500)
  {
    w.store := w.store[DraftCallKey(caller) := Entry(Text(callSid), Lifetime)];
    w.log := w.log + [AssistantCall(caller, assistantOk)];
    reply := Status(if assistantOk then 200 else 500);
  }

  /** `/connect`. `caller` is the body field, possibly absent; `baseUrl`,
      `now`, `redirectOk` and `placed` are as for the api/connect.js
      handler. Nothing is checked: whatever the caller's key holds, or
      its absence, becomes the session's sid. */
  method HandleConnect(w: World, caller: Option<string>, baseUrl: string, now: nat, redirectOk: bool,
                       placed: seq<Option<string>>)
    returns (reply: Reply)
    requires |placed| == |Connect.Specialists|
    modifies w
    ensures var stored := Connect.Lookup(old(w.store), DraftCallKey(Interpolate(caller, "undefined")));
      && w.store == old(w.store)[DraftSessionKey(stored) :=
                                   Entry(Conf(Connect.ConfName(now), Some(if redirectOk then Connect.Legs(placed) else [])), Lifetime)]
      && w.log == old(w.log) + [Redirect(SidText(stored), baseUrl + "/conference", redirectOk)]
                  + (if redirectOk
                     then Connect.DialActions(Connect.Specialists, placed, baseUrl + "/twiml-join-conference", baseUrl + "/participant-status")
                     else [])
    ensures reply == Status(if redirectOk && |Connect.Legs(placed)| == |Connect.Specialists| then 200 else 500)
  {
    var stored := Connect.Lookup(w.store, DraftCallKey(Interpolate(caller, "undefined")));
    var key := DraftSessionKey(stored);
    var name := Connect.ConfName(now);
    w.store := w.store[key := Entry(Conf(name, Some([])), Lifetime)];
    w.log := w.log + [Redirect(SidText(stored), baseUrl + "/conference", redirectOk)];
    if !redirectOk {
      return Status(500);
    }
    var allPlaced := Connect.DialSpecialists(w, key, name, placed, baseUrl + "/twiml-join-conference", baseUrl + "/participant-status");
    reply := Status(if allPlaced then 200 else 500);
  }

  /** The session a status report names, when there is one to tear down. */
  predicate HasSession(store: map<string, Entry>, callStatus: Option<string>, parent: Option<string>)
  {
    var key := "conf:" + Interpolate(parent, "undefined");
    callStatus == Some("in-progress") && key in store && TruthyValue(store[key].value)
  }

  /** `/participant-status`. The parent is the `ParentCallSid` body field,
      possibly absent. A session with no `sids` field (a plain string value
      has none) makes the `for...of` loop throw before any update, and the
      request is never answered. */
  method HandleParticipantStatus(w: World, callSid: Option<string>, callStatus: Option<string>, parent: Option<string>,
                                 ok: string -> bool)
    returns (reply: Reply)
    modifies w
    ensures !HasSession(old(w.store), callStatus, parent) ==> reply == Status(200) && unchanged(w)
    ensures HasSession(old(w.store), callStatus, parent) ==>
      var key := "conf:" + Interpolate(parent, "undefined");
      var session := old(w.store)[key].value;
      if session.Conf? && session.sids.Some? then
        && reply == Status(200)
        && w.store == old(w.store) - {key}
        && w.log == old(w.log) + ParticipantStatus.Cancellations(session.sids.value, callSid, ok)
      else
        reply == Unanswered && unchanged(w)
  {
    if HasSession(w.store, callStatus, parent) {
      var key := "conf:" + Interpolate(parent, "undefined");
      var session := w.store[key].value;
      if !(session.Conf? && session.sids.Some?) {
        return Unanswered;
      }
      ParticipantStatus.CancelOthers(w, session.sids.value, callSid, ok);
      w.store := w.store - {key};
    }
    reply := Status(200);
  }

  /** Two `in-progress` reports for the same parent, one after the other:
      the second finds no session, answers 200 and changes nothing, so the
      first reporter is the leg that stays up. */
  method AnsweredTwice(w: World, first: string, second: string, parent: string, ok: string -> bool)
    returns (again: Reply)
    requires "conf:" + parent in w.store
    requires w.store["conf:" + parent].value.Conf? && w.store["conf:" + parent].value.sids.Some?
    modifies w
    ensures again == Status(200)
    ensures w.store == old(w.store) - {"conf:" + parent}
    ensures w.log == old(w.log) + ParticipantStatus.Cancellations(old(w.store)["conf:" + parent].value.sids.value, Some(first), ok)
    ensures !Completed(w.log[|old(w.log)|..], first)
  {
    var answered := HandleParticipantStatus(w, Some(first), Some("in-progress"), Some(parent), ok);
    again := HandleParticipantStatus(w, Some(second), Some("in-progress"), Some(parent), ok);
    ghost var sids := old(w.store)["conf:" + parent].value.sids.value;
    assert w.log[|old(w.log)|..] == ParticipantStatus.Cancellations(sids, Some(first), ok);
    ParticipantStatus.ReporterSurvives(sids, first, ok);
  }
}
