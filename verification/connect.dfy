/** api/connect.js: find the caller's inbound call, open a conference
    session for it, move the caller into the conference and dial every
    specialist, recording each new leg in the session. */
module Connect {
  import opened Base
  import opened Phone
  import opened Platform
  import InboundCall

  /** The fixed specialists, dialed in this order. */
  const Specialists: seq<string> := ["+18304838832", "+12813787468"]

  /** `conf_{Date.now()}`, with the clock reading passed in. */
  function ConfName(now: nat): string
  {
    "conf_" + Decimal(now)
  }

  /** The store key of the session opened for an inbound call. */
  function SessionKey(callSid: string): string
  {
    "conf:" + callSid
  }

  function ConferenceUrl(baseUrl: string, now: nat): string
  {
    baseUrl + "/api/conference?conf=" + ConfName(now)
  }

  function JoinUrl(baseUrl: string, now: nat): string
  {
    baseUrl + "/api/twiml-join-conference?conf=" + ConfName(now)
  }

  /** The status callback of every dialed leg names the customer's call. */
  function StatusCallback(baseUrl: string, callSid: string): (r: string)
    ensures EndsWith(r, "?parent=" + callSid)
  {
    var r := baseUrl + "/api/participant-status" + "?parent=" + callSid;
    assert r[|r| - |"?parent=" + callSid|..] == "?parent=" + callSid;
    r
  }

  /** The correlation read back is usable: a non-empty string starting `CA`. */
  predicate IsCallSid(v: Option<Value>)
  {
    v.Some? && v.value.Text? && v.value.text != "" && StartsWith(v.value.text, "CA")
  }

  function Lookup(store: map<string, Entry>, key: string): Option<Value>
  {
    if key in store then Some(store[key].value) else None
  }

  /** The leg ids of the dials that succeeded before the first failure:
      dialing stops at the first failed placement. */
  function Legs(placed: seq<Option<string>>): (r: seq<string>)
    ensures |r| <= |placed|
    ensures forall i :: 0 <= i < |r| ==> placed[i] == Some(r[i])
    ensures |r| < |placed| ==> placed[|r|].None?
  {
    if placed == [] || placed[0].None? then [] else [placed[0].value] + Legs(placed[1..])
  }

  /** The dial requests issued: one per number, in order, up to and
      including the first one that fails, and none after it. */
  function DialActions(numbers: seq<string>, placed: seq<Option<string>>, url: string, callback: string)
    : (r: seq<Action>)
    requires |numbers| == |placed|
    ensures |r| == if |Legs(placed)| < |placed| then |Legs(placed)| + 1 else |placed|
    ensures forall i :: 0 <= i < |r| ==> r[i] == Dial(numbers[i], url, callback, placed[i])
  {
    if placed == [] then []
    else
      var rest := if placed[0].None? then [] else DialActions(numbers[1..], placed[1..], url, callback);
      [Dial(numbers[0], url, callback, placed[0])] + rest
  }

  /** The dial loop: dial each specialist in order; after each successful
      dial read the session back, push the new leg onto its `sids` and
      write it again; stop at the first failed dial. The session must be
      present with an empty `sids` array, as just written. */
  method DialSpecialists(w: World, key: string, name: string, placed: seq<Option<string>>, joinUrl: string,
                         callback: string)
    returns (allPlaced: bool)
    requires |placed| == |Specialists|
    requires key in w.store && w.store[key] == Entry(Conf(name, Some([])), Lifetime)
    modifies w
    ensures w.store == old(w.store)[key := Entry(Conf(name, Some(Legs(placed))), Lifetime)]
    ensures w.log == old(w.log) + DialActions(Specialists, placed, joinUrl, callback)
    ensures allPlaced <==> |Legs(placed)| == |Specialists|
  {
    ghost var dials := DialActions(Specialists, placed, joinUrl, callback);
    var i := 0;
    while i < |Specialists|
      invariant 0 <= i <= |Specialists|
      invariant i <= |Legs(placed)| && i <= |dials|
      invariant w.store == old(w.store)[key := Entry(Conf(name, Some(Legs(placed)[..i])), Lifetime)]
      invariant w.log == old(w.log) + dials[..i]
    {
      assert dials[..i + 1] == dials[..i] + [Dial(Specialists[i], joinUrl, callback, placed[i])];
      w.log := w.log + [Dial(Specialists[i], joinUrl, callback, placed[i])];
      if placed[i].None? {
        assert dials[..i + 1] == dials && Legs(placed)[..i] == Legs(placed);
        return false;
      }
      // read the session back, push the new leg, write it again
      var session := w.store[key].value;
      assert Legs(placed)[..i + 1] == Legs(placed)[..i] + [placed[i].value];
      w.store := w.store[key := Entry(Conf(session.name, Some(session.sids.value + [placed[i].value])), Lifetime)];
      i := i + 1;
    }
    assert dials[..i] == dials && Legs(placed)[..i] == Legs(placed);
    return true;
  }

  /** The handler. `baseUrl` is the scheme and host taken from the request
      headers; `now` is the clock reading; `redirectOk` is the outcome of
      moving the caller into the conference; `placed[i]` is the outcome of
      dialing `Specialists[i]` (the new leg's sid, or `None` if the request
      failed). */
  method Handle(w: World, httpMethod: string, caller: Option<string>, baseUrl: string, now: nat,
                redirectOk: bool, placed: seq<Option<string>>)
    returns (reply: Reply)
    requires |placed| == |Specialists|
    modifies w
    ensures httpMethod != "POST" ==> reply == Status(405) && unchanged(w)
    ensures httpMethod == "POST" && !Truthy(caller) ==> reply == Status(400) && unchanged(w)
    ensures httpMethod == "POST" && Truthy(caller) && !IsCallSid(Lookup(old(w.store), CallKey(caller.value))) ==>
      && unchanged(w)
      // a stored value that is not a string makes `startsWith` throw
      && reply == Status(if CallKey(caller.value) in old(w.store) && old(w.store)[CallKey(caller.value)].value.Conf? then 500 else 400)
    ensures httpMethod == "POST" && Truthy(caller) && IsCallSid(Lookup(old(w.store), CallKey(caller.value))) ==>
      var sid := old(w.store)[CallKey(caller.value)].value.text;
      && w.store == old(w.store)[SessionKey(sid) := Entry(Conf(ConfName(now), Some(if redirectOk then Legs(placed) else [])), Lifetime)]
      && w.log == old(w.log) + [Redirect(sid, ConferenceUrl(baseUrl, now), redirectOk)]
                  + (if redirectOk then DialActions(Specialists, placed, JoinUrl(baseUrl, now), StatusCallback(baseUrl, sid)) else [])
      && reply == Status(if redirectOk && |Legs(placed)| == |Specialists| then 200 else 500)
  {
    if httpMethod != "POST" {
      return Status(405);
    }
    if !Truthy(caller) {
      return Status(400);
    }
    var stored := Lookup(w.store, CallKey(caller.value));
    if !IsCallSid(stored) {
      if stored.Some? && stored.value.Conf? {
        return Status(500);
      }
      return Status(400);
    }
    var sid := stored.value.text;
    var key := SessionKey(sid);
    var name := ConfName(now);
    var joinUrl := JoinUrl(baseUrl, now);
    var callback := StatusCallback(baseUrl, sid);

    w.store := w.store[key := Entry(Conf(name, Some([])), Lifetime)];
    w.log := w.log + [Redirect(sid, ConferenceUrl(baseUrl, now), redirectOk)];
    if !redirectOk {
      return Status(500);
    }
    var allPlaced := DialSpecialists(w, key, name, placed, joinUrl, callback);
    reply := Status(if allPlaced then 200 else 500);
  }

  /** The correlation round trip: an inbound call recorded for a caller is
      found by a later connect request for the same number written
      differently, and the session is opened under that call's sid. */
  method CallThenConnect(w: World, callSid: string, caller: string, later: string, assistantOk: bool,
                         baseUrl: string, now: nat, redirectOk: bool, placed: seq<Option<string>>)
    returns (connected: Reply)
    requires callSid != "" && StartsWith(callSid, "CA") && caller != "" && later != ""
    requires NormalizePhone(later) == NormalizePhone(caller)
    requires |placed| == |Specialists|
    modifies w
    ensures SessionKey(callSid) in w.store
    ensures w.store[SessionKey(callSid)].value == Conf(ConfName(now), Some(if redirectOk then Legs(placed) else []))
    ensures w.log == old(w.log) + [AssistantCall(caller, assistantOk), Redirect(callSid, ConferenceUrl(baseUrl, now), redirectOk)]
                     + (if redirectOk then DialActions(Specialists, placed, JoinUrl(baseUrl, now), StatusCallback(baseUrl, callSid)) else [])
    ensures connected == Status(if redirectOk && |Legs(placed)| == |Specialists| then 200 else 500)
  {
    var answered := InboundCall.Handle(w, "POST", Some(callSid), Some(caller), assistantOk);
    CallKeyMatches(caller, later);
    connected := Handle(w, "POST", Some(later), baseUrl, now, redirectOk, placed);
  }
}
