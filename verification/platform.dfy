/** The two services every handler shares: the key-value store (Redis) and
    the telephony gateway (Twilio), together with the voice-assistant
    request. The store is a map from key to entry; the gateway and the
    assistant are an append-only log of the requests issued, each with the
    outcome the outside world gave it. */
module Platform {
  import opened Base

  /** A stored value, taken as one structured value whatever its encoding:
      a plain string (a call reference) or a conference session, whose
      `sids` is `None` when it is not an array. */
  datatype Value =
    | Text(text: string)
    | Conf(name: string, sids: Option<seq<string>>)

  /** Every write the handlers make carries a lifetime in seconds. */
  datatype Entry = Entry(value: Value, lifetime: nat)

  /** The lifetime (`ex: 600`) of every key the handlers write. */
  const Lifetime: nat := 600

  /** Requests issued to the outside world, each with its outcome. */
  datatype Action =
    | AssistantCall(customer: string, ok: bool)           // POST {VAPI_BASE_URL}/call
    | Redirect(sid: string, url: string, ok: bool)         // calls(sid).update({url})
    | Dial(to: string, url: string, statusCallback: string, leg: Option<string>)
                                                           // calls.create(...); leg is the new call's sid
    | Complete(sid: string, ok: bool)                      // calls(sid).update({status: 'completed'})

  /** The HTTP answer of a handler; `Unanswered` when the handler throws
      outside any `try` and the request is never answered. */
  datatype Reply = Status(code: int) | Unanswered

  /** JavaScript truthiness of a value read from the store. */
  predicate TruthyValue(v: Value)
  {
    v.Conf? || v.text != ""
  }

  /** The `sids` array of a stored value, or nothing when there is none. */
  function SidsArray(v: Value): seq<string>
  {
    if v.Conf? && v.sids.Some? then v.sids.value else []
  }

  /** One `completed` update per sid, in the given order, each with the
      outcome the gateway gave it. */
  function Hangups(sids: seq<string>, ok: string -> bool): (r: seq<Action>)
    ensures |r| == |sids|
    ensures forall i :: 0 <= i < |sids| ==> r[i] == Complete(sids[i], ok(sids[i]))
  {
    if sids == [] then [] else [Complete(sids[0], ok(sids[0]))] + Hangups(sids[1..], ok)
  }

  /** Hangups of a concatenation are the concatenation of the hangups. */
  lemma {:induction false} HangupsConcat(a: seq<string>, b: seq<string>, ok: string -> bool)
    ensures Hangups(a + b, ok) == Hangups(a, ok) + Hangups(b, ok)
  {
    if a == [] {
      assert a + b == b;
    } else {
      assert (a + b)[0] == a[0] && (a + b)[1..] == a[1..] + b;
      HangupsConcat(a[1..], b, ok);
    }
  }

  /** `sid` received a `completed` update among `actions`. */
  ghost predicate Completed(actions: seq<Action>, sid: string)
  {
    exists i :: 0 <= i < |actions| && actions[i].Complete? && actions[i].sid == sid
  }

  /** The store and the log of requests, shared by all handlers. */
  class World {
    var store: map<string, Entry>
    var log: seq<Action>

    constructor (initial: map<string, Entry>)
      ensures store == initial && log == []
    {
      store := initial;
      log := [];
    }
  }
}
