/** api/inbound_call.js: record which inbound call a caller is on, then
    hand the call to the voice assistant. */
module InboundCall {
  import opened Base
  import opened Phone
  import opened Platform

  /** The handler. `assistantOk` is the outcome of the assistant request
      (including reading the TwiML out of its answer). */
  method Handle(w: World, httpMethod: string, callSid: Option<string>, caller: Option<string>, assistantOk: bool)
    returns (reply: Reply)
    modifies w
    ensures httpMethod != "POST" ==> reply == Status(405) && unchanged(w)
    ensures httpMethod == "POST" && !(Truthy(callSid) && Truthy(caller)) ==>
      reply == Status(400) && unchanged(w)
    ensures httpMethod == "POST" && Truthy(callSid) && Truthy(caller) ==>
      && w.store == old(w.store)[CallKey(caller.value) := Entry(Text(callSid.value), Lifetime)]
      && w.log == old(w.log) + [AssistantCall(caller.value, assistantOk)]
      && reply == Status(if assistantOk then 200 else 500)
  {
    if httpMethod != "POST" {
      return Status(405);
    }
    if !Truthy(callSid) || !Truthy(caller) {
      return Status(400);
    }
    // The correlation is written before the assistant is asked, so it stays
    // in place when the assistant request fails.
    w.store := w.store[CallKey(caller.value) := Entry(Text(callSid.value), Lifetime)];
    w.log := w.log + [AssistantCall(caller.value, assistantOk)];
    if assistantOk {
      reply := Status(200);
    } else {
      reply := Status(500);
    }
  }
}
