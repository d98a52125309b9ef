/** api/participant-status.js: when a dialed specialist's leg reports
    `in-progress`, hang up every other leg of the session and delete the
    session, so that the first answered leg is the one that stays. */
module ParticipantStatus {
  import opened Base
  import opened Platform
  import Connect

  /** The legs of a session other than the one reporting, in list order.
      A missing `CallSid` differs from every leg. */
  function Others(sids: seq<string>, reporting: Option<string>): (r: seq<string>)
    ensures forall i :: 0 <= i < |r| ==> Some(r[i]) != reporting
  {
    Filter(sids, (sid: string) => Some(sid) != reporting)
  }

  /** The `completed` updates issued for a session's legs. */
  function Cancellations(sids: seq<string>, reporting: Option<string>, ok: string -> bool): seq<Action>
  {
    Hangups(Others(sids, reporting), ok)
  }

  /** Every leg other than the reporting one is cancelled exactly as often
      as it is listed, in list order; the reporting leg never is. */
  lemma OthersAreTheRest(sids: seq<string>, reporting: Option<string>)
    ensures IsSubsequence(Others(sids, reporting), sids)
    ensures forall x :: multiset(Others(sids, reporting))[x] == if Some(x) == reporting then 0 else multiset(sids)[x]
  {
    FilterIsSubsequence(sids, (sid: string) => Some(sid) != reporting);
    FilterCounts(sids, (sid: string) => Some(sid) != reporting);
  }

  /** The reporting leg is the one leg of the session left up. */
  lemma ReporterSurvives(sids: seq<string>, reporter: string, ok: string -> bool)
    ensures !Completed(Cancellations(sids, Some(reporter), ok), reporter)
    ensures forall x :: x in sids && x != reporter ==> Completed(Cancellations(sids, Some(reporter), ok), x)
  {
    var others := Others(sids, Some(reporter));
    var acts := Cancellations(sids, Some(reporter), ok);
    OthersAreTheRest(sids, Some(reporter));
    forall x | x in sids && x != reporter
      ensures Completed(acts, x)
    {
      assert multiset(others)[x] == multiset(sids)[x] > 0;
      var i :| 0 <= i < |others| && others[i] == x;
      assert acts[i] == Complete(x, ok(x));
    }
  }

  /** Appending one more leg to the list appends at most its cancellation. */
  lemma CancellationsStep(sids: seq<string>, i: nat, reporting: Option<string>, ok: string -> bool)
    requires i < |sids|
    ensures Cancellations(sids[..i + 1], reporting, ok)
      == Cancellations(sids[..i], reporting, ok)
         + (if Some(sids[i]) != reporting then [Complete(sids[i], ok(sids[i]))] else [])
  {
    var keep := (sid: string) => Some(sid) != reporting;
    assert sids[..i + 1] == sids[..i] + [sids[i]];
    FilterConcat(sids[..i], [sids[i]], keep);
    HangupsConcat(Others(sids[..i], reporting), Others([sids[i]], reporting), ok);
  }

  /** The loop over the session's legs: one `completed` update for every
      leg but the reporting one, a failed update not stopping the rest. */
  method CancelOthers(w: World, sids: seq<string>, reporting: Option<string>, ok: string -> bool)
    modifies w`log
    ensures w.log == old(w.log) + Cancellations(sids, reporting, ok)
  {
    var i := 0;
    while i < |sids|
      invariant 0 <= i <= |sids|
      invariant w.log == old(w.log) + Cancellations(sids[..i], reporting, ok)
    {
      CancellationsStep(sids, i, reporting, ok);
      if Some(sids[i]) != reporting {
        w.log := w.log + [Complete(sids[i], ok(sids[i]))];
      }
      i := i + 1;
    }
    assert sids[..i] == sids;
  }

  /** The handler. `parent` is the `parent` query parameter of the status
      callback; `ok` gives the outcome of each `completed` update. */
  method Handle(w: World, callSid: Option<string>, callStatus: Option<string>, parent: Option<string>,
                ok: string -> bool)
    returns (reply: Reply)
    modifies w
    ensures reply == Status(200)
    ensures !(callStatus == Some("in-progress") && Truthy(parent)) ==> unchanged(w)
    ensures callStatus == Some("in-progress") && Truthy(parent) ==>
      var key := Connect.SessionKey(parent.value);
      if key in old(w.store) && TruthyValue(old(w.store)[key].value) then
        && w.store == old(w.store) - {key}
        && w.log == old(w.log) + Cancellations(SidsArray(old(w.store)[key].value), callSid, ok)
      else
        unchanged(w)
  {
    if callStatus == Some("in-progress") && Truthy(parent) {
      var key := Connect.SessionKey(parent.value);
      if key in w.store && TruthyValue(w.store[key].value) {
        var session := w.store[key].value;
        if session.Conf? && session.sids.Some? {
          CancelOthers(w, session.sids.value, callSid, ok);
        }
        // deleted whether or not `sids` was an array
        w.store := w.store - {key};
      }
    }
    reply := Status(200);
  }

  /** Two `in-progress` reports for the same session, handled one after
      the other: the second finds no session and changes nothing, so the
      first reporter is the leg that stays up. */
  method AnsweredTwice(w: World, first: string, second: string, parent: string, ok: string -> bool)
    requires parent != ""
    requires Connect.SessionKey(parent) in w.store && w.store[Connect.SessionKey(parent)].value.Conf?
    modifies w
    ensures Connect.SessionKey(parent) !in w.store
    ensures w.store == old(w.store) - {Connect.SessionKey(parent)}
    ensures w.log == old(w.log) + Cancellations(SidsArray(old(w.store)[Connect.SessionKey(parent)].value), Some(first), ok)
    ensures !Completed(w.log[|old(w.log)|..], first)
  {
    var r1 := Handle(w, Some(first), Some("in-progress"), Some(parent), ok);
    var r2 := Handle(w, Some(second), Some("in-progress"), Some(parent), ok);
    ghost var sids := SidsArray(old(w.store)[Connect.SessionKey(parent)].value);
    assert w.log[|old(w.log)|..] == Cancellations(sids, Some(first), ok);
    ReporterSurvives(sids, first, ok);
  }
}
