/** api/emergency-hangup.js: after a shared-secret check, collect every
    leg listed by any conference session in the store and hang each of
    them up once. The store is only read. */
module EmergencyHangup {
  import opened Base
  import opened Platform

  /** Key suffixes the sweep skips. */
  predicate IsCounterKey(key: string)
  {
    EndsWith(key, ":customer") || EndsWith(key, ":accepted") || EndsWith(key, ":total") || EndsWith(key, ":rejected")
  }

  /** A key returned by `keys('conf:*')`. */
  predicate IsConfKey(key: string)
  {
    StartsWith(key, "conf:")
  }

  /** A key whose value the sweep reads. */
  predicate IsSwept(key: string)
  {
    IsConfKey(key) && !IsCounterKey(key)
  }

  /** The legs listed by the swept sessions stored under `keys`. */
  ghost function ListedBy(store: map<string, Entry>, keys: set<string>): set<string>
  {
    set k, sid | k in keys && k in store && IsSwept(k) && sid in SidsArray(store[k].value) :: sid
  }

  /** The union of the `sids` arrays of every swept session in the store. */
  ghost function SweepTargets(store: map<string, Entry>): set<string>
  {
    ListedBy(store, store.Keys)
  }

  /** A key the sweep does not read (a counter-style key, or a key outside
      `conf:*`) never contributes a leg, whatever its value. */
  lemma UnsweptKeyContributesNothing(store: map<string, Entry>, key: string, e: Entry)
    requires !IsSwept(key)
    ensures SweepTargets(store[key := e]) == SweepTargets(store - {key})
  {
    var a := store[key := e];
    var b := store - {key};
    forall sid | sid in SweepTargets(a) ensures sid in SweepTargets(b) {
      var k :| k in a && IsSwept(k) && sid in SidsArray(a[k].value);
      assert k in b && b[k] == a[k];
    }
    forall sid | sid in SweepTargets(b) ensures sid in SweepTargets(a) {
      var k :| k in b && IsSwept(k) && sid in SidsArray(b[k].value);
      assert k in a && a[k] == b[k];
    }
  }

  /** Reading one more key adds exactly the legs its session lists. */
  lemma ListedByStep(store: map<string, Entry>, seen: set<string>, key: string)
    requires key in store
    ensures ListedBy(store, seen + {key})
         == ListedBy(store, seen) + (if IsSwept(key) then (set sid | sid in SidsArray(store[key].value)) else {})
  {
    var lhs := ListedBy(store, seen + {key});
    var rhs := ListedBy(store, seen) + (if IsSwept(key) then (set sid | sid in SidsArray(store[key].value)) else {});
    forall sid | sid in lhs ensures sid in rhs {
      var k :| k in seen + {key} && k in store && IsSwept(k) && sid in SidsArray(store[k].value);
      if k != key {
        assert sid in ListedBy(store, seen);
      }
    }
    forall sid | sid in rhs ensures sid in lhs {
      if sid in ListedBy(store, seen) {
        var k :| k in seen && k in store && IsSwept(k) && sid in SidsArray(store[k].value);
        assert k in seen + {key};
      } else {
        assert key in seen + {key};
      }
    }
  }

  /** Adds each of `more` to the insertion-ordered set `sids`, as `Set.add` does. */
  method AddAll(sids: seq<string>, more: seq<string>) returns (r: seq<string>)
    requires forall i, j :: 0 <= i < j < |sids| ==> sids[i] != sids[j]
    ensures forall i, j :: 0 <= i < j < |r| ==> r[i] != r[j]
    ensures (set sid | sid in r) == (set sid | sid in sids) + (set sid | sid in more)
    ensures |sids| <= |r| && r[..|sids|] == sids
  {
    r := sids;
    var j := 0;
    while j < |more|
      invariant 0 <= j <= |more|
      invariant forall a, b :: 0 <= a < b < |r| ==> r[a] != r[b]
      invariant (set sid | sid in r) == (set sid | sid in sids) + (set sid | sid in more[..j])
      invariant |sids| <= |r| && r[..|sids|] == sids
    {
      assert more[..j + 1] == more[..j] + [more[j]];
      if more[j] !in r {
        assert (set sid | sid in r + [more[j]]) == (set sid | sid in r) + {more[j]};
        r := r + [more[j]];
      }
      j := j + 1;
    }
    assert more[..j] == more;
  }

  /** The first loop: read every `conf:*` key (in whatever order the
      store lists them), skip the counter-style ones, and gather the
      `sids` arrays into a set. Each leg appears once. */
  method CollectSids(store: map<string, Entry>) returns (sids: seq<string>)
    ensures (set sid | sid in sids) == SweepTargets(store)
    ensures forall i, j :: 0 <= i < j < |sids| ==> sids[i] != sids[j]
  {
    var keys := set k | k in store && IsConfKey(k);
    ghost var seen: set<string> := {};
    sids := [];
    while keys != {}
      invariant keys <= store.Keys && seen <= store.Keys && keys !! seen
      invariant forall k :: k in store && IsConfKey(k) ==> k in keys + seen
      invariant forall i, j :: 0 <= i < j < |sids| ==> sids[i] != sids[j]
      invariant (set sid | sid in sids) == ListedBy(store, seen)
      decreases keys
    {
      var key :| key in keys;
      ListedByStep(store, seen, key);
      if !IsCounterKey(key) {
        var data := store[key].value;
        if TruthyValue(data) && data.Conf? && data.sids.Some? {
          sids := AddAll(sids, data.sids.value);
        }
      }
      keys := keys - {key};
      seen := seen + {key};
    }
    forall sid | sid in SweepTargets(store) ensures sid in ListedBy(store, seen) {
      var k :| k in store && IsSwept(k) && sid in SidsArray(store[k].value);
      assert k in seen;
    }
  }

  /** The second loop: one `completed` update per collected leg, a
      failed update not stopping the rest. */
  method HangUpAll(w: World, sids: seq<string>, ok: string -> bool)
    modifies w`log
    ensures w.log == old(w.log) + Hangups(sids, ok)
  {
    var i := 0;
    while i < |sids|
      invariant 0 <= i <= |sids|
      invariant w.log == old(w.log) + Hangups(sids[..i], ok)
    {
      assert sids[..i + 1] == sids[..i] + [sids[i]];
      HangupsConcat(sids[..i], [sids[i]], ok);
      w.log := w.log + [Complete(sids[i], ok(sids[i]))];
      i := i + 1;
    }
    assert sids[..i] == sids;
  }

  /** The handler. `token` is the `x-secret-token` header and `secret`
      the configured `EMERGENCY_KILL_TOKEN`, either possibly absent;
      `ok` gives the outcome of each hang-up. `swept` is the collected set
      of legs, in the order they were hung up. */
  method Handle(w: World, httpMethod: string, token: Option<string>, secret: Option<string>, ok: string -> bool)
    returns (reply: Reply, swept: seq<string>)
    modifies w`log
    ensures w.store == old(w.store)
    ensures httpMethod != "POST" ==> reply == Status(405) && w.log == old(w.log)
    ensures httpMethod == "POST" && token != secret ==> reply == Status(403) && w.log == old(w.log)
    ensures httpMethod == "POST" && token == secret ==>
      && reply == Status(200)
      && (set sid | sid in swept) == SweepTargets(w.store)
      && (forall i, j :: 0 <= i < j < |swept| ==> swept[i] != swept[j])
      && w.log == old(w.log) + Hangups(swept, ok)
  {
    swept := [];
    if httpMethod != "POST" {
      return Status(405), swept;
    }
    if token != secret {
      return Status(403), swept;
    }
    swept := CollectSids(w.store);
    HangUpAll(w, swept, ok);
    reply := Status(200);
  }
}
