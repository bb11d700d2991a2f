/** The registry as the console runs it: maps changed in place under one lock,
    scanned in no particular order. */
module RegistryServer {
  import opened Basics
  import opened MapSum
  import opened StringOrder
  import opened Registry

  lemma BusiestIsUnique(r: Inner, ids: set<string>, a: string, b: string)
    requires IsBusiest(r, ids, a) && IsBusiest(r, ids, b)
    ensures a == b
  {
    LessTotal(a, b);
  }

  // One more candidate in the running maximum.
  lemma BusiestStep(r: Inner, done: set<string>, b: string, id: string)
    requires id in r.nodes && id !in done && IsBusiest(r, done, b)
    ensures var take := Clients(r, id) > Clients(r, b) || (Clients(r, id) == Clients(r, b) && Less(id, b));
            IsBusiest(r, done + {id}, if take then id else b)
  {
    LessTotal(id, b);
    forall x | x in done && x in r.nodes && x != b && Less(id, b) && Less(b, x) ensures Less(id, x) {
      LessTransitive(id, b, x);
    }
  }

  lemma SpareStep(r: Inner, done: set<string>, id: string)
    requires id in r.nodes && id !in done
    ensures Sum(SpareOf(r, done + {id}))
            == Sum(SpareOf(r, done)) + SatSub(r.nodes[id].heartbeat.maxClients, r.nodes[id].heartbeat.clients)
  {
    var x := SatSub(r.nodes[id].heartbeat.maxClients, r.nodes[id].heartbeat.clients);
    assert SpareOf(r, done + {id}) == SpareOf(r, done)[id := x];
    SumUpdate(SpareOf(r, done), id, x);
  }

  lemma FewestStep(r: Inner, done: set<string>, n: nat, id: string)
    requires done <= r.nodes.Keys && id in r.nodes && IsFewest(r, done, n)
    ensures IsFewest(r, done + {id}, if done == {} || Clients(r, id) < n then Clients(r, id) else n)
  {
    var m := if done == {} || Clients(r, id) < n then Clients(r, id) else n;
    if m == n && done != {} {
      var j :| j in done && Clients(r, j) == n;
      assert j in done + {id};
    }
    assert id in done + {id};
  }

  lemma FewestIsUnique(r: Inner, ids: set<string>, m: nat, n: nat)
    requires ids <= r.nodes.Keys && IsFewest(r, ids, m) && IsFewest(r, ids, n)
    ensures m == n
  {
  }

  class NodeRegistry {
    var nodes: map<string, Node>
    var admin: map<string, Admin>
    var settings: Settings
    const staleAfterMs: nat

    ghost function Model(): Inner
      reads this
    {
      Inner(nodes, admin, settings, staleAfterMs)
    }

    constructor (admin: map<string, Admin>, settings: Settings, staleAfterMs: nat)
      ensures Model() == Inner(map[], admin, settings, staleAfterMs)
    {
      this.nodes, this.admin, this.settings, this.staleAfterMs := map[], admin, settings, staleAfterMs;
    }

    method BusiestSheddable(now: nat) returns (b: Option<string>)
      ensures b.None? <==> SheddableIds(Model(), now) == {}
      ensures b.Some? ==> IsBusiest(Model(), SheddableIds(Model(), now), b.value)
    {
      var r := Inner(nodes, admin, settings, staleAfterMs);
      var left := SheddableIds(r, now);
      ghost var ids, done := left, {};
      b := None;
      while left != {}
        invariant left + done == ids && left !! done && left <= r.nodes.Keys
        invariant b.None? <==> done == {}
        invariant b.Some? ==> IsBusiest(r, done, b.value)
        decreases left
      {
        var id :| id in left;
        if b.None? {
          b := Some(id);
        } else {
          BusiestStep(r, done, b.value, id);
          if Clients(r, id) > Clients(r, b.value) || (Clients(r, id) == Clients(r, b.value) && Less(id, b.value)) {
            b := Some(id);
          }
        }
        left := left - {id};
        done := done + {id};
      }
      assert done == ids;
    }

    method Excess(id: string, now: nat) returns (x: int)
      ensures x == BalanceExcess(Model(), id, now)
    {
      var r := Inner(nodes, admin, settings, staleAfterMs);
      if id !in SheddableIds(r, now) {
        return 0;
      }
      var serving := ServingIds(r, now);
      var spare := 0;
      var left := serving - {id};
      ghost var done: set<string> := {};
      SumZero(SpareOf(r, done));
      while left != {}
        invariant left + done == serving - {id} && left !! done && left <= r.nodes.Keys
        invariant spare == Sum(SpareOf(r, done))
        decreases left
      {
        var j :| j in left;
        SpareStep(r, done, j);
        spare := spare + SatSub(r.nodes[j].heartbeat.maxClients, r.nodes[j].heartbeat.clients);
        left := left - {j};
        done := done + {j};
      }
      assert done == serving - {id};
      if spare == 0 {
        return 0;
      }
      var emptiest := FewestServing(now);
      var me := Clients(r, id);
      var excess := (100 * me - emptiest * (100 + settings.spreadPct)) / 100;
      x := Min(Min(excess, SatSub(me, emptiest) / 2), spare);
    }

    method FewestServing(now: nat) returns (n: nat)
      ensures n == Emptiest(Model(), now)
    {
      var r := Inner(nodes, admin, settings, staleAfterMs);
      var left := ServingIds(r, now);
      ghost var ids, done := left, {};
      n := 0;
      var none := true;
      while left != {}
        invariant left + done == ids && left !! done && ids <= r.nodes.Keys
        invariant none <==> done == {}
        invariant IsFewest(r, done, n)
        decreases left
      {
        var id :| id in left;
        FewestStep(r, done, n, id);
        if none || Clients(r, id) < n {
          n := Clients(r, id);
        }
        none := false;
        left := left - {id};
        done := done + {id};
      }
      assert done == ids;
      FewestIsUnique(r, ids, n, Emptiest(r, now));
    }

    method DecideRelease(id: string, now: nat) returns (n: nat, reason: Reason)
      requires id in nodes
      modifies `nodes
      ensures (n, reason) == Decide(old(Model()), id, now)
      ensures reason.Manual? ==> n <= old(nodes[id].pendingRelease)
      ensures Model() == Released(old(Model()), id, n, reason, now)
    {
      hide BalanceExcess, SheddableIds;
      var batch := Max(settings.releaseBatch, 1);
      var node := nodes[id];
      if node.pendingRelease > 0 {
        n := Min(node.pendingRelease, batch);
        nodes := nodes[id := node.(pendingRelease := node.pendingRelease - n,
                                   releasedTotal := node.releasedTotal + n, lastReleaseMs := now)];
        return n, Manual;
      }
      if !settings.autoBalance || node.desiredDrain {
        return 0, Nothing;
      }
      var busiest := BusiestSheddable(now);
      if busiest != Some(id) {
        if IsBusiest(Model(), SheddableIds(Model(), now), id) {
          BusiestIsUnique(Model(), SheddableIds(Model(), now), id, busiest.value);
        }
        return 0, Nothing;
      }
      var excess := Excess(id, now);
      if excess < settings.minExcess {
        return 0, Nothing;
      }
      n := Min(excess, batch);
      nodes := nodes[id := node.(releasedTotal := node.releasedTotal + n, lastReleaseMs := now)];
      reason := AutoBalance;
    }

    method Heartbeat(hb: Registry.Heartbeat, now: nat) returns (out: Outcome)
      modifies `nodes
      ensures (Model(), out) == Beat(old(Model()), hb, now)
    {
      hide Decide;
      var id := hb.nodeId;
      var firstSeen := id !in nodes;
      if firstSeen {
        nodes := nodes[id := Node(hb, now, false, 0, 0, 0)];
      }
      var node := nodes[id];
      var restarted := false;
      if !firstSeen && node.heartbeat.startedAtMs != 0 && node.heartbeat.startedAtMs != hb.startedAtMs {
        restarted := true;
        node := node.(desiredDrain := false);
      }
      node := node.(heartbeat := hb, lastSeenMs := now);
      nodes := nodes[id := node];
      assert nodes == old(nodes)[id := node];
      if id in admin && admin[id].relay {
        nodes := nodes[id := node.(desiredDrain := false, pendingRelease := 0)];
        assert nodes == old(nodes)[id := node.(desiredDrain := false, pendingRelease := 0)];
        return Outcome(firstSeen, restarted, false, 0, Nothing);
      }
      var n, reason := DecideRelease(id, now);
      out := Outcome(firstSeen, restarted, node.desiredDrain, n, reason);
    }

    method RequestRelease(id: string, count: nat) returns (known: bool)
      modifies `nodes
      ensures known == (id in old(nodes))
      ensures Model() == Requested(old(Model()), id, count)
    {
      if id !in nodes {
        return false;
      }
      nodes := nodes[id := nodes[id].(pendingRelease := count)];
      known := true;
    }
  }
}
