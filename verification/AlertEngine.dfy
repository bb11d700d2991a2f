/** The alert engine's state as it is updated in place, and the counter series
    behind the windowed rules (src/console/alerts.rs). */
module AlertEngine {
  import opened Basics
  import opened Alerts

  class AlertState {
    const resolveMs: nat
    const repeatMs: nat
    var conditions: map<string, Condition>
    var resolved: seq<Resolved>
    var rounds: nat
    var serial: nat

    ghost function Model(): Engine
      reads this
    {
      Engine(resolveMs, repeatMs, conditions, resolved)
    }

    constructor (resolveMs: nat, repeatMs: nat)
      ensures Model() == Engine(resolveMs, repeatMs, map[], []) && rounds == 0 && serial == 0
    {
      this.resolveMs, this.repeatMs := resolveMs, repeatMs;
      conditions, resolved, rounds, serial := map[], [], 0, 0;
    }

    method ObserveRound(r: Round) returns (ghost order: seq<string>)
      modifies this
      ensures rounds == old(rounds) + 1 && serial == old(serial) + |order|
      ensures Visits(order, Recovering(TouchAll(old(conditions), r.findings, r.now, old(rounds)), r, resolveMs))
      ensures Model() == Observe(old(Model()), r, old(rounds), order, old(serial))
    {
      hide Touch, TouchAll, Observe, Recovering, Settled, Visits;
      TouchFindings(r);
      ghost var touched := conditions;
      var gone := MarkMissing(r);
      order := RemoveGone(r, gone, touched);
      ObserveEffect(old(Model()), r, old(rounds), order, old(serial));
      if |resolved| > MAX_PENDING_RESOLVED {
        resolved := resolved[|resolved| - MAX_PENDING_RESOLVED..];
      }
      rounds := rounds + 1;
    }

    method TouchFindings(r: Round)
      modifies `conditions
      ensures conditions == TouchAll(old(conditions), r.findings, r.now, rounds)
    {
      var i := 0;
      assert r.findings[..0] == [];
      while i < |r.findings|
        invariant 0 <= i <= |r.findings|
        invariant conditions == TouchAll(old(conditions), r.findings[..i], r.now, rounds)
      {
        var f := r.findings[i];
        assert r.findings[..i + 1][..i] == r.findings[..i];
        var k := KeyOf(f);
        var c := if k in conditions then conditions[k] else Created(f, r.now, rounds);
        c := c.(detail := f.detail, absentSince := None);
        if !c.firing && SatSub(r.now, c.pendingSince) >= f.holdMs {
          c := c.(firing := true, fired := rounds);
        }
        conditions := conditions[k := c];
        i := i + 1;
      }
      assert r.findings[..|r.findings|] == r.findings;
    }

    // Remembers when a firing condition went missing and lists those that leave.
    method MarkMissing(r: Round) returns (gone: seq<string>)
      modifies `conditions
      ensures conditions.Keys == old(conditions).Keys
      ensures forall k :: k in conditions ==> conditions[k] == Marked(r, k, old(conditions)[k], rounds)
      ensures Visits(gone, Leaving(old(conditions), r, resolveMs))
    {
      var left := conditions.Keys;
      gone := [];
      while left != {}
        invariant left <= conditions.Keys == old(conditions).Keys
        invariant forall k :: k in conditions ==>
                    conditions[k] == if k in left then old(conditions)[k] else Marked(r, k, old(conditions)[k], rounds)
        invariant Visits(gone, Leaving(old(conditions), r, resolveMs) - left)
        decreases left
      {
        var k :| k in left;
        left := left - {k};
        var c := conditions[k];
        if !Present(r, k) && c.rule in r.evaluated {
          if !c.firing {
            gone := gone + [k];
          } else {
            if c.absentSince.None? {
              c := c.(absentSince := Some(r.now), absentFrom := rounds);
              conditions := conditions[k := c];
            }
            if SatSub(r.now, c.absentSince.value) >= resolveMs {
              gone := gone + [k];
            }
          }
        }
      }
    }

    // Drops them and queues a recovery for those that were announced.
    method RemoveGone(r: Round, gone: seq<string>, ghost touched: map<string, Condition>) returns (ghost order: seq<string>)
      requires Visits(gone, Leaving(touched, r, resolveMs))
      requires conditions.Keys == touched.Keys
      requires forall k :: k in conditions ==> conditions[k] == Marked(r, k, touched[k], rounds)
      modifies `conditions, `resolved, `serial
      ensures Visits(order, Recovering(touched, r, resolveMs))
      ensures conditions == Settled(touched, r, rounds, resolveMs)
      ensures resolved == old(resolved) + Recoveries(touched, r, rounds, order, old(serial))
      ensures serial == old(serial) + |order|
    {
      hide Marked, Leaves, Recovery, Visits, Recovering, Leaving, AnnouncedOnly, Recoveries;
      order := [];
      ghost var marked := conditions;
      ghost var ids := Leaving(touched, r, resolveMs);
      LeavingFacts(touched, r, resolveMs);
      NothingGone(touched, r, rounds, serial);
      var i := 0;
      assert gone[..0] == [] && marked - {} == marked;
      while i < |gone|
        invariant 0 <= i <= |gone|
        invariant conditions == marked - Elements(gone[..i])
        invariant order == AnnouncedOnly(touched, gone[..i])
        invariant serial == old(serial) + |order|
        invariant resolved == old(resolved) + Recoveries(touched, r, rounds, order, old(serial))
      {
        var k := gone[i];
        VisitNext(gone, ids, i);
        AnnouncedSnoc(touched, gone[..i], k);
        assert gone[..i + 1] == gone[..i] + [k];
        var c := conditions[k];
        MarkedKeepsNews(r, k, touched[k], rounds);
        conditions := conditions - {k};
        assert conditions == marked - Elements(gone[..i + 1]);
        if c.firing && c.notified.Some? {
          RecoveriesSnoc(touched, r, rounds, order, k, old(serial));
          resolved := resolved + [Recovery(c, r.now, serial)];
          serial := serial + 1;
          order := order + [k];
        }
        i := i + 1;
      }
      assert gone[..|gone|] == gone;
      AnnouncedVisits(touched, gone, ids);
      SettledAre(touched, r, rounds, resolveMs, gone, marked);
    }

    // One message for everything that is due: what fires and was never
    // announced, or not since the repeat time, and all queued recoveries.
    // Nothing is changed, so that a failed push loses nothing.
    method TakeMessage(now: nat) returns (n: Option<Notification>)
      ensures n == PendingMessage(Model(), now)
      ensures n.None? <==> resolved == [] && forall k :: k in conditions ==> !Due(Model(), conditions[k], now)
      ensures n.Some? ==> n.value.resolved == |resolved|
      ensures n.Some? ==> forall k :: k in n.value.keys <==>
                && k in conditions && conditions[k].firing
                && (conditions[k].notified.None? || repeatMs == 0 || conditions[k].notified.value + repeatMs <= now)
    {
      var keys, rest := {}, conditions.Keys;
      while rest != {}
        invariant rest <= conditions.Keys
        invariant keys == set k | k in conditions && k !in rest && Due(Model(), conditions[k], now)
        decreases rest
      {
        var k :| k in rest;
        var c := conditions[k];
        if c.firing {
          if c.notified.None? {
            keys := keys + {k};
          } else if SatSub(now, c.notified.value) >= repeatMs {
            keys := keys + {k};
          }
        }
        rest := rest - {k};
      }
      assert keys == DueKeys(Model(), now);
      assert forall k :: k in conditions && Due(Model(), conditions[k], now) ==> k in keys;
      n := if keys == {} && resolved == [] then None else Some(Notification(keys, |resolved|));
    }

    // After a push that worked. Acknowledging what was just taken leaves nothing
    // due; conditions that left in the meantime are not brought back.
    method Acknowledge(n: Notification, now: nat)
      modifies `conditions, `resolved
      ensures Model() == MarkSent(old(Model()), n, now)
      ensures old(PendingMessage(Model(), now)) == Some(n) && repeatMs > 0 ==> PendingMessage(Model(), now) == None
      ensures conditions.Keys == old(conditions.Keys)
    {
      ghost var before := Model();
      var rest := n.keys;
      while rest != {}
        modifies `conditions
        invariant rest <= n.keys
        invariant conditions == map k | k in before.conditions ::
          if k in n.keys && k !in rest then before.conditions[k].(notified := Some(now)) else before.conditions[k]
        decreases rest
      {
        var k :| k in rest;
        if k in conditions {
          conditions := conditions[k := conditions[k].(notified := Some(now))];
        }
        rest := rest - {k};
      }
      resolved := resolved[Min(n.resolved, |resolved|)..];
      if PendingMessage(before, now) == Some(n) && repeatMs > 0 {
        SentIsSettled(before, now, now);
      }
    }
  }

  function Elements(s: seq<string>): set<string> {
    set k | k in s
  }

  function AnnouncedOnly(conds: map<string, Condition>, ks: seq<string>): (r: seq<string>)
    ensures forall i :: 0 <= i < |r| ==> r[i] in conds
  {
    if ks == [] then []
    else
      var k := ks[|ks| - 1];
      AnnouncedOnly(conds, ks[..|ks| - 1]) + if k in conds && Announced(conds[k]) then [k] else []
  }

  lemma {:induction false} AnnouncedVisits(conds: map<string, Condition>, ks: seq<string>, ids: set<string>)
    requires Visits(ks, ids) && ids <= conds.Keys
    ensures Visits(AnnouncedOnly(conds, ks), set k | k in ids && Announced(conds[k]))
  {
    if ks != [] {
      var n := |ks| - 1;
      AnnouncedVisits(conds, ks[..n], ids - {ks[n]});
    }
  }

  lemma LeavingFacts(conds: map<string, Condition>, r: Round, resolveMs: nat)
    ensures Leaving(conds, r, resolveMs) <= conds.Keys
    ensures Recovering(conds, r, resolveMs) == set k | k in Leaving(conds, r, resolveMs) && Announced(conds[k])
  {
  }

  lemma NothingGone(conds: map<string, Condition>, r: Round, round: nat, serial: nat)
    ensures AnnouncedOnly(conds, []) == [] && Recoveries(conds, r, round, [], serial) == []
  {
  }

  lemma VisitNext(order: seq<string>, ids: set<string>, i: nat)
    requires Visits(order, ids) && i < |order|
    ensures order[i] in ids && order[i] !in order[..i]
  {
  }

  lemma AnnouncedSnoc(conds: map<string, Condition>, ks: seq<string>, k: string)
    ensures AnnouncedOnly(conds, ks + [k]) == AnnouncedOnly(conds, ks) + if k in conds && Announced(conds[k]) then [k] else []
  {
    assert (ks + [k])[..|ks|] == ks;
  }

  lemma RecoveriesSnoc(conds: map<string, Condition>, r: Round, round: nat, order: seq<string>, k: string, serial: nat)
    requires k in conds && forall i :: 0 <= i < |order| ==> order[i] in conds
    ensures forall i :: 0 <= i < |order + [k]| ==> (order + [k])[i] in conds
    ensures Recoveries(conds, r, round, order + [k], serial)
         == Recoveries(conds, r, round, order, serial) + [Recovery(Marked(r, k, conds[k], round), r.now, serial + |order|)]
  {
  }

  lemma SettledAre(conds: map<string, Condition>, r: Round, round: nat, resolveMs: nat, gone: seq<string>, marked: map<string, Condition>)
    requires Visits(gone, Leaving(conds, r, resolveMs)) && marked.Keys == conds.Keys
    requires forall k :: k in marked ==> marked[k] == Marked(r, k, conds[k], round)
    ensures marked - Elements(gone) == Settled(conds, r, round, resolveMs)
  {
    hide Marked, Leaves;
  }

  // Marking changes neither whether a condition fires nor whether it was announced.
  lemma MarkedKeepsNews(r: Round, k: string, c: Condition, round: nat)
    ensures Marked(r, k, c, round).firing == c.firing && Marked(r, k, c, round).notified == c.notified
  {
  }

  lemma ObserveEffect(e: Engine, r: Round, round: nat, order: seq<string>, serial: nat)
    requires Visits(order, Recovering(TouchAll(e.conditions, r.findings, r.now, round), r, e.resolveMs))
    ensures var touched := TouchAll(e.conditions, r.findings, r.now, round);
            && (forall i :: 0 <= i < |order| ==> order[i] in touched)
            && Observe(e, r, round, order, serial)
               == e.(conditions := Settled(touched, r, round, e.resolveMs),
                     resolved := LastOf(e.resolved + Recoveries(touched, r, round, order, serial), MAX_PENDING_RESOLVED))
  {
  }
}

module CounterSeries {
  import opened Basics

  const SERIES_KEEP_MS := 65 * 60_000

  datatype Sample = Sample(at: nat, value: nat)

  // A counter that got smaller was restarted and counts again from zero.
  function Growth(prev: nat, value: nat): nat {
    if value >= prev then value - prev else value
  }

  // Growth inside the window; the last sample before it is the baseline.
  function Increase(samples: seq<Sample>, start: nat): nat {
    if |samples| <= 1 then 0
    else
      var n := |samples| - 1;
      Increase(samples[..n], start)
      + if samples[n].at >= start then Growth(samples[n - 1].value, samples[n].value) else 0
  }

  ghost predicate InOrder(samples: seq<Sample>) {
    forall i, j :: 0 <= i < j < |samples| ==> samples[i].at <= samples[j].at
  }

  ghost predicate Monotone(samples: seq<Sample>) {
    forall i, j :: 0 <= i < j < |samples| ==> samples[i].value <= samples[j].value
  }

  // For a counter that never restarts, the windowed increase is what it shows
  // now minus what it showed at the baseline sample `b`: the last one before
  // the window, or the first one when the samples do not reach back that far.
  lemma {:induction false} IncreaseTelescopes(samples: seq<Sample>, start: nat, b: nat)
    requires InOrder(samples) && Monotone(samples) && b < |samples|
    requires b == 0 || samples[b].at < start
    requires forall i :: b < i < |samples| ==> samples[i].at >= start
    ensures Increase(samples, start) == samples[|samples| - 1].value - samples[b].value
  {
    var n := |samples| - 1;
    if b < n {
      IncreaseTelescopes(samples[..n], start, b);
    } else {
      NoIncreaseBefore(samples, start);
    }
  }

  lemma {:induction false} NoIncreaseBefore(samples: seq<Sample>, start: nat)
    requires forall i :: 0 < i < |samples| ==> samples[i].at < start
    ensures Increase(samples, start) == 0
  {
    if |samples| > 1 {
      NoIncreaseBefore(samples[..|samples| - 1], start);
    }
  }

  // Losing old samples can only make the count smaller, never larger.
  lemma {:induction false} DroppingUndercounts(samples: seq<Sample>, start: nat, d: nat)
    requires d <= |samples|
    ensures Increase(samples[d..], start) <= Increase(samples, start)
  {
    if |samples| - d > 1 {
      var n := |samples| - 1;
      DroppingUndercounts(samples[..n], start, d);
      assert samples[d..][..n - d] == samples[..n][d..];
    }
  }

  class Series {
    var samples: seq<Sample>

    constructor ()
      ensures samples == []
    {
      samples := [];
    }

    // Appends a sample and forgets those past the keep time.
    method Push(now: nat, value: nat) returns (ghost dropped: nat)
      modifies this
      ensures dropped <= |old(samples)| + 1 && samples == (old(samples) + [Sample(now, value)])[dropped..]
      ensures samples != [] && SatSub(now, samples[0].at) <= SERIES_KEEP_MS
      ensures forall i :: 0 <= i < dropped ==> SatSub(now, (old(samples) + [Sample(now, value)])[i].at) > SERIES_KEEP_MS
    {
      samples := samples + [Sample(now, value)];
      ghost var all := samples;
      dropped := 0;
      while samples != [] && SatSub(now, samples[0].at) > SERIES_KEEP_MS
        invariant 0 <= dropped < |all| && samples == all[dropped..]
        invariant forall i :: 0 <= i < dropped ==> SatSub(now, all[i].at) > SERIES_KEEP_MS
        decreases |samples|
      {
        assert all[|all| - 1].at == now;
        samples := samples[1..];
        dropped := dropped + 1;
      }
    }

    method WindowIncrease(now: nat, windowMs: nat) returns (total: nat)
      ensures total == Increase(samples, SatSub(now, windowMs))
    {
      var start := SatSub(now, windowMs);
      total := 0;
      var prev: Option<nat> := None;
      var i := 0;
      assert samples[..0] == [];
      while i < |samples|
        invariant 0 <= i <= |samples|
        invariant prev == if i == 0 then None else Some(samples[i - 1].value)
        invariant total == Increase(samples[..i], start)
      {
        var s := samples[i];
        assert samples[..i + 1][..i] == samples[..i];
        if s.at >= start && prev.Some? {
          total := total + if s.value >= prev.value then s.value - prev.value else s.value;
        }
        prev := Some(s.value);
        i := i + 1;
      }
      assert samples[..|samples|] == samples;
    }
  }
}
