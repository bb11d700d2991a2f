/** The alert engine (src/console/alerts.rs). The threshold rules themselves are
    inputs: a round brings the findings and the set of rules it could evaluate. */
module Alerts {
  import opened Basics
  import opened TextSearch

  const MAX_PENDING_RESOLVED := 200

  datatype Finding = Finding(rule: string, title: string, subject: string, detail: string, holdMs: nat)

  function KeyOf(f: Finding): string {
    f.rule + ":" + f.subject
  }

  // `born`, `fired` and `absentFrom` are the rounds in which the condition was
  // created, started firing and was first missed again.
  datatype Condition = Condition(
    rule: string, title: string, subject: string, detail: string, pendingSince: nat, firing: bool,
    notified: Option<nat>, absentSince: Option<nat>, born: nat, fired: nat, absentFrom: nat)

  // `serial` numbers the recoveries in the order they are queued.
  datatype Resolved = Resolved(serial: nat, title: string, subject: string, lastedMs: nat)

  datatype Engine = Engine(resolveMs: nat, repeatMs: nat, conditions: map<string, Condition>, resolved: seq<Resolved>)

  datatype Round = Round(now: nat, findings: seq<Finding>, evaluated: set<string>)

  predicate Present(r: Round, k: string) {
    exists i :: 0 <= i < |r.findings| && KeyOf(r.findings[i]) == k
  }

  function Created(f: Finding, now: nat, round: nat): Condition {
    Condition(f.rule, f.title, f.subject, "", now, false, None, None, round, 0, 0)
  }

  // One finding: create or refresh its condition, and fire once it has been
  // pending for long enough.
  function Touch(conds: map<string, Condition>, f: Finding, now: nat, round: nat): map<string, Condition> {
    var k := KeyOf(f);
    var c := (if k in conds then conds[k] else Created(f, now, round)).(detail := f.detail, absentSince := None);
    conds[k := if !c.firing && SatSub(now, c.pendingSince) >= f.holdMs then c.(firing := true, fired := round) else c]
  }

  function TouchAll(conds: map<string, Condition>, findings: seq<Finding>, now: nat, round: nat): map<string, Condition> {
    if findings == [] then conds
    else Touch(TouchAll(conds, findings[..|findings| - 1], now, round), findings[|findings| - 1], now, round)
  }

  predicate Missed(r: Round, k: string, c: Condition) {
    !Present(r, k) && c.rule in r.evaluated
  }

  // A missed firing condition remembers when it was first missed.
  function Marked(r: Round, k: string, c: Condition, round: nat): Condition {
    if Missed(r, k, c) && c.firing && c.absentSince.None? then c.(absentSince := Some(r.now), absentFrom := round) else c
  }

  // A missed condition leaves at once if it never fired, otherwise after the
  // resolve time.
  predicate Leaves(r: Round, k: string, c: Condition, resolveMs: nat) {
    Missed(r, k, c) && (!c.firing || SatSub(r.now, c.absentSince.GetOr(r.now)) >= resolveMs)
  }

  function Leaving(conds: map<string, Condition>, r: Round, resolveMs: nat): set<string> {
    set k | k in conds && Leaves(r, k, conds[k], resolveMs)
  }

  // Only what was announced is announced as recovered.
  predicate Announced(c: Condition) {
    c.firing && c.notified.Some?
  }

  function Recovering(conds: map<string, Condition>, r: Round, resolveMs: nat): set<string> {
    set k | k in Leaving(conds, r, resolveMs) && Announced(conds[k])
  }

  function Recovery(c: Condition, now: nat, serial: nat): Resolved {
    Resolved(serial, c.title, c.subject, SatSub(c.absentSince.GetOr(now), c.pendingSince))
  }

  // `order` is the order in which the leaving conditions are visited.
  ghost predicate Visits(order: seq<string>, ids: set<string>) {
    && (forall i :: 0 <= i < |order| ==> order[i] in ids)
    && (forall k :: k in ids ==> k in order)
    && (forall i, j :: 0 <= i < j < |order| ==> order[i] != order[j])
  }

  function Settled(conds: map<string, Condition>, r: Round, round: nat, resolveMs: nat): map<string, Condition> {
    map k | k in conds && !Leaves(r, k, conds[k], resolveMs) :: Marked(r, k, conds[k], round)
  }

  function Recoveries(conds: map<string, Condition>, r: Round, round: nat, order: seq<string>, serial: nat): seq<Resolved>
    requires forall i :: 0 <= i < |order| ==> order[i] in conds
  {
    seq(|order|, i requires 0 <= i < |order| => Recovery(Marked(r, order[i], conds[order[i]], round), r.now, serial + i))
  }

  ghost function Observe(e: Engine, r: Round, round: nat, order: seq<string>, serial: nat): Engine
    requires Visits(order, Recovering(TouchAll(e.conditions, r.findings, r.now, round), r, e.resolveMs))
  {
    var touched := TouchAll(e.conditions, r.findings, r.now, round);
    e.(conditions := Settled(touched, r, round, e.resolveMs),
       resolved := LastOf(e.resolved + Recoveries(touched, r, round, order, serial), MAX_PENDING_RESOLVED))
  }

  // ----- messages -----

  predicate Due(e: Engine, c: Condition, now: nat) {
    c.firing && (c.notified.None? || SatSub(now, c.notified.value) >= e.repeatMs)
  }

  function DueKeys(e: Engine, now: nat): set<string> {
    set k | k in e.conditions && Due(e, e.conditions[k], now)
  }

  datatype Notification = Notification(keys: set<string>, resolved: nat)

  function PendingMessage(e: Engine, now: nat): Option<Notification> {
    var keys := DueKeys(e, now);
    if keys == {} && e.resolved == [] then None else Some(Notification(keys, |e.resolved|))
  }

  function MarkSent(e: Engine, n: Notification, now: nat): Engine {
    e.(conditions := map k | k in e.conditions ::
         if k in n.keys then e.conditions[k].(notified := Some(now)) else e.conditions[k],
       resolved := e.resolved[Min(n.resolved, |e.resolved|)..])
  }

  // ----- rounds -----

  // One turn of `run_alerts`: observe, then, unless a recent failure blocks
  // it, build the message, push it, and acknowledge it if the push worked.
  datatype Turn = Turn(round: Round, order: seq<string>, blocked: bool, pushed: bool)

  datatype Queued = Queued(key: string, condition: Condition, round: nat)

  // `acked` lists the serials of the recoveries that went out in acknowledged
  // messages.
  datatype World = World(engine: Engine, hist: seq<Round>, queued: seq<Queued>, acked: seq<nat>)

  function Serials(rs: seq<Resolved>): seq<nat> {
    seq(|rs|, i requires 0 <= i < |rs| => rs[i].serial)
  }

  ghost predicate Enabled(w: World, t: Turn) {
    Visits(t.order, Recovering(TouchAll(w.engine.conditions, t.round.findings, t.round.now, |w.hist|), t.round, w.engine.resolveMs))
  }

  ghost function AfterObserve(w: World, t: Turn): World
    requires Enabled(w, t)
  {
    var round := |w.hist|;
    var touched := TouchAll(w.engine.conditions, t.round.findings, t.round.now, round);
    var more := seq(|t.order|, i requires 0 <= i < |t.order| =>
                  Queued(t.order[i], Marked(t.round, t.order[i], touched[t.order[i]], round), round));
    w.(engine := Observe(w.engine, t.round, round, t.order, |w.queued|), hist := w.hist + [t.round], queued := w.queued + more)
  }

  ghost function Next(w: World, t: Turn): World
    requires Enabled(w, t)
  {
    var w1 := AfterObserve(w, t);
    var message := PendingMessage(w1.engine, t.round.now);
    if t.blocked || !t.pushed || message.None? then w1
    else w1.(engine := MarkSent(w1.engine, message.value, t.round.now),
             acked := w1.acked + Serials(w1.engine.resolved[..message.value.resolved]))
  }

  ghost predicate Run(w: World, turns: seq<Turn>, w': World)
    decreases |turns|
  {
    if turns == [] then w' == w else Enabled(w, turns[0]) && Run(Next(w, turns[0]), turns[1..], w')
  }

  function Init(resolveMs: nat, repeatMs: nat): World {
    World(Engine(resolveMs, repeatMs, map[], []), [], [], [])
  }

  // ----- what every run keeps -----

  // The first and the last finding of a round for a key.
  function FirstFor(fs: seq<Finding>, k: string): Option<Finding> {
    if fs == [] then None
    else
      var f, before := fs[|fs| - 1], FirstFor(fs[..|fs| - 1], k);
      if before.None? && f.rule + ":" + f.subject == k then Some(f) else before
  }

  function LastFor(fs: seq<Finding>, k: string): Option<Finding> {
    if fs == [] then None
    else
      var f := fs[|fs| - 1];
      if f.rule + ":" + f.subject == k then Some(f) else LastFor(fs[..|fs| - 1], k)
  }

  // What the rule last had to say about the key.
  function LatestDetail(hist: seq<Round>, k: string): string {
    if hist == [] then ""
    else
      var f := LastFor(hist[|hist| - 1].findings, k);
      if f.Some? then f.value.detail else LatestDetail(hist[..|hist| - 1], k)
  }

  // The condition carries the names of the finding that made it.
  ghost predicate NamedBy(f: Option<Finding>, k: string, c: Condition) {
    && f.Some? && k == f.value.rule + ":" + f.value.subject
    && c.rule == f.value.rule && c.title == f.value.title && c.subject == f.value.subject
  }

  ghost predicate Named(hist: seq<Round>, k: string, c: Condition) {
    && c.born < |hist| && NamedBy(FirstFor(hist[c.born].findings, k), k, c)
    && c.detail == LatestDetail(hist, k)
  }

  // In every round from a to b that evaluated the rule, the finding was there.
  ghost predicate Held(hist: seq<Round>, k: string, rule: string, a: nat, b: nat)
    requires b < |hist|
  {
    forall i :: a <= i <= b && rule in hist[i].evaluated ==> Present(hist[i], k)
  }

  ghost predicate Absent(hist: seq<Round>, k: string, rule: string, a: nat, b: nat)
    requires b < |hist|
  {
    forall i :: a <= i <= b && rule in hist[i].evaluated ==> !Present(hist[i], k)
  }

  ghost predicate LongEnough(r: Round, k: string, since: nat) {
    exists i :: 0 <= i < |r.findings| && KeyOf(r.findings[i]) == k && SatSub(r.now, since) >= r.findings[i].holdMs
  }

  // The condition was pending without interruption from its creation until
  // it had lasted its hold time, in the round it fired.
  ghost predicate FiredOk(hist: seq<Round>, k: string, c: Condition) {
    && c.born <= c.fired < |hist|
    && hist[c.born].now == c.pendingSince && Present(hist[c.born], k)
    && Held(hist, k, c.rule, c.born, c.fired)
    && LongEnough(hist[c.fired], k, c.pendingSince)
  }

  // It has been missing from `absentFrom` on in every round that looked.
  ghost predicate MissingOk(hist: seq<Round>, k: string, c: Condition) {
    c.absentSince.Some? ==>
      && c.firing && c.absentFrom < |hist|
      && hist[c.absentFrom].now == c.absentSince.value && c.rule in hist[c.absentFrom].evaluated
      && Absent(hist, k, c.rule, c.absentFrom, |hist| - 1)
  }

  ghost predicate CondOk(hist: seq<Round>, k: string, c: Condition) {
    && c.born < |hist| && hist[c.born].now == c.pendingSince && Present(hist[c.born], k) && Named(hist, k, c)
    && (c.firing ==> FiredOk(hist, k, c))
    && (!c.firing ==> Held(hist, k, c.rule, c.born, |hist| - 1))
    && MissingOk(hist, k, c)
  }

  // A recovery is queued only for a condition that fired, was announced, and
  // was absent from every evaluated round over at least the resolve time.
  ghost predicate RecoveryOk(hist: seq<Round>, q: Queued, resolveMs: nat) {
    var c := q.condition;
    && q.round < |hist| && FiredOk(hist, q.key, c) && c.notified.Some?
    && c.born < |hist| && NamedBy(FirstFor(hist[c.born].findings, q.key), q.key, c)
    && c.absentSince.Some? && c.absentFrom <= q.round
    && hist[c.absentFrom].now == c.absentSince.value
    && c.rule in hist[c.absentFrom].evaluated && c.rule in hist[q.round].evaluated
    && Absent(hist, q.key, c.rule, c.absentFrom, q.round)
    && SatSub(hist[q.round].now, hist[c.absentFrom].now) >= resolveMs
  }

  ghost predicate Rising(s: seq<nat>) {
    forall i, j :: 0 <= i < j < |s| ==> s[i] < s[j]
  }

  // Acknowledged serials and queued ones, in order, without repetition.
  ghost predicate SerialsOk(w: World) {
    var all := w.acked + Serials(w.engine.resolved);
    Rising(all) && forall i :: 0 <= i < |all| ==> all[i] < |w.queued|
  }

  // What a queued recovery says: the names of its condition and how long it
  // lasted, from its first finding to the first round that missed it.
  ghost predicate Tells(hist: seq<Round>, r: Resolved, q: Queued) {
    var c := q.condition;
    && c.born < |hist| && c.absentFrom < |hist|
    && r.title == c.title && r.subject == c.subject
    && r.lastedMs == SatSub(hist[c.absentFrom].now, hist[c.born].now)
  }

  // Waiting are the newest recoveries, up to 200, in order.
  ghost predicate QueueOk(w: World) {
    && |w.engine.resolved| <= 200 && |w.engine.resolved| <= |w.queued|
    && forall i :: 0 <= i < |w.engine.resolved| ==>
         var serial := |w.queued| - |w.engine.resolved| + i;
         w.engine.resolved[i].serial == serial && Tells(w.hist, w.engine.resolved[i], w.queued[serial])
  }

  ghost predicate Inv(w: World) {
    && (forall k :: k in w.engine.conditions ==> CondOk(w.hist, k, w.engine.conditions[k]))
    && (forall i :: 0 <= i < |w.queued| ==> RecoveryOk(w.hist, w.queued[i], w.engine.resolveMs))
    && SerialsOk(w) && QueueOk(w)
  }

  // ----- proofs -----

  lemma {:induction false} PresentIff(r: Round, k: string)
    ensures Present(r, k) <==> FirstFor(r.findings, k).Some?
    ensures Present(r, k) <==> LastFor(r.findings, k).Some?
    decreases |r.findings|
  {
    if r.findings != [] {
      var n := |r.findings| - 1;
      var init := r.(findings := r.findings[..n]);
      PresentIff(init, k);
      if Present(r, k) && KeyOf(r.findings[n]) != k {
        var i :| 0 <= i < |r.findings| && KeyOf(r.findings[i]) == k;
        assert init.findings[i] == r.findings[i];
      }
      if Present(init, k) {
        var i :| 0 <= i < n && KeyOf(init.findings[i]) == k;
        assert r.findings[i] == init.findings[i];
      }
    }
  }

  lemma InitInv(resolveMs: nat, repeatMs: nat)
    ensures Inv(Init(resolveMs, repeatMs))
  {
  }

  // A new condition carries the finding's names and starts now, silent.
  lemma CreatedIs(f: Finding, now: nat, round: nat)
    ensures var c := Created(f, now, round);
      && c.rule == f.rule && c.title == f.title && c.subject == f.subject
      && c.born == round && c.pendingSince == now && !c.firing && c.notified.None? && c.absentSince.None?
  {
  }

  // One finding: its own condition is there afterwards, with the finding's detail;
  // the others stay as they are.
  lemma TouchAt(conds: map<string, Condition>, f: Finding, now: nat, round: nat, k: string)
    ensures var t := Touch(conds, f, now, round);
      if k != f.rule + ":" + f.subject then (k in t <==> k in conds) && (k in t ==> t[k] == conds[k])
      else
        k in t &&
        var c := if k in conds then conds[k] else Created(f, now, round);
        t[k] == c.(detail := f.detail, absentSince := None,
                   firing := c.firing || SatSub(now, c.pendingSince) >= f.holdMs,
                   fired := if !c.firing && SatSub(now, c.pendingSince) >= f.holdMs then round else c.fired)
  {
    hide Created;
  }

  // What a round's findings do to one condition; it fires exactly when one of
  // them has lasted its hold time.
  ghost predicate Touched(before: Option<Condition>, r: Round, round: nat, k: string, c: Condition) {
    && c.absentSince.None?
    && LastFor(r.findings, k).Some? && c.detail == LastFor(r.findings, k).value.detail
    && (if before.Some? then
          var b := before.value;
          && c == b.(detail := c.detail, absentSince := None, firing := c.firing, fired := c.fired)
          && (b.firing ==> c.firing && c.fired == b.fired)
          && (!b.firing && c.firing ==> c.fired == round)
          && (!b.firing ==> (c.firing <==> LongEnough(r, k, b.pendingSince)))
        else
          && c.born == round && c.pendingSince == r.now && c.notified.None?
          && NamedBy(FirstFor(r.findings, k), k, c)
          && (c.firing ==> c.fired == round)
          && (c.firing <==> LongEnough(r, k, r.now)))
  }

  lemma {:induction false} TouchAllAt(conds: map<string, Condition>, findings: seq<Finding>, now: nat, round: nat, k: string)
    ensures var t, r := TouchAll(conds, findings, now, round), Round(now, findings, {});
            if !Present(r, k) then (k in t <==> k in conds) && (k in t ==> t[k] == conds[k])
            else k in t && Touched(if k in conds then Some(conds[k]) else None, r, round, k, t[k])
  {
    hide Touch, Present, Touched;
    if findings == [] {
      NothingPresent(now, k);
    } else {
      var n := |findings| - 1;
      var init, f := findings[..n], findings[n];
      TouchAllAt(conds, init, now, round, k);
      assert findings == init + [f];
      PresentSnoc(init, f, now, k);
      TouchAt(TouchAll(conds, init, now, round), f, now, round, k);
      if KeyOf(f) == k {
        var before := TouchAll(conds, init, now, round);
        if Present(Round(now, init, {}), k) {
          TouchedAgain(if k in conds then Some(conds[k]) else None, init, f, now, round, k, before[k], Touch(before, f, now, round)[k]);
        } else {
          TouchedFirst(if k in conds then Some(conds[k]) else None, init, f, now, round, k, Touch(before, f, now, round)[k]);
        }
      } else if Present(Round(now, init, {}), k) {
        TouchedStill(if k in conds then Some(conds[k]) else None, init, f, now, round, k, TouchAll(conds, init, now, round)[k]);
      }
    }
  }

  lemma NothingPresent(now: nat, k: string)
    ensures !Present(Round(now, [], {}), k)
  {
  }

  lemma PresentSnoc(init: seq<Finding>, f: Finding, now: nat, k: string)
    ensures Present(Round(now, init + [f], {}), k) <==> Present(Round(now, init, {}), k) || KeyOf(f) == k
  {
    PresentIff(Round(now, init, {}), k);
    PresentIff(Round(now, init + [f], {}), k);
    assert (init + [f])[..|init|] == init;
  }

  // The first finding of the round for the key.
  lemma TouchedFirst(before: Option<Condition>, init: seq<Finding>, f: Finding, now: nat, round: nat, k: string, c: Condition)
    requires !Present(Round(now, init, {}), k) && KeyOf(f) == k
    requires var b := if before.Some? then before.value else Created(f, now, round);
      c == b.(detail := f.detail, absentSince := None,
              firing := b.firing || SatSub(now, b.pendingSince) >= f.holdMs,
              fired := if !b.firing && SatSub(now, b.pendingSince) >= f.holdMs then round else b.fired)
    ensures Touched(before, Round(now, init + [f], {}), round, k, c)
  {
    CreatedIs(f, now, round);
    PresentIff(Round(now, init, {}), k);
    hide Created, FirstFor, LastFor;
    NamesSnoc(init, f, k);
    LongEnoughSnoc(init, f, now, k, c.pendingSince);
    assert !LongEnough(Round(now, init, {}), k, c.pendingSince);
  }

  lemma NamesSnoc(init: seq<Finding>, f: Finding, k: string)
    ensures FirstFor(init + [f], k) == if FirstFor(init, k).None? && KeyOf(f) == k then Some(f) else FirstFor(init, k)
    ensures LastFor(init + [f], k) == if KeyOf(f) == k then Some(f) else LastFor(init, k)
  {
    assert (init + [f])[..|init|] == init;
  }

  // A further one.
  lemma TouchedAgain(before: Option<Condition>, init: seq<Finding>, f: Finding, now: nat, round: nat, k: string,
                     b: Condition, c: Condition)
    requires Touched(before, Round(now, init, {}), round, k, b) && KeyOf(f) == k
    requires c == b.(detail := f.detail, absentSince := None,
                     firing := b.firing || SatSub(now, b.pendingSince) >= f.holdMs,
                     fired := if !b.firing && SatSub(now, b.pendingSince) >= f.holdMs then round else b.fired)
    ensures Touched(before, Round(now, init + [f], {}), round, k, c)
  {
    hide FirstFor, LastFor, LongEnough;
    NamesSnoc(init, f, k);
    LongEnoughSnoc(init, f, now, k, b.pendingSince);
  }

  // One for another key.
  lemma TouchedStill(before: Option<Condition>, init: seq<Finding>, f: Finding, now: nat, round: nat, k: string, c: Condition)
    requires Touched(before, Round(now, init, {}), round, k, c) && KeyOf(f) != k
    ensures Touched(before, Round(now, init + [f], {}), round, k, c)
  {
    hide FirstFor, LastFor, LongEnough;
    NamesSnoc(init, f, k);
    LongEnoughSnoc(init, f, now, k, c.pendingSince);
  }

  lemma LongEnoughSnoc(init: seq<Finding>, f: Finding, now: nat, k: string, since: nat)
    ensures LongEnough(Round(now, init + [f], {}), k, since)
       <==> LongEnough(Round(now, init, {}), k, since) || (KeyOf(f) == k && SatSub(now, since) >= f.holdMs)
  {
    var all := init + [f];
    assert all[|init|] == f && forall i :: 0 <= i < |init| ==> all[i] == init[i];
  }

  // What a condition's past says stays true as rounds are added.
  lemma FiredStays(hist: seq<Round>, r: Round, k: string, c: Condition)
    requires FiredOk(hist, k, c)
    ensures FiredOk(hist + [r], k, c)
  {
    var h := hist + [r];
    assert forall i :: 0 <= i < |hist| ==> h[i] == hist[i];
  }

  // A round whose findings include the condition.
  lemma SeenOk(hist: seq<Round>, r: Round, k: string, before: Option<Condition>, c: Condition)
    requires Present(r, k) && c.absentSince.None?
    requires before.Some? ==>
      var b := before.value;
      && CondOk(hist, k, b)
      && c == b.(detail := c.detail, absentSince := None, firing := c.firing, fired := c.fired)
      && (b.firing ==> c.firing && c.fired == b.fired)
      && (!b.firing && c.firing ==> c.fired == |hist| && LongEnough(r, k, b.pendingSince))
    requires LastFor(r.findings, k).Some? && c.detail == LastFor(r.findings, k).value.detail
    requires before.None? ==>
      && c.born == |hist| && c.pendingSince == r.now && NamedBy(FirstFor(r.findings, k), k, c)
      && (c.firing ==> c.fired == |hist| && LongEnough(r, k, r.now))
    ensures CondOk(hist + [r], k, c)
  {
    hide FirstFor, LastFor;
    var h := hist + [r];
    assert forall i :: 0 <= i < |hist| ==> h[i] == hist[i];
    assert h[..|hist|] == hist;
    if before.Some? && before.value.firing {
      FiredStays(hist, r, k, before.value);
      assert FiredOk(h, k, c);
    }
  }

  // A round without the finding, in which the condition stays.
  lemma UnseenOk(hist: seq<Round>, r: Round, k: string, c: Condition, resolveMs: nat)
    requires CondOk(hist, k, c) && !Present(r, k) && !Leaves(r, k, c, resolveMs)
    ensures CondOk(hist + [r], k, Marked(r, k, c, |hist|))
  {
    PresentIff(r, k);
    hide FirstFor, LastFor;
    var h := hist + [r];
    assert forall i :: 0 <= i < |hist| ==> h[i] == hist[i];
    assert h[..|hist|] == hist;
    if c.firing {
      FiredStays(hist, r, k, c);
      assert FiredOk(h, k, Marked(r, k, c, |hist|));
    }
  }

  // A round in which an announced condition leaves.
  lemma LeavingOk(hist: seq<Round>, r: Round, k: string, c: Condition, resolveMs: nat)
    requires CondOk(hist, k, c) && Leaves(r, k, c, resolveMs) && Announced(c)
    ensures RecoveryOk(hist + [r], Queued(k, Marked(r, k, c, |hist|), |hist|), resolveMs)
  {
    hide FirstFor, LastFor, LatestDetail;
    var h := hist + [r];
    assert forall i :: 0 <= i < |hist| ==> h[i] == hist[i];
    FiredStays(hist, r, k, c);
    assert FiredOk(h, k, Marked(r, k, c, |hist|));
  }

  lemma RecoveryStays(hist: seq<Round>, r: Round, q: Queued, resolveMs: nat)
    requires RecoveryOk(hist, q, resolveMs)
    ensures RecoveryOk(hist + [r], q, resolveMs)
  {
    hide FirstFor, LastFor, LatestDetail;
    var h := hist + [r];
    assert forall i :: 0 <= i < |hist| ==> h[i] == hist[i];
    FiredStays(hist, r, q.key, q.condition);
  }

  // The touched conditions, key by key, relative to the new history.
  lemma TouchedOk(w: World, r: Round, k: string)
    requires Inv(w)
    ensures var t := TouchAll(w.engine.conditions, r.findings, r.now, |w.hist|);
            k in t ==> if Present(r, k) then CondOk(w.hist + [r], k, t[k]) else CondOk(w.hist, k, t[k])
  {
    hide TouchAll, CondOk;
    var t := TouchAll(w.engine.conditions, r.findings, r.now, |w.hist|);
    TouchAllAt(w.engine.conditions, r.findings, r.now, |w.hist|, k);
    SameFindings(r, k);
    if Present(r, k) {
      SeenOk(w.hist, r, k, if k in w.engine.conditions then Some(w.engine.conditions[k]) else None, t[k]);
    }
  }

  lemma SameFindings(r: Round, k: string)
    ensures Present(Round(r.now, r.findings, {}), k) == Present(r, k)
    ensures forall since: nat :: LongEnough(Round(r.now, r.findings, {}), k, since) == LongEnough(r, k, since)
  {
  }

  lemma ObserveKeepsConditions(w: World, t: Turn)
    requires Inv(w) && Enabled(w, t)
    ensures var w1 := AfterObserve(w, t);
            forall k :: k in w1.engine.conditions ==> CondOk(w1.hist, k, w1.engine.conditions[k])
  {
    hide TouchAll, CondOk, Inv, Recoveries, Visits;
    var w1 := AfterObserve(w, t);
    forall k | k in w1.engine.conditions ensures CondOk(w1.hist, k, w1.engine.conditions[k]) {
      TouchedOk(w, t.round, k);
      var c := TouchAll(w.engine.conditions, t.round.findings, t.round.now, |w.hist|)[k];
      if !Present(t.round, k) {
        UnseenOk(w.hist, t.round, k, c, w.engine.resolveMs);
      }
    }
  }

  lemma ObserveKeepsQueue(w: World, t: Turn)
    requires Inv(w) && Enabled(w, t)
    ensures var w1 := AfterObserve(w, t);
            forall i :: 0 <= i < |w1.queued| ==> RecoveryOk(w1.hist, w1.queued[i], w1.engine.resolveMs)
  {
    hide TouchAll, CondOk, Recoveries, RecoveryOk, SerialsOk;
    var w1 := AfterObserve(w, t);
    forall i | 0 <= i < |w1.queued| ensures RecoveryOk(w1.hist, w1.queued[i], w1.engine.resolveMs) {
      if i < |w.queued| {
        RecoveryStays(w.hist, t.round, w.queued[i], w.engine.resolveMs);
      } else {
        var k := t.order[i - |w.queued|];
        var c := TouchAll(w.engine.conditions, t.round.findings, t.round.now, |w.hist|)[k];
        TouchedOk(w, t.round, k);
        LeavingOk(w.hist, t.round, k, c, w.engine.resolveMs);
      }
    }
  }

  lemma KeepSerials(acked: seq<nat>, rs: seq<Resolved>, n: nat)
    requires Rising(acked + Serials(rs))
    ensures Rising(acked + Serials(LastOf(rs, n)))
    ensures forall x :: x in acked + Serials(LastOf(rs, n)) ==> x in acked + Serials(rs)
  {
    var kept := LastOf(rs, n);
    var all, some := acked + Serials(rs), acked + Serials(kept);
    var d := |rs| - |kept|;
    assert forall i :: |acked| <= i < |some| ==> some[i] == all[i + d];
    assert forall i :: 0 <= i < |acked| ==> some[i] == all[i];
  }

  lemma ObserveKeepsSerials(w: World, t: Turn)
    requires Inv(w) && Enabled(w, t)
    ensures SerialsOk(AfterObserve(w, t))
  {
    hide TouchAll, CondOk, RecoveryOk, Inv, Rising, LastOf, Settled;
    InvSerials(w);
    var w1 := AfterObserve(w, t);
    var touched := TouchAll(w.engine.conditions, t.round.findings, t.round.now, |w.hist|);
    var more := Recoveries(touched, t.round, |w.hist|, t.order, |w.queued|);
    var rs := w.engine.resolved + more;
    SerialsGrow(w.acked, w.engine.resolved, more, |w.queued|);
    KeepSerials(w.acked, rs, MAX_PENDING_RESOLVED);
    var kept := w.acked + Serials(w1.engine.resolved);
    forall i | 0 <= i < |kept| ensures kept[i] < |w1.queued| {
      assert kept[i] in w.acked + Serials(rs);
    }
  }

  lemma SerialsGrow(acked: seq<nat>, rs: seq<Resolved>, more: seq<Resolved>, n: nat)
    requires Rising(acked + Serials(rs)) && forall x :: x in acked + Serials(rs) ==> x < n
    requires forall i :: 0 <= i < |more| ==> more[i].serial == n + i
    ensures Rising(acked + Serials(rs + more))
    ensures forall x :: x in acked + Serials(rs + more) ==> x < n + |more|
  {
    var before, all := acked + Serials(rs), acked + Serials(rs + more);
    forall i | 0 <= i < |all| ensures all[i] == if i < |before| then before[i] else n + i - |before| {
      if i < |before| {
        assert before[i] == all[i];
      } else {
        assert all[i] == more[i - |before|].serial;
      }
    }
    assert forall i :: 0 <= i < |before| ==> before[i] in before;
  }

  lemma ObserveKeepsNews(w: World, t: Turn)
    requires Inv(w) && Enabled(w, t)
    ensures QueueOk(AfterObserve(w, t))
  {
    hide TouchAll, CondOk, SerialsOk, LastOf, Settled, RecoveryOk, Recovery, Marked, Leaves;
    var w1 := AfterObserve(w, t);
    var touched := TouchAll(w.engine.conditions, t.round.findings, t.round.now, |w.hist|);
    var more := Recoveries(touched, t.round, |w.hist|, t.order, |w.queued|);
    var all := w.engine.resolved + more;
    var from := |w.queued| - |w.engine.resolved|;
    assert forall i :: 0 <= i < |w.hist| ==> w1.hist[i] == w.hist[i];
    forall i | 0 <= i < |all|
      ensures all[i].serial == from + i && Tells(w1.hist, all[i], w1.queued[from + i])
    {
      if i < |w.engine.resolved| {
        assert w.engine.resolved[i] == all[i] && w1.queued[from + i] == w.queued[from + i];
      } else {
        var j := i - |w.engine.resolved|;
        var k := t.order[j];
        TouchedOk(w, t.round, k);
        LeavingIsUnseen(t.round, k, touched[k], w.engine.resolveMs);
        LeavingTells(w.hist, t.round, k, touched[k], w.engine.resolveMs, |w.queued| + j);
      }
    }
    NewestOnes(all, w1.engine.resolved);
  }

  lemma NewestOnes(all: seq<Resolved>, kept: seq<Resolved>)
    requires kept == LastOf(all, MAX_PENDING_RESOLVED)
    ensures |kept| <= 200 && |kept| <= |all| && forall i :: 0 <= i < |kept| ==> kept[i] == all[|all| - |kept| + i]
  {
  }

  lemma LeavingIsUnseen(r: Round, k: string, c: Condition, resolveMs: nat)
    requires Leaves(r, k, c, resolveMs)
    ensures !Present(r, k)
  {
  }

  lemma LeavingTells(hist: seq<Round>, r: Round, k: string, c: Condition, resolveMs: nat, serial: nat)
    requires CondOk(hist, k, c) && Leaves(r, k, c, resolveMs) && Announced(c)
    ensures var m := Marked(r, k, c, |hist|);
      Recovery(m, r.now, serial).serial == serial && Tells(hist + [r], Recovery(m, r.now, serial), Queued(k, m, |hist|))
  {
    hide FirstFor, LastFor, LatestDetail;
    var h := hist + [r];
    assert forall i :: 0 <= i < |hist| ==> h[i] == hist[i];
  }

  lemma InvSerials(w: World)
    requires Inv(w)
    ensures SerialsOk(w)
  {
  }

  lemma ObserveKeepsInv(w: World, t: Turn)
    requires Inv(w) && Enabled(w, t)
    ensures Inv(AfterObserve(w, t))
  {
    ObserveKeepsConditions(w, t);
    ObserveKeepsQueue(w, t);
    ObserveKeepsSerials(w, t);
    ObserveKeepsNews(w, t);
  }

  lemma SentCondOk(hist: seq<Round>, k: string, c: Condition, notified: Option<nat>)
    requires CondOk(hist, k, c)
    ensures CondOk(hist, k, c.(notified := notified))
  {
    hide FirstFor, LastFor, LatestDetail, Held, Absent, LongEnough, Present;
  }

  lemma SentSerials(w: World, n: Notification, now: nat)
    requires SerialsOk(w) && n.resolved == |w.engine.resolved|
    ensures var w' := w.(engine := MarkSent(w.engine, n, now), acked := w.acked + Serials(w.engine.resolved[..n.resolved]));
      SerialsOk(w') && QueueOk(w')
  {
    hide Rising;
    assert w.engine.resolved[..n.resolved] == w.engine.resolved && w.engine.resolved[n.resolved..] == [];
    assert w.acked + Serials(w.engine.resolved) + Serials([]) == w.acked + Serials(w.engine.resolved);
  }

  lemma SentKeepsInv(w: World, n: Notification, now: nat)
    requires Inv(w) && PendingMessage(w.engine, now) == Some(n)
    ensures Inv(w.(engine := MarkSent(w.engine, n, now), acked := w.acked + Serials(w.engine.resolved[..n.resolved])))
  {
    hide RecoveryOk, CondOk, SerialsOk, QueueOk;
    SentSerials(w, n, now);
    var e := MarkSent(w.engine, n, now);
    forall k | k in e.conditions ensures CondOk(w.hist, k, e.conditions[k]) {
      SentCondOk(w.hist, k, w.engine.conditions[k], e.conditions[k].notified);
      SameCondition(w.engine.conditions[k]);
    }
  }

  lemma SameCondition(c: Condition)
    ensures c.(notified := c.notified) == c
  {
  }

  // Over every run: firing conditions held for their hold time, queued
  // recoveries were announced and stayed away for the resolve time, and no
  // recovery is in two acknowledged messages.
  lemma {:induction false} EveryRunKeepsInv(w: World, turns: seq<Turn>, w': World)
    requires Inv(w) && Run(w, turns, w')
    ensures Inv(w')
    ensures forall i, j :: 0 <= i < j < |w'.acked| ==> w'.acked[i] != w'.acked[j]
    ensures forall i, j :: 0 <= i < |w'.acked| && 0 <= j < |w'.engine.resolved| ==>
              w'.acked[i] != w'.engine.resolved[j].serial
    decreases |turns|
  {
    hide CondOk, RecoveryOk, AfterObserve, PendingMessage, MarkSent;
    if turns == [] {
      var all := w'.acked + Serials(w'.engine.resolved);
      assert forall i :: 0 <= i < |w'.acked| ==> all[i] == w'.acked[i];
      assert forall j :: 0 <= j < |w'.engine.resolved| ==> all[|w'.acked| + j] == w'.engine.resolved[j].serial;
    } else {
      hide Inv;
      var w1 := AfterObserve(w, turns[0]);
      ObserveKeepsInv(w, turns[0]);
      var message := PendingMessage(w1.engine, turns[0].round.now);
      if message.Some? {
        SentKeepsInv(w1, message.value, turns[0].round.now);
      }
      EveryRunKeepsInv(Next(w, turns[0]), turns[1..], w');
    }
  }

  // A round that neither evaluates a condition's rule nor finds it leaves the
  // condition exactly as it was, and creates none.
  lemma SkippedRoundChangesNothing(w: World, t: Turn, k: string)
    requires Enabled(w, t) && !Present(t.round, k)
    requires k in w.engine.conditions ==> w.engine.conditions[k].rule !in t.round.evaluated
    ensures var e := AfterObserve(w, t).engine;
            && (k in e.conditions <==> k in w.engine.conditions)
            && (k in e.conditions ==> e.conditions[k] == w.engine.conditions[k])
  {
    hide Recoveries, Visits;
    TouchAllAt(w.engine.conditions, t.round.findings, t.round.now, |w.hist|, k);
    SameFindings(t.round, k);
  }

  // Rule names carry no colon, so a key names one rule and one subject.
  lemma {:induction false} KeyIsInjective(a: Finding, b: Finding)
    requires ':' !in a.rule && ':' !in b.rule && KeyOf(a) == KeyOf(b)
    ensures a.rule == b.rule && a.subject == b.subject
  {
    var s, t := KeyOf(a), KeyOf(b);
    FindStops(a.rule, a.subject, ':');
    FindStops(b.rule, b.subject, ':');
    assert s == a.rule + [':'] + a.subject && t == b.rule + [':'] + b.subject;
    assert a.rule == s[..|a.rule|] == t[..|b.rule|] == b.rule;
    assert a.subject == s[|a.rule| + 1..] == t[|b.rule| + 1..] == b.subject;
  }

  // A round's whole verdict on one condition. Found: it is kept and fires
  // exactly when it has been pending long enough. Missed by a round that ran the
  // rule whose finding made it: it is kept exactly when it had fired and has not
  // been missing for the resolve time, and if it goes after having been announced,
  // its recovery is queued. Missed by any other round: it stays as it was.
  lemma RoundDecides(w: World, t: Turn, k: string)
    requires Inv(w) && Enabled(w, t)
    ensures var before, after := w.engine.conditions, AfterObserve(w, t).engine.conditions;
      var since := if k in before then before[k].pendingSince else t.round.now;
      var fired := k in before && before[k].firing;
      && (Present(t.round, k) ==> k in after && (after[k].firing <==> fired || LongEnough(t.round, k, since)))
      && (k in before && !Present(t.round, k) ==>
            && before[k].born < |w.hist| && FirstFor(w.hist[before[k].born].findings, k).Some?
            && if FirstFor(w.hist[before[k].born].findings, k).value.rule in t.round.evaluated then
                 && (k in after <==>
                       fired && SatSub(t.round.now, before[k].absentSince.GetOr(t.round.now)) < w.engine.resolveMs)
                 && (k !in after && Announced(before[k]) ==> k in t.order)
               else k in after && after[k] == before[k])
  {
    assert k in w.engine.conditions ==> CondOk(w.hist, k, w.engine.conditions[k]);
    hide FirstFor, LastFor, LatestDetail;
    var touched := TouchAll(w.engine.conditions, t.round.findings, t.round.now, |w.hist|);
    TouchAllAt(w.engine.conditions, t.round.findings, t.round.now, |w.hist|, k);
    SameFindings(t.round, k);
  }

  // What is due: a firing condition never announced, or announced at least the
  // repeat time ago.
  lemma DueIff(e: Engine, now: nat, k: string)
    ensures k in DueKeys(e, now) <==>
      && k in e.conditions && e.conditions[k].firing
      && (e.conditions[k].notified.None? || e.repeatMs == 0 || e.conditions[k].notified.value + e.repeatMs <= now)
  {
  }

  // After an acknowledged message nothing is due, and a condition it announced
  // is not due again before the repeat time.
  lemma SentIsSettled(e: Engine, now: nat, later: nat)
    requires PendingMessage(e, now).Some? && e.repeatMs > 0
    ensures var e' := MarkSent(e, PendingMessage(e, now).value, now);
      && PendingMessage(e', now) == None
      && (forall k :: k in DueKeys(e, now) && SatSub(later, now) < e.repeatMs ==> k !in DueKeys(e', later))
  {
    var e' := MarkSent(e, PendingMessage(e, now).value, now);
    assert DueKeys(e', now) == {};
  }
}
