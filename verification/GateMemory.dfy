/** What the mempool gate remembers, told by what has happened: every part of its
    state, request by request, sender by sender and transaction by transaction, is
    determined by the calls, confirmations and sweeps so far (src/mempool/gate.rs). */
module GateMemory {
  import opened Basics
  import opened Gate

  datatype Happened =
    | Pended(call: Call, sender: Bytes, tip: nat, tx: string, at: nat, verdict: Verdict)
    | Settled(kind: Kind, key: Key, price: Bytes, tx: string, at: nat)
    | Swept(at: nat)

  // A call of an outdated round touches no request.
  predicate About(h: Happened, k: Key) {
    (h.Pended? && h.call.key == k && h.verdict != Dropped(StaleRound)) || (h.Settled? && h.key == k)
  }

  // When the request was last touched; nothing once a sweep found it too old.
  function LastTouch(ttl: nat, hist: seq<Happened>, k: Key): Option<nat> {
    if hist == [] then None
    else
      var h, before := hist[|hist| - 1], LastTouch(ttl, hist[..|hist| - 1], k);
      if About(h, k) then Some(h.at)
      else if h.Swept? && before.Some? && (ttl == 0 || before.value + ttl <= h.at) then None
      else before
  }

  // The first price confirmed since the request was last forgotten.
  function FirstPrice(ttl: nat, hist: seq<Happened>, k: Key): Option<Bytes> {
    if hist == [] || LastTouch(ttl, hist, k).None? then None
    else
      var h, before := hist[|hist| - 1], FirstPrice(ttl, hist[..|hist| - 1], k);
      if before.None? && h.Settled? && h.kind.Propose? && h.key == k then Some(h.price) else before
  }

  predicate Disputed(ttl: nat, hist: seq<Happened>, k: Key) {
    hist != [] && LastTouch(ttl, hist, k).Some? &&
    var h := hist[|hist| - 1];
    (h.Settled? && h.kind.Dispute? && h.key == k) || Disputed(ttl, hist[..|hist| - 1], k)
  }

  // The price emitted since then.
  function EmittedPrice(ttl: nat, hist: seq<Happened>, k: Key): Option<Bytes> {
    if hist == [] || LastTouch(ttl, hist, k).None? then None
    else
      var h := hist[|hist| - 1];
      if h.Pended? && h.verdict.Emit? && h.call.kind.Propose? && h.call.key == k then Some(h.call.price)
      else EmittedPrice(ttl, hist[..|hist| - 1], k)
  }

  predicate EmittedDispute(ttl: nat, hist: seq<Happened>, k: Key) {
    hist != [] && LastTouch(ttl, hist, k).Some? &&
    var h := hist[|hist| - 1];
    (h.Pended? && h.verdict.Emit? && h.call.kind.Dispute? && h.call.key == k) || EmittedDispute(ttl, hist[..|hist| - 1], k)
  }

  // The quotes waiting for a confirmation: who quoted what, the first 32.
  function Quoted(ttl: nat, hist: seq<Happened>, k: Key): seq<Pending> {
    if hist == [] || LastTouch(ttl, hist, k).None? then []
    else
      var h, init := hist[|hist| - 1], hist[..|hist| - 1];
      var before := Quoted(ttl, init, k);
      if h.Pended? && h.call.kind.Propose? && About(h, k) && |before| < 32 then before + [Pending(h.sender, h.call.price)]
      else if h.Settled? && h.kind.Propose? && h.key == k && FirstPrice(ttl, init, k).None? then []
      else before
  }

  // How often a sender's quotes agreed and disagreed with the price confirmed
  // first, on top of the record it was loaded with.
  function Standing(base: map<Bytes, SenderStat>, ttl: nat, hist: seq<Happened>, s: Bytes): SenderStat {
    if hist == [] then StatOf(base, s)
    else
      var h, init := hist[|hist| - 1], hist[..|hist| - 1];
      var before := Standing(base, ttl, init, s);
      if h.Settled? && h.kind.Propose? && FirstPrice(ttl, init, h.key).None? then
        var quoted := Quoted(ttl, init, h.key);
        SenderStat(before.agree + Quotes(quoted, s, h.price, true), before.disagree + Quotes(quoted, s, h.price, false))
      else before
  }

  // The latest round of a market that a call or a confirmation has named.
  function LatestRound(hist: seq<Happened>, m: Market): Option<nat> {
    if hist == [] then None
    else
      var h, before := hist[|hist| - 1], LatestRound(hist[..|hist| - 1], m);
      if h.Swept? then before
      else
        var k := if h.Pended? then h.call.key else h.key;
        if k.market != m then before
        else if before.None? || before.value < k.timestamp then Some(k.timestamp)
        else before
  }

  // The tip a transaction was last seen pending with, while that is recent.
  function SeenTip(window: nat, hist: seq<Happened>, tx: string): Option<Tip> {
    if hist == [] then None
    else
      var h, before := hist[|hist| - 1], SeenTip(window, hist[..|hist| - 1], tx);
      if h.Pended? && h.tx == tx then Some(Tip(h.at, h.tip))
      else if h.Swept? && before.Some? && (window == 0 || before.value.at + window <= h.at) then None
      else before
  }

  // The tips of all confirmed proposals that had been seen pending.
  function AllTips(window: nat, hist: seq<Happened>): seq<Tip> {
    if hist == [] then []
    else
      var h, init := hist[|hist| - 1], hist[..|hist| - 1];
      AllTips(window, init)
      + if h.Settled? && h.kind.Propose? && SeenTip(window, init, h.tx).Some?
        then [Tip(h.at, SeenTip(window, init, h.tx).value.gwei)] else []
  }

  // A call came when the tip was older than the window.
  ghost predicate WasStale(window: nat, hist: seq<Happened>, t: Tip) {
    exists i :: 0 <= i < |hist| && hist[i].Pended? && t.at + window < hist[i].at
  }

  ghost predicate DroppedStale(window: nat, hist: seq<Happened>, d: nat) {
    d <= |AllTips(window, hist)| && forall i :: 0 <= i < d ==> WasStale(window, hist, AllTips(window, hist)[i])
  }

  ghost predicate KeptTips(window: nat, hist: seq<Happened>, tips: seq<Tip>, d: nat) {
    DroppedStale(window, hist, d) && tips == AllTips(window, hist)[d..]
  }

  // ----- what the state says -----

  ghost predicate RequestOk(g: State, hist: seq<Happened>, k: Key) {
    var ttl, st := g.cfg.stateTtlUs, ReqOf(g, k);
    && (k in g.reqs <==> LastTouch(ttl, hist, k).Some?)
    && (k in g.reqs ==> Some(st.touchedUs) == LastTouch(ttl, hist, k))
    && st.proposed == FirstPrice(ttl, hist, k) && st.disputed == Disputed(ttl, hist, k)
    && st.emittedPrice == EmittedPrice(ttl, hist, k) && st.emittedDispute == EmittedDispute(ttl, hist, k)
    && st.pendings == Quoted(ttl, hist, k)
  }

  ghost predicate RoundOk(g: State, hist: seq<Happened>, m: Market) {
    LatestRound(hist, m) == if m in g.latestRound then Some(g.latestRound[m]) else None
  }

  ghost predicate TxOk(g: State, hist: seq<Happened>, tx: string) {
    SeenTip(g.cfg.tipWindowUs, hist, tx) == if tx in g.txTip then Some(g.txTip[tx]) else None
  }

  ghost predicate TipsOk(g: State, hist: seq<Happened>) {
    exists d: nat :: KeptTips(g.cfg.tipWindowUs, hist, g.tips, d)
  }

  ghost predicate Remembers(g: State, base: map<Bytes, SenderStat>, hist: seq<Happened>) {
    && ConfigOk(g.cfg)
    && (forall k :: RequestOk(g, hist, k))
    && (forall s :: StatOf(g.senders, s) == Standing(base, g.cfg.stateTtlUs, hist, s))
    && (forall m :: RoundOk(g, hist, m))
    && (forall tx :: TxOk(g, hist, tx))
    && TipsOk(g, hist)
  }

  // ----- runs -----

  function HappenedOf(g: State, step: Step): Happened
    requires ConfigOk(g.cfg)
  {
    match step
    case Pend(call, sender, tip, tx, now) => Pended(call, sender, tip, tx, now, Check(g, call, sender, tip, tx, now).1)
    case OnChain(kind, key, price, tx, now) => Settled(kind, key, price, tx, now)
    case Sweep(now) => Swept(now)
  }

  function After(g: State, step: Step): State
    requires ConfigOk(g.cfg)
  {
    match step
    case Pend(call, sender, tip, tx, now) => Check(g, call, sender, tip, tx, now).0
    case OnChain(kind, key, price, tx, now) => Confirm(g, kind, key, price, tx, now)
    case Sweep(now) => Prune(g, now)
  }

  ghost predicate Runs(g: State, hist: seq<Happened>, steps: seq<Step>, g': State, hist': seq<Happened>)
    decreases |steps|
  {
    if steps == [] then g' == g && hist' == hist
    else ConfigOk(g.cfg) && Runs(After(g, steps[0]), hist + [HappenedOf(g, steps[0])], steps[1..], g', hist')
  }

  // ----- requests -----

  lemma LastIs(hist: seq<Happened>, h: Happened)
    ensures (hist + [h])[..|hist|] == hist && (hist + [h])[|hist|] == h
  {
  }

  // Something that does not concern the request.
  lemma OtherKeeps(ttl: nat, hist: seq<Happened>, h: Happened, k: Key)
    requires !About(h, k) && !h.Swept?
    ensures var all := hist + [h];
      && LastTouch(ttl, all, k) == LastTouch(ttl, hist, k)
      && FirstPrice(ttl, all, k) == FirstPrice(ttl, hist, k) && Disputed(ttl, all, k) == Disputed(ttl, hist, k)
      && EmittedPrice(ttl, all, k) == EmittedPrice(ttl, hist, k) && EmittedDispute(ttl, all, k) == EmittedDispute(ttl, hist, k)
      && Quoted(ttl, all, k) == Quoted(ttl, hist, k)
  {
    LastIs(hist, h);
    NothingKept(ttl, hist, k);
  }

  lemma NothingKept(ttl: nat, hist: seq<Happened>, k: Key)
    ensures LastTouch(ttl, hist, k).None? ==>
      && FirstPrice(ttl, hist, k) == None && !Disputed(ttl, hist, k)
      && EmittedPrice(ttl, hist, k) == None && !EmittedDispute(ttl, hist, k) && Quoted(ttl, hist, k) == []
  {
  }

  lemma PendOk(ttl: nat, hist: seq<Happened>, h: Happened, k: Key, before: Req, after: Req)
    requires h.Pended? && About(h, k)
    requires before.proposed == FirstPrice(ttl, hist, k) && before.disputed == Disputed(ttl, hist, k)
    requires before.emittedPrice == EmittedPrice(ttl, hist, k) && before.emittedDispute == EmittedDispute(ttl, hist, k)
    requires before.pendings == Quoted(ttl, hist, k)
    requires after == before.(touchedUs := h.at,
      pendings := if h.call.kind.Propose? && |before.pendings| < 32 then before.pendings + [Pending(h.sender, h.call.price)] else before.pendings,
      emittedPrice := if h.call.kind.Propose? && h.verdict.Emit? then Some(h.call.price) else before.emittedPrice,
      emittedDispute := before.emittedDispute || (h.call.kind.Dispute? && h.verdict.Emit?))
    ensures var all := hist + [h];
      && LastTouch(ttl, all, k) == Some(after.touchedUs)
      && after.proposed == FirstPrice(ttl, all, k) && after.disputed == Disputed(ttl, all, k)
      && after.emittedPrice == EmittedPrice(ttl, all, k) && after.emittedDispute == EmittedDispute(ttl, all, k)
      && after.pendings == Quoted(ttl, all, k)
  {
    LastIs(hist, h);
  }

  // What a check leaves of the request, spelled out.
  lemma JudgeLeaves(st: Req, call: Call, sender: Bytes, trusted: bool, floor: Option<nat>, tip: nat)
    ensures var (after, v) := Judge(st, call, sender, trusted, floor, tip);
      after == st.(
        pendings := if call.kind.Propose? && |st.pendings| < 32 then st.pendings + [Pending(sender, call.price)] else st.pendings,
        emittedPrice := if call.kind.Propose? && v.Emit? then Some(call.price) else st.emittedPrice,
        emittedDispute := st.emittedDispute || (call.kind.Dispute? && v.Emit?))
      && v != Dropped(StaleRound)
  {
  }

  ghost predicate Outdated(g: State, k: Key) {
    k.market in g.latestRound && k.timestamp < g.latestRound[k.market]
  }

  lemma CheckRequests(g: State, call: Call, sender: Bytes, tip: nat, tx: string, now: nat)
    requires ConfigOk(g.cfg)
    ensures var (g', v) := Check(g, call, sender, tip, tx, now);
      var st := ReqOf(g, call.key);
      && g'.cfg == g.cfg && g'.senders == g.senders && g'.txTip == g.txTip[tx := Tip(now, tip)]
      && (v == Dropped(StaleRound) <==> Outdated(g, call.key))
      && (Outdated(g, call.key) ==> g'.reqs == g.reqs && g'.latestRound == g.latestRound && g'.tips == g.tips)
      && (!Outdated(g, call.key) ==>
            && g'.latestRound == g.latestRound[call.key.market := call.key.timestamp]
            && g'.tips == FreshTips(g.tips, now, g.cfg.tipWindowUs)
            && call.key in g'.reqs && g'.reqs == g.reqs[call.key := g'.reqs[call.key]]
            && g'.reqs[call.key] == st.(touchedUs := now,
                 pendings := if call.kind.Propose? && |st.pendings| < 32 then st.pendings + [Pending(sender, call.price)] else st.pendings,
                 emittedPrice := if call.kind.Propose? && v.Emit? then Some(call.price) else st.emittedPrice,
                 emittedDispute := st.emittedDispute || (call.kind.Dispute? && v.Emit?)))
  {
    var st, floor := ReqOf(g, call.key).(touchedUs := now), TipFloor(g.cfg, FreshTips(g.tips, now, g.cfg.tipWindowUs));
    JudgeLeaves(st, call, sender, Trusted(g.cfg, StatOf(g.senders, sender)), floor, tip);
    hide Trusted, TipFloor, FreshTips, Judge;
  }

  lemma PendRemembersRequest(g: State, hist: seq<Happened>, step: Step, k: Key)
    requires ConfigOk(g.cfg) && step.Pend? && RequestOk(g, hist, k)
    ensures RequestOk(After(g, step), hist + [HappenedOf(g, step)], k)
  {
    CheckRequests(g, step.call, step.sender, step.tip, step.tx, step.now);
    hide Check, LastTouch, FirstPrice, Disputed, EmittedPrice, EmittedDispute, Quoted;
    var h, ttl := HappenedOf(g, step), g.cfg.stateTtlUs;
    if About(h, k) {
      PendOk(ttl, hist, h, k, ReqOf(g, k), After(g, step).reqs[k]);
    } else {
      OtherKeeps(ttl, hist, h, k);
    }
  }

  lemma SettleOk(ttl: nat, hist: seq<Happened>, h: Happened, k: Key, before: Req, after: Req)
    requires h.Settled? && h.key == k
    requires before.proposed == FirstPrice(ttl, hist, k) && before.disputed == Disputed(ttl, hist, k)
    requires before.emittedPrice == EmittedPrice(ttl, hist, k) && before.emittedDispute == EmittedDispute(ttl, hist, k)
    requires before.pendings == Quoted(ttl, hist, k)
    requires var first := h.kind.Propose? && before.proposed.None?;
      after == before.(touchedUs := h.at, proposed := if first then Some(h.price) else before.proposed,
                       pendings := if first then [] else before.pendings, disputed := before.disputed || h.kind.Dispute?)
    ensures var all := hist + [h];
      && LastTouch(ttl, all, k) == Some(after.touchedUs)
      && after.proposed == FirstPrice(ttl, all, k) && after.disputed == Disputed(ttl, all, k)
      && after.emittedPrice == EmittedPrice(ttl, all, k) && after.emittedDispute == EmittedDispute(ttl, all, k)
      && after.pendings == Quoted(ttl, all, k)
  {
    LastIs(hist, h);
  }

  lemma ConfirmRequests(g: State, kind: Kind, k: Key, price: Bytes, tx: string, now: nat)
    ensures var g', st := Confirm(g, kind, k, price, tx, now), ReqOf(g, k);
      var first := kind.Propose? && st.proposed.None?;
      && g'.cfg == g.cfg
      && g'.reqs == g.reqs[k := st.(touchedUs := now, proposed := if first then Some(price) else st.proposed,
                                    pendings := if first then [] else st.pendings, disputed := st.disputed || kind.Dispute?)]
  {
    hide Scored;
  }

  lemma SettleRemembersRequest(g: State, hist: seq<Happened>, step: Step, k: Key)
    requires ConfigOk(g.cfg) && step.OnChain? && RequestOk(g, hist, k)
    ensures RequestOk(After(g, step), hist + [HappenedOf(g, step)], k)
  {
    ConfirmRequests(g, step.kind, step.key, step.price, step.tx, step.now);
    hide Confirm, LastTouch, FirstPrice, Disputed, EmittedPrice, EmittedDispute, Quoted;
    var h, ttl := HappenedOf(g, step), g.cfg.stateTtlUs;
    if About(h, k) {
      SettleOk(ttl, hist, h, k, ReqOf(g, k), After(g, step).reqs[k]);
    } else {
      OtherKeeps(ttl, hist, h, k);
    }
  }

  // A sweep keeps everything of a request or nothing.
  lemma SweptOk(ttl: nat, hist: seq<Happened>, h: Happened, k: Key)
    requires h.Swept?
    ensures var all, touched := hist + [h], LastTouch(ttl, hist, k);
      if touched.Some? && (ttl == 0 || touched.value + ttl <= h.at) then
        LastTouch(ttl, all, k) == None
      else
        && LastTouch(ttl, all, k) == touched
        && FirstPrice(ttl, all, k) == FirstPrice(ttl, hist, k) && Disputed(ttl, all, k) == Disputed(ttl, hist, k)
        && EmittedPrice(ttl, all, k) == EmittedPrice(ttl, hist, k)
        && EmittedDispute(ttl, all, k) == EmittedDispute(ttl, hist, k)
        && Quoted(ttl, all, k) == Quoted(ttl, hist, k)
  {
    LastIs(hist, h);
    NothingKept(ttl, hist, k);
  }

  lemma SweepRemembersRequest(g: State, hist: seq<Happened>, step: Step, k: Key)
    requires ConfigOk(g.cfg) && step.Sweep? && RequestOk(g, hist, k)
    ensures RequestOk(After(g, step), hist + [HappenedOf(g, step)], k)
  {
    var h, ttl := HappenedOf(g, step), g.cfg.stateTtlUs;
    SweptOk(ttl, hist, h, k);
    NothingKept(ttl, hist + [h], k);
    hide LastTouch, FirstPrice, Disputed, EmittedPrice, EmittedDispute, Quoted;
  }

  lemma RequestsRemembered(g: State, hist: seq<Happened>, step: Step, k: Key)
    requires ConfigOk(g.cfg) && RequestOk(g, hist, k)
    ensures RequestOk(After(g, step), hist + [HappenedOf(g, step)], k)
  {
    hide RequestOk, After, HappenedOf;
    match step
    case Pend(_, _, _, _, _) => PendRemembersRequest(g, hist, step, k);
    case OnChain(_, _, _, _, _) => SettleRemembersRequest(g, hist, step, k);
    case Sweep(_) => SweepRemembersRequest(g, hist, step, k);
  }

  // ----- rounds, senders and tips -----

  lemma RoundsRemembered(g: State, hist: seq<Happened>, step: Step, m: Market)
    requires ConfigOk(g.cfg) && RoundOk(g, hist, m)
    ensures RoundOk(After(g, step), hist + [HappenedOf(g, step)], m)
  {
    if step.Pend? {
      CheckRequests(g, step.call, step.sender, step.tip, step.tx, step.now);
    }
    hide Check, Scored;
    LastIs(hist, HappenedOf(g, step));
  }

  lemma SendersRemembered(g: State, base: map<Bytes, SenderStat>, hist: seq<Happened>, step: Step, s: Bytes)
    requires ConfigOk(g.cfg) && StatOf(g.senders, s) == Standing(base, g.cfg.stateTtlUs, hist, s)
    requires step.OnChain? ==> RequestOk(g, hist, step.key)
    ensures StatOf(After(g, step).senders, s) == Standing(base, g.cfg.stateTtlUs, hist + [HappenedOf(g, step)], s)
  {
    LastIs(hist, HappenedOf(g, step));
    match step
    case Pend(call, sender, tip, tx, now) =>
      CheckRequests(g, call, sender, tip, tx, now);
      hide Check;
    case OnChain(kind, key, price, tx, now) =>
      ScoredPerSender(g.senders, ReqOf(g, key).pendings, price, s);
      hide Scored, Quotes, LastTouch, FirstPrice, Disputed, EmittedPrice, EmittedDispute, Quoted;
    case Sweep(now) =>
  }

  lemma TxsRemembered(g: State, hist: seq<Happened>, step: Step, tx: string)
    requires ConfigOk(g.cfg) && TxOk(g, hist, tx)
    ensures TxOk(After(g, step), hist + [HappenedOf(g, step)], tx)
  {
    if step.Pend? {
      CheckRequests(g, step.call, step.sender, step.tip, step.tx, step.now);
    }
    hide Check, Scored;
    LastIs(hist, HappenedOf(g, step));
  }

  lemma StaleStays(window: nat, hist: seq<Happened>, h: Happened, t: Tip)
    requires WasStale(window, hist, t)
    ensures WasStale(window, hist + [h], t)
  {
    var j :| 0 <= j < |hist| && hist[j].Pended? && t.at + window < hist[j].at;
    assert (hist + [h])[j] == hist[j];
  }

  lemma NowStale(window: nat, hist: seq<Happened>, h: Happened, t: Tip)
    requires h.Pended? && t.at + window < h.at
    ensures WasStale(window, hist + [h], t)
  {
    assert (hist + [h])[|hist|] == h;
  }

  lemma TipsGrow(window: nat, hist: seq<Happened>, h: Happened)
    ensures AllTips(window, hist + [h]) == AllTips(window, hist)
      + if h.Settled? && h.kind.Propose? && SeenTip(window, hist, h.tx).Some?
        then [Tip(h.at, SeenTip(window, hist, h.tx).value.gwei)] else []
  {
    LastIs(hist, h);
  }

  lemma TipsAfter(window: nat, hist: seq<Happened>, h: Happened, tips: seq<Tip>, d: nat)
    requires KeptTips(window, hist, tips, d)
    ensures KeptTips(window, hist + [h], tips + AllTips(window, hist + [h])[|AllTips(window, hist)|..], d)
    ensures AllTips(window, hist) <= AllTips(window, hist + [h])
  {
    TipsGrow(window, hist, h);
    hide SeenTip, AllTips, WasStale;
    var before, after := AllTips(window, hist), AllTips(window, hist + [h]);
    forall i | 0 <= i < d ensures WasStale(window, hist + [h], after[i]) {
      StaleStays(window, hist, h, before[i]);
    }
    assert before[d..] + after[|before|..] == after[d..];
  }

  lemma TipsFall(window: nat, hist: seq<Happened>, h: Happened, tips: seq<Tip>, d: nat, k: nat)
    requires KeptTips(window, hist + [h], tips, d) && h.Pended? && k <= |tips|
    requires forall i :: 0 <= i < k ==> tips[i].at + window < h.at
    ensures KeptTips(window, hist + [h], tips[k..], d + k)
  {
    hide AllTips, WasStale;
    var all := AllTips(window, hist + [h]);
    forall i | 0 <= i < d + k ensures WasStale(window, hist + [h], all[i]) {
      if i >= d {
        assert all[i] == tips[i - d];
        NowStale(window, hist, h, all[i]);
      }
    }
    assert tips[k..] == all[d + k..];
  }

  // The tips that leave are the stale ones at the front, up to the first that is
  // not.
  lemma {:induction false} FreshTipsAre(tips: seq<Tip>, now: nat, window: nat) returns (k: nat)
    ensures k <= |tips| && FreshTips(tips, now, window) == tips[k..]
    ensures forall i :: 0 <= i < k ==> tips[i].at + window < now
    ensures k < |tips| ==> now <= tips[k].at + window
  {
    if tips != [] && SatSub(now, tips[0].at) > window {
      k := FreshTipsAre(tips[1..], now, window);
      k := k + 1;
    } else {
      k := 0;
    }
  }

  lemma PendRemembersTips(g: State, hist: seq<Happened>, step: Step)
    requires ConfigOk(g.cfg) && step.Pend? && TipsOk(g, hist)
    ensures TipsOk(After(g, step), hist + [HappenedOf(g, step)])
  {
    var h, window := HappenedOf(g, step), g.cfg.tipWindowUs;
    var d: nat :| KeptTips(window, hist, g.tips, d);
    CheckRequests(g, step.call, step.sender, step.tip, step.tx, step.now);
    hide Check, KeptTips, AllTips, FreshTips, Outdated;
    TipsGrow(window, hist, h);
    TipsAfter(window, hist, h, g.tips, d);
    assert g.tips + [] == g.tips;
    if !Outdated(g, step.call.key) {
      var k := FreshTipsAre(g.tips, step.now, window);
      TipsFall(window, hist, h, g.tips, d, k);
    }
  }

  lemma OtherRemembersTips(g: State, hist: seq<Happened>, step: Step)
    requires ConfigOk(g.cfg) && !step.Pend? && TipsOk(g, hist) && (step.OnChain? ==> TxOk(g, hist, step.tx))
    ensures TipsOk(After(g, step), hist + [HappenedOf(g, step)])
  {
    var h, window := HappenedOf(g, step), g.cfg.tipWindowUs;
    var d: nat :| KeptTips(window, hist, g.tips, d);
    TipsGrow(window, hist, h);
    TipsAfter(window, hist, h, g.tips, d);
    hide Scored, SeenTip, KeptTips, AllTips;
    assert g.tips + [] == g.tips;
  }

  lemma StepRemembers(g: State, base: map<Bytes, SenderStat>, hist: seq<Happened>, step: Step)
    requires Remembers(g, base, hist)
    ensures Remembers(After(g, step), base, hist + [HappenedOf(g, step)])
  {
    hide RequestOk, RoundOk, TxOk, TipsOk, Standing;
    var g', all := After(g, step), hist + [HappenedOf(g, step)];
    forall k ensures RequestOk(g', all, k) {
      RequestsRemembered(g, hist, step, k);
    }
    forall s ensures StatOf(g'.senders, s) == Standing(base, g.cfg.stateTtlUs, all, s) {
      SendersRemembered(g, base, hist, step, s);
    }
    forall m ensures RoundOk(g', all, m) {
      RoundsRemembered(g, hist, step, m);
    }
    forall tx ensures TxOk(g', all, tx) {
      TxsRemembered(g, hist, step, tx);
    }
    if step.Pend? {
      PendRemembersTips(g, hist, step);
    } else {
      OtherRemembersTips(g, hist, step);
    }
    ConfigStays(g, step);
  }

  lemma ConfigStays(g: State, step: Step)
    requires ConfigOk(g.cfg)
    ensures After(g, step).cfg == g.cfg
  {
    if step.Pend? {
      CheckRequests(g, step.call, step.sender, step.tip, step.tx, step.now);
    }
    hide Check, Scored;
  }

  lemma InitRemembers(cfg: Config, base: map<Bytes, SenderStat>)
    requires ConfigOk(cfg)
    ensures Remembers(Init(cfg, base).g, base, [])
  {
    assert KeptTips(cfg.tipWindowUs, [], [], 0);
  }

  // In every run, every part of the gate's memory is what has happened so far
  // says it is.
  lemma {:induction false} EveryRunRemembers(g: State, base: map<Bytes, SenderStat>, hist: seq<Happened>, steps: seq<Step>,
                                             g': State, hist': seq<Happened>)
    requires Remembers(g, base, hist) && Runs(g, hist, steps, g', hist')
    ensures Remembers(g', base, hist')
    decreases |steps|
  {
    hide RequestOk, RoundOk, TxOk, TipsOk, Standing, After, HappenedOf;
    if steps != [] {
      StepRemembers(g, base, hist, steps[0]);
      EveryRunRemembers(After(g, steps[0]), base, hist + [HappenedOf(g, steps[0])], steps[1..], g', hist');
    }
  }

  // ----- the verdict -----

  // The verdict on a call, told by what has happened. What comes first decides:
  // an outdated round, a confirmed dispute, a confirmed proposal, an emission of
  // its own kind, an untrusted proposer, a tip under the floor.
  lemma VerdictIs(g: State, base: map<Bytes, SenderStat>, hist: seq<Happened>, call: Call, sender: Bytes, tip: nat, tx: string, now: nat)
    requires Remembers(g, base, hist)
    ensures var k, ttl := call.key, g.cfg.stateTtlUs;
      var v := Check(g, call, sender, tip, tx, now).1;
      var round, emitted := LatestRound(hist, k.market), EmittedPrice(ttl, hist, k);
      var floor := TipFloor(g.cfg, FreshTips(g.tips, now, g.cfg.tipWindowUs));
      if round.Some? && k.timestamp < round.value then v == Dropped(StaleRound)
      else if Disputed(ttl, hist, k) then v == Dropped(AlreadyDisputed)
      else if call.kind.Propose? && FirstPrice(ttl, hist, k).Some? then v == Dropped(AlreadyProposed)
      else if call.kind.Propose? && emitted.Some? then v == Dropped(if emitted.value == call.price then Duplicate else Conflict)
      else if call.kind.Dispute? && EmittedDispute(ttl, hist, k) then v == Dropped(Duplicate)
      else if call.kind.Propose? && !Trusted(g.cfg, Standing(base, ttl, hist, sender)) then v == Dropped(Untrusted)
      else if floor.Some? && tip < floor.value then v == Dropped(LowTip)
      else v == Emit
  {
    hide LastTouch, FirstPrice, Disputed, EmittedPrice, EmittedDispute, Quoted, Standing, LatestRound, TipFloor, FreshTips,
         Trusted, TipsOk, TxOk;
    assert RequestOk(g, hist, call.key) && RoundOk(g, hist, call.key.market);
  }
}
