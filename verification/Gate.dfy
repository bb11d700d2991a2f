/** The mempool gate (src/mempool/gate.rs): which pending propose and dispute
    calls are pushed on. Real arithmetic stands in for f64 in the trust score
    and the tip quantile. */
module Gate {
  import opened Basics
  import opened MapSum
  import opened Sorting

  datatype Kind = Propose | Dispute

  datatype Market = Market(requester: Bytes, questionId: Bytes)

  datatype Key = Key(market: Market, timestamp: nat)

  datatype Drop = AlreadyProposed | AlreadyDisputed | Duplicate | Conflict | StaleRound | Untrusted | LowTip

  datatype Verdict = Emit | Dropped(why: Drop)

  datatype Pending = Pending(sender: Bytes, price: Bytes)

  datatype Req = Req(emittedPrice: Option<Bytes>, emittedDispute: bool, proposed: Option<Bytes>, disputed: bool,
                     pendings: seq<Pending>, touchedUs: nat)

  datatype SenderStat = SenderStat(agree: nat, disagree: nat)

  datatype Tip = Tip(at: nat, gwei: nat)

  datatype Config = Config(trustMinN: nat, trustMinRate: real, tipQuantile: real, tipWindowUs: nat, tipMinSamples: nat, stateTtlUs: nat)

  datatype State = State(
    cfg: Config, reqs: map<Key, Req>, latestRound: map<Market, nat>, senders: map<Bytes, SenderStat>,
    tips: seq<Tip>, txTip: map<string, Tip>, emitted: nat, dropped: map<Drop, int>)

  datatype Call = Call(kind: Kind, key: Key, price: Bytes)

  const MAX_PENDINGS := 32

  function NoReq(): Req {
    Req(None, false, None, false, [], 0)
  }

  function ReqOf(g: State, k: Key): Req {
    if k in g.reqs then g.reqs[k] else NoReq()
  }

  function StatOf(senders: map<Bytes, SenderStat>, s: Bytes): SenderStat {
    if s in senders then senders[s] else SenderStat(0, 0)
  }

  // Enough samples, and the lower end of the 95% interval of the agreement
  // rate reaches the required rate. `p - 1.645 * sqrt(v) >= rate`, squared.
  predicate Trusted(cfg: Config, s: SenderStat) {
    var n := s.agree + s.disagree;
    n >= cfg.trustMinN &&
    var p := (s.agree as real + 1.0) / (n as real + 2.0);
    var v := p * (1.0 - p) / (n as real + 3.0);
    var slack := p - cfg.trustMinRate;
    slack >= 0.0 && slack * slack >= 1.645 * 1.645 * v
  }

  // Tips older than the window leave from the front.
  function FreshTips(tips: seq<Tip>, now: nat, window: nat): seq<Tip> {
    if tips != [] && SatSub(now, tips[0].at) > window then FreshTips(tips[1..], now, window) else tips
  }

  function Gweis(tips: seq<Tip>): (v: seq<nat>)
    ensures |v| == |tips|
  {
    seq(|tips|, i requires 0 <= i < |tips| => tips[i].gwei)
  }

  function QuantileIndex(n: nat, q: real): (i: nat)
    requires n > 0 && q <= 1.0
    ensures i < n
  {
    var at := (n - 1) as real * q;
    Fraction((n - 1) as real, q);
    RoundedBelow(at, n);
    Max((at + 0.5).Floor, 0)
  }

  lemma Fraction(a: real, q: real)
    requires 0.0 <= a && q <= 1.0
    ensures a * q <= a
  {
    assert a * (1.0 - q) >= 0.0;
  }

  lemma RoundedBelow(x: real, n: nat)
    requires x <= (n - 1) as real
    ensures (x + 0.5).Floor < n
  {
  }

  // A quantile above 1, or no sample demanded and none held, would index out of
  // range.
  predicate ConfigOk(cfg: Config) {
    cfg.tipQuantile <= 1.0 && cfg.tipMinSamples >= 1
  }

  function TipFloor(cfg: Config, tips: seq<Tip>): Option<nat>
    requires ConfigOk(cfg)
  {
    if |tips| < cfg.tipMinSamples then None
    else Some(Sort(Gweis(tips))[QuantileIndex(|tips|, cfg.tipQuantile)])
  }

  // The decision on one call, given the request's state.
  function Judge(st: Req, call: Call, sender: Bytes, trusted: bool, floor: Option<nat>, tip: nat): (Req, Verdict) {
    match call.kind
    case Propose =>
      var st := if |st.pendings| < MAX_PENDINGS then st.(pendings := st.pendings + [Pending(sender, call.price)]) else st;
      if st.disputed then (st, Dropped(AlreadyDisputed))
      else if st.proposed.Some? then (st, Dropped(AlreadyProposed))
      else if st.emittedPrice.Some? then (st, Dropped(if st.emittedPrice.value == call.price then Duplicate else Conflict))
      else if !trusted then (st, Dropped(Untrusted))
      else if floor.Some? && tip < floor.value then (st, Dropped(LowTip))
      else (st.(emittedPrice := Some(call.price)), Emit)
    case Dispute =>
      if st.disputed then (st, Dropped(AlreadyDisputed))
      else if st.emittedDispute then (st, Dropped(Duplicate))
      else if floor.Some? && tip < floor.value then (st, Dropped(LowTip))
      else (st.(emittedDispute := true), Emit)
  }

  function CountDrop(dropped: map<Drop, int>, why: Drop): map<Drop, int> {
    dropped[why := (if why in dropped then dropped[why] else 0) + 1]
  }

  function Tallied(g: State, v: Verdict): State {
    if v.Emit? then g.(emitted := g.emitted + 1) else g.(dropped := CountDrop(g.dropped, v.why))
  }

  function Check(g: State, call: Call, sender: Bytes, tip: nat, tx: string, now: nat): (State, Verdict)
    requires ConfigOk(g.cfg)
  {
    var k := call.key;
    var g0 := g.(txTip := g.txTip[tx := Tip(now, tip)]);
    if k.market in g.latestRound && k.timestamp < g.latestRound[k.market] then
      (Tallied(g0, Dropped(StaleRound)), Dropped(StaleRound))
    else
      var tips := FreshTips(g.tips, now, g.cfg.tipWindowUs);
      var (st, v) := Judge(ReqOf(g, k).(touchedUs := now), call, sender,
                           Trusted(g.cfg, StatOf(g.senders, sender)), TipFloor(g.cfg, tips), tip);
      (Tallied(g0.(latestRound := g.latestRound[k.market := k.timestamp], tips := tips, reqs := g.reqs[k := st]), v), v)
  }

  // Every waiting quote against the confirmed price.
  function Scored(senders: map<Bytes, SenderStat>, pendings: seq<Pending>, price: Bytes): map<Bytes, SenderStat> {
    if pendings == [] then senders
    else
      var p := pendings[|pendings| - 1];
      var before := Scored(senders, pendings[..|pendings| - 1], price);
      var s := StatOf(before, p.sender);
      before[p.sender := if p.price == price then s.(agree := s.agree + 1) else s.(disagree := s.disagree + 1)]
  }

  function Confirm(g: State, kind: Kind, k: Key, price: Bytes, tx: string, now: nat): State {
    var round := if k.market in g.latestRound then g.latestRound[k.market] else k.timestamp;
    var tips := if kind.Propose? && tx in g.txTip then g.tips + [Tip(now, g.txTip[tx].gwei)] else g.tips;
    var st := ReqOf(g, k).(touchedUs := now);
    var g1 := g.(latestRound := g.latestRound[k.market := Max(round, k.timestamp)], tips := tips);
    match kind
    case Propose =>
      if st.proposed.None? then
        g1.(reqs := g.reqs[k := st.(proposed := Some(price), pendings := [])],
            senders := Scored(g.senders, st.pendings, price))
      else g1.(reqs := g.reqs[k := st])
    case Dispute => g1.(reqs := g.reqs[k := st.(disputed := true)])
  }

  function Expired(g: State, now: nat): set<Key> {
    set k | k in g.reqs && SatSub(now, g.reqs[k].touchedUs) >= g.cfg.stateTtlUs
  }

  function Prune(g: State, now: nat): State {
    g.(reqs := g.reqs - Expired(g, now),
       txTip := map tx | tx in g.txTip && SatSub(now, g.txTip[tx].at) < g.cfg.tipWindowUs :: g.txTip[tx])
  }

  // ----- runs and their history -----

  datatype Step =
    | Pend(call: Call, sender: Bytes, tip: nat, tx: string, now: nat)
    | OnChain(kind: Kind, key: Key, price: Bytes, tx: string, now: nat)
    | Sweep(now: nat)

  datatype Entry =
    | Judged(kind: Kind, key: Key, verdict: Verdict)
    | Confirmed(kind: Kind, key: Key, price: Bytes)
    | Forgot(keys: set<Key>)

  // `recorded` counts the quotes put on a request's list, `discarded` those
  // forgotten with their request, `baseline` the scores loaded at the start.
  datatype World = World(g: State, hist: seq<Entry>, recorded: nat, discarded: nat, baseline: int)

  function Lengths(reqs: map<Key, Req>): map<Key, int> {
    map k | k in reqs :: |reqs[k].pendings|
  }

  // Quotes on the lists of all requests.
  ghost function Waiting(reqs: map<Key, Req>): int {
    Sum(Lengths(reqs))
  }

  function Totals(senders: map<Bytes, SenderStat>): map<Bytes, int> {
    map s | s in senders :: senders[s].agree + senders[s].disagree
  }

  ghost function Scores(senders: map<Bytes, SenderStat>): int {
    Sum(Totals(senders))
  }

  ghost function Next(w: World, step: Step): World
    requires ConfigOk(w.g.cfg)
  {
    match step
    case Pend(call, sender, tip, tx, now) =>
      var (g, v) := Check(w.g, call, sender, tip, tx, now);
      var added := |ReqOf(g, call.key).pendings| > |ReqOf(w.g, call.key).pendings|;
      w.(g := g, hist := w.hist + [Judged(call.kind, call.key, v)], recorded := w.recorded + if added then 1 else 0)
    case OnChain(kind, key, price, tx, now) =>
      w.(g := Confirm(w.g, kind, key, price, tx, now), hist := w.hist + [Confirmed(kind, key, price)])
    case Sweep(now) =>
      var lost := Waiting(w.g.reqs) - Waiting(Prune(w.g, now).reqs);
      w.(g := Prune(w.g, now), hist := w.hist + [Forgot(Expired(w.g, now))], discarded := w.discarded + Max(lost, 0))
  }

  ghost predicate Run(w: World, steps: seq<Step>, w': World)
    decreases |steps|
  {
    if steps == [] then w' == w
    else ConfigOk(w.g.cfg) && Run(Next(w, steps[0]), steps[1..], w')
  }

  ghost function Init(cfg: Config, senders: map<Bytes, SenderStat>): World {
    World(State(cfg, map[], map[], senders, [], map[], 0, map[]), [], 0, 0, Scores(senders))
  }

  datatype Mark = EmittedPropose | EmittedDispute | ConfirmedPropose | ConfirmedDispute

  predicate Marks(e: Entry, k: Key, m: Mark) {
    match m
    case EmittedPropose => e == Judged(Propose, k, Emit)
    case EmittedDispute => e == Judged(Dispute, k, Emit)
    case ConfirmedPropose => e.Confirmed? && e.kind.Propose? && e.key == k
    case ConfirmedDispute => e.Confirmed? && e.kind.Dispute? && e.key == k
  }

  // `k` was marked, and not forgotten since.
  predicate Since(hist: seq<Entry>, k: Key, m: Mark) {
    hist != [] &&
    var e := hist[|hist| - 1];
    Marks(e, k, m) || (!(e.Forgot? && k in e.keys) && Since(hist[..|hist| - 1], k, m))
  }

  // The first price confirmed for `k` since it was last forgotten.
  function FirstPrice(hist: seq<Entry>, k: Key): Option<Bytes> {
    if hist == [] then None
    else
      var e, before := hist[|hist| - 1], FirstPrice(hist[..|hist| - 1], k);
      if e.Forgot? && k in e.keys then None
      else if before.None? && Marks(e, k, ConfirmedPropose) then Some(e.price)
      else before
  }

  // The request states say exactly what the history says.
  ghost predicate Mirrors(hist: seq<Entry>, st: Req, k: Key) {
    && (st.emittedPrice.Some? <==> Since(hist, k, EmittedPropose))
    && (st.emittedDispute <==> Since(hist, k, EmittedDispute))
    && (st.proposed.Some? <==> Since(hist, k, ConfirmedPropose))
    && (st.disputed <==> Since(hist, k, ConfirmedDispute))
    && st.proposed == FirstPrice(hist, k)
  }

  // Nothing emitted or confirmed for a market is later than its latest round.
  predicate Counts(e: Entry) {
    e.Confirmed? || (e.Judged? && e.verdict.Emit?)
  }

  ghost predicate RoundsOk(w: World) {
    forall i :: 0 <= i < |w.hist| && Counts(w.hist[i]) ==>
      var k := w.hist[i].key;
      k.market in w.g.latestRound && k.timestamp <= w.g.latestRound[k.market]
  }

  // What an emitted verdict may rely on, given everything before it.
  ghost predicate EmitOk(before: seq<Entry>, e: Entry) {
    e.Judged? && e.verdict.Emit? ==>
      && (e.kind.Propose? ==> !Since(before, e.key, EmittedPropose) && !Since(before, e.key, ConfirmedPropose))
      && (e.kind.Dispute? ==> !Since(before, e.key, EmittedDispute))
      && !Since(before, e.key, ConfirmedDispute)
      && (forall i :: 0 <= i < |before| && Counts(before[i]) && before[i].key.market == e.key.market ==>
            before[i].key.timestamp <= e.key.timestamp)
  }

  ghost predicate HistoryOk(hist: seq<Entry>) {
    forall j :: 0 <= j < |hist| ==> EmitOk(hist[..j], hist[j])
  }

  function Checks(hist: seq<Entry>): nat {
    if hist == [] then 0 else Checks(hist[..|hist| - 1]) + if hist[|hist| - 1].Judged? then 1 else 0
  }

  ghost predicate Inv(w: World) {
    && ConfigOk(w.g.cfg)
    && (forall k :: Mirrors(w.hist, ReqOf(w.g, k), k))
    && RoundsOk(w) && HistoryOk(w.hist)
    && w.g.emitted + Sum(w.g.dropped) == Checks(w.hist)
    && w.baseline + w.recorded == Scores(w.g.senders) + Waiting(w.g.reqs) + w.discarded
  }

  lemma SinceSnoc(hist: seq<Entry>, e: Entry, k: Key, m: Mark)
    ensures Since(hist + [e], k, m) <==> Marks(e, k, m) || (!(e.Forgot? && k in e.keys) && Since(hist, k, m))
  {
    assert (hist + [e])[..|hist|] == hist;
  }

  lemma HistorySnoc(hist: seq<Entry>, e: Entry)
    requires HistoryOk(hist) && EmitOk(hist, e)
    ensures HistoryOk(hist + [e])
    ensures Checks(hist + [e]) == Checks(hist) + if e.Judged? then 1 else 0
  {
    var all := hist + [e];
    assert all[..|hist|] == hist;
    forall j | 0 <= j < |all| ensures EmitOk(all[..j], all[j]) {
      if j < |hist| {
        assert all[..j] == hist[..j];
      }
    }
  }

  // One entry later, request by request.
  lemma MirrorsSnoc(hist: seq<Entry>, e: Entry, before: Req, after: Req, k: Key)
    requires Mirrors(hist, before, k)
    requires
      var gone := e.Forgot? && k in e.keys;
      && (after.emittedPrice.Some? <==> Marks(e, k, EmittedPropose) || (!gone && before.emittedPrice.Some?))
      && (after.emittedDispute <==> Marks(e, k, EmittedDispute) || (!gone && before.emittedDispute))
      && (after.proposed.Some? <==> Marks(e, k, ConfirmedPropose) || (!gone && before.proposed.Some?))
      && (after.disputed <==> Marks(e, k, ConfirmedDispute) || (!gone && before.disputed))
      && (if gone then after.proposed == None
          else if before.proposed.None? && Marks(e, k, ConfirmedPropose) then after.proposed == Some(e.price)
          else after.proposed == before.proposed)
    ensures Mirrors(hist + [e], after, k)
  {
    SinceSnoc(hist, e, k, EmittedPropose);
    SinceSnoc(hist, e, k, EmittedDispute);
    SinceSnoc(hist, e, k, ConfirmedPropose);
    SinceSnoc(hist, e, k, ConfirmedDispute);
    assert (hist + [e])[..|hist|] == hist;
  }

  // What a check does to the rest of the state, apart from the request.
  lemma CheckEffect(g: State, call: Call, sender: Bytes, tip: nat, tx: string, now: nat)
    requires ConfigOk(g.cfg)
    ensures var (g', v) := Check(g, call, sender, tip, tx, now);
            var k := call.key;
            var stale := k.market in g.latestRound && k.timestamp < g.latestRound[k.market];
            && g'.cfg == g.cfg && g'.senders == g.senders
            && g'.latestRound == (if stale then g.latestRound else g.latestRound[k.market := k.timestamp])
            && (forall j :: j != k ==> ReqOf(g', j) == ReqOf(g, j))
            && (if v.Emit? then g'.emitted == g.emitted + 1 && g'.dropped == g.dropped
                else g'.emitted == g.emitted && g'.dropped == CountDrop(g.dropped, v.why))
            && (stale ==> v == Dropped(StaleRound))
  {
    hide Trusted, TipFloor, FreshTips;
  }

  lemma JudgeMarks(before: Req, call: Call, sender: Bytes, trusted: bool, floor: Option<nat>, tip: nat)
    ensures var (after, v) := Judge(before, call, sender, trusted, floor, tip);
            && (after.emittedPrice.Some? <==> before.emittedPrice.Some? || (v.Emit? && call.kind.Propose?))
            && (after.emittedDispute <==> before.emittedDispute || (v.Emit? && call.kind.Dispute?))
            && after.proposed == before.proposed && after.disputed == before.disputed
            && (v.Emit? ==> !before.disputed)
            && (v.Emit? && call.kind.Propose? ==> before.emittedPrice.None? && before.proposed.None?)
            && (v.Emit? && call.kind.Dispute? ==> !before.emittedDispute)
            && |before.pendings| <= |after.pendings| <= |before.pendings| + 1
  {
  }

  // And to the request: exactly an emission is remembered, and only where
  // nothing stands against it.
  lemma CheckMarks(g: State, call: Call, sender: Bytes, tip: nat, tx: string, now: nat)
    requires ConfigOk(g.cfg)
    ensures var (g', v) := Check(g, call, sender, tip, tx, now);
            var before, after := ReqOf(g, call.key), ReqOf(g', call.key);
            && (after.emittedPrice.Some? <==> before.emittedPrice.Some? || (v.Emit? && call.kind.Propose?))
            && (after.emittedDispute <==> before.emittedDispute || (v.Emit? && call.kind.Dispute?))
            && after.proposed == before.proposed && after.disputed == before.disputed
            && (v.Emit? ==> !before.disputed)
            && (v.Emit? && call.kind.Propose? ==> before.emittedPrice.None? && before.proposed.None?)
            && (v.Emit? && call.kind.Dispute? ==> !before.emittedDispute)
            && |before.pendings| <= |after.pendings| <= |before.pendings| + 1
  {
    JudgeMarks(ReqOf(g, call.key).(touchedUs := now), call, sender, Trusted(g.cfg, StatOf(g.senders, sender)),
               TipFloor(g.cfg, FreshTips(g.tips, now, g.cfg.tipWindowUs)), tip);
    hide Trusted, TipFloor, FreshTips, Judge;
  }

  lemma CountDropSum(dropped: map<Drop, int>, why: Drop)
    ensures Sum(CountDrop(dropped, why)) == Sum(dropped) + 1
  {
    SumUpdate(dropped, why, CountDrop(dropped, why)[why]);
  }

  lemma RoundsSnoc(w: World, g': State, e: Entry)
    requires RoundsOk(w)
    requires forall m :: m in w.g.latestRound ==> m in g'.latestRound && w.g.latestRound[m] <= g'.latestRound[m]
    requires Counts(e) ==> e.key.market in g'.latestRound && e.key.timestamp <= g'.latestRound[e.key.market]
    ensures RoundsOk(w.(g := g', hist := w.hist + [e]))
  {
  }

  lemma WaitingUpdate(reqs: map<Key, Req>, k: Key, st: Req)
    ensures Waiting(reqs[k := st]) == Waiting(reqs) + |st.pendings| - if k in reqs then |reqs[k].pendings| else 0
  {
    assert Lengths(reqs[k := st]) == Lengths(reqs)[k := |st.pendings|];
    SumUpdate(Lengths(reqs), k, |st.pendings|);
  }

  lemma WaitingAfterCheck(g: State, call: Call, sender: Bytes, tip: nat, tx: string, now: nat)
    requires ConfigOk(g.cfg)
    ensures var g' := Check(g, call, sender, tip, tx, now).0;
            Waiting(g'.reqs) == Waiting(g.reqs) + |ReqOf(g', call.key).pendings| - |ReqOf(g, call.key).pendings|
  {
    hide Trusted, TipFloor, FreshTips, Judge, Waiting;
    var g' := Check(g, call, sender, tip, tx, now).0;
    if g'.reqs != g.reqs {
      WaitingUpdate(g.reqs, call.key, g'.reqs[call.key]);
    }
  }

  lemma {:induction false} ScoresAfter(senders: map<Bytes, SenderStat>, pendings: seq<Pending>, price: Bytes)
    ensures Scores(Scored(senders, pendings, price)) == Scores(senders) + |pendings|
  {
    if pendings != [] {
      var n := |pendings| - 1;
      ScoresAfter(senders, pendings[..n], price);
      var before := Scored(senders, pendings[..n], price);
      var s, after := pendings[n].sender, Scored(senders, pendings, price);
      var t := after[s].agree + after[s].disagree;
      assert Totals(after) == Totals(before)[s := t];
      SumUpdate(Totals(before), s, t);
    }
  }

  function Quotes(pendings: seq<Pending>, s: Bytes, price: Bytes, agree: bool): nat {
    if pendings == [] then 0
    else
      var p := pendings[|pendings| - 1];
      Quotes(pendings[..|pendings| - 1], s, price, agree) + if p.sender == s && (p.price == price) == agree then 1 else 0
  }

  // Each waiting quote is scored for its own sender, by whether it matches.
  lemma {:induction false} ScoredPerSender(senders: map<Bytes, SenderStat>, pendings: seq<Pending>, price: Bytes, s: Bytes)
    ensures StatOf(Scored(senders, pendings, price), s)
            == SenderStat(StatOf(senders, s).agree + Quotes(pendings, s, price, true),
                          StatOf(senders, s).disagree + Quotes(pendings, s, price, false))
  {
    if pendings != [] {
      ScoredPerSender(senders, pendings[..|pendings| - 1], price, s);
    }
  }

  // A confirmed proposal is scored once: the first one since the request was
  // last forgotten takes the whole list, later ones change no score.
  lemma ConfirmScores(g: State, kind: Kind, k: Key, price: Bytes, tx: string, now: nat)
    ensures var g', st := Confirm(g, kind, k, price, tx, now), ReqOf(g, k);
            var first := kind.Propose? && st.proposed.None?;
            && g'.senders == (if first then Scored(g.senders, st.pendings, price) else g.senders)
            && ReqOf(g', k).pendings == (if first then [] else st.pendings)
            && ReqOf(g', k).proposed == (if first then Some(price) else st.proposed)
            && Scores(g'.senders) + Waiting(g'.reqs) == Scores(g.senders) + Waiting(g.reqs)
  {
    hide Waiting, Scored, Scores;
    var g', st := Confirm(g, kind, k, price, tx, now), ReqOf(g, k);
    WaitingUpdate(g.reqs, k, g'.reqs[k]);
    ScoresAfter(g.senders, st.pendings, price);
  }

  lemma PendMirrors(w: World, call: Call, sender: Bytes, tip: nat, tx: string, now: nat, j: Key)
    requires Inv(w)
    ensures var (g', v) := Check(w.g, call, sender, tip, tx, now);
      Mirrors(w.hist + [Judged(call.kind, call.key, v)], ReqOf(g', j), j)
  {
    CheckEffect(w.g, call, sender, tip, tx, now);
    CheckMarks(w.g, call, sender, tip, tx, now);
    hide Check, Since, FirstPrice, ReqOf, HistoryOk;
    var (g', v) := Check(w.g, call, sender, tip, tx, now);
    assert Mirrors(w.hist, ReqOf(w.g, j), j);
    MirrorsSnoc(w.hist, Judged(call.kind, call.key, v), ReqOf(w.g, j), ReqOf(g', j), j);
  }

  lemma PendKeepsInv(w: World, call: Call, sender: Bytes, tip: nat, tx: string, now: nat)
    requires Inv(w)
    ensures Inv(Next(w, Pend(call, sender, tip, tx, now)))
  {
    CheckEffect(w.g, call, sender, tip, tx, now);
    CheckMarks(w.g, call, sender, tip, tx, now);
    WaitingAfterCheck(w.g, call, sender, tip, tx, now);
    hide Check, Since, FirstPrice, ReqOf, Sum, Checks, HistoryOk, Waiting, Scores;
    var (g', v) := Check(w.g, call, sender, tip, tx, now);
    var e := Judged(call.kind, call.key, v);
    assert Mirrors(w.hist, ReqOf(w.g, call.key), call.key);
    assert EmitOk(w.hist, e);
    HistorySnoc(w.hist, e);
    RoundsSnoc(w, g', e);
    hide Mirrors, EmitOk;
    forall j ensures Mirrors(w.hist + [e], ReqOf(g', j), j) {
      PendMirrors(w, call, sender, tip, tx, now, j);
    }
    if v.Dropped? {
      CountDropSum(w.g.dropped, v.why);
    }
  }

  lemma OnChainKeepsInv(w: World, kind: Kind, k: Key, price: Bytes, tx: string, now: nat)
    requires Inv(w)
    ensures Inv(Next(w, OnChain(kind, k, price, tx, now)))
  {
    ConfirmScores(w.g, kind, k, price, tx, now);
    hide Since, FirstPrice, Scored, HistoryOk, Checks, Waiting, Scores;
    var w' := Next(w, OnChain(kind, k, price, tx, now));
    var e := Confirmed(kind, k, price);
    HistorySnoc(w.hist, e);
    RoundsSnoc(w, w'.g, e);
    forall j ensures Mirrors(w'.hist, ReqOf(w'.g, j), j) {
      assert Mirrors(w.hist, ReqOf(w.g, j), j);
      MirrorsSnoc(w.hist, e, ReqOf(w.g, j), ReqOf(w'.g, j), j);
    }
  }

  lemma {:induction false} WaitingAfterRemoval(reqs: map<Key, Req>, ks: set<Key>)
    ensures 0 <= Waiting(reqs - ks) <= Waiting(reqs)
    decreases ks
  {
    SumNonNegative(Lengths(reqs - ks));
    if ks == {} {
      assert reqs - ks == reqs;
    } else {
      var k :| k in ks;
      WaitingAfterRemoval(reqs, ks - {k});
      var rest := reqs - (ks - {k});
      if k in rest {
        SumPick(Lengths(rest), k);
        assert Lengths(rest) - {k} == Lengths(reqs - ks);
      } else {
        assert reqs - ks == rest;
      }
    }
  }

  lemma SweepKeepsInv(w: World, now: nat)
    requires Inv(w)
    ensures Inv(Next(w, Sweep(now)))
  {
    WaitingAfterRemoval(w.g.reqs, Expired(w.g, now));
    hide Since, FirstPrice, Waiting, Scores;
    var w' := Next(w, Sweep(now));
    var e := Forgot(Expired(w.g, now));
    HistorySnoc(w.hist, e);
    forall j ensures Mirrors(w'.hist, ReqOf(w'.g, j), j) {
      assert Mirrors(w.hist, ReqOf(w.g, j), j);
      MirrorsSnoc(w.hist, e, ReqOf(w.g, j), ReqOf(w'.g, j), j);
    }
  }

  lemma InitInv(cfg: Config, senders: map<Bytes, SenderStat>)
    requires ConfigOk(cfg)
    ensures Inv(Init(cfg, senders))
  {
    SumZero(Init(cfg, senders).g.dropped);
    SumZero(Lengths(map[]));
  }

  lemma {:induction false} EveryRunKeepsInv(w: World, steps: seq<Step>, w': World)
    requires Inv(w) && Run(w, steps, w')
    ensures Inv(w')
    decreases |steps|
  {
    if steps != [] {
      match steps[0] {
        case Pend(call, sender, tip, tx, now) => PendKeepsInv(w, call, sender, tip, tx, now);
        case OnChain(kind, key, price, tx, now) => OnChainKeepsInv(w, kind, key, price, tx, now);
        case Sweep(now) => SweepKeepsInv(w, now);
      }
      EveryRunKeepsInv(Next(w, steps[0]), steps[1..], w');
    }
  }

  // ----- what the history promises, position by position -----

  lemma {:induction false} SinceReaches(hist: seq<Entry>, i: nat, k: Key, m: Mark)
    requires i < |hist| && Marks(hist[i], k, m)
    requires forall j :: i < j < |hist| ==> !(hist[j].Forgot? && k in hist[j].keys)
    ensures Since(hist, k, m)
  {
    var n := |hist| - 1;
    if i < n {
      SinceReaches(hist[..n], i, k, m);
    }
  }

  // Between two prunes that forget the request, at most one propose and one
  // dispute is emitted for it; no propose after a confirmed propose, nothing
  // after a confirmed dispute.
  lemma EmittedOnceBetweenPrunes(hist: seq<Entry>, i: nat, j: nat, m: Mark)
    requires HistoryOk(hist) && i < j < |hist|
    requires hist[j].Judged? && hist[j].verdict.Emit? && Marks(hist[i], hist[j].key, m)
    requires m.ConfirmedDispute?
          || (hist[j].kind.Propose? && (m.EmittedPropose? || m.ConfirmedPropose?))
          || (hist[j].kind.Dispute? && m.EmittedDispute?)
    ensures exists p :: i < p < j && hist[p].Forgot? && hist[j].key in hist[p].keys
  {
    var before := hist[..j];
    assert EmitOk(before, hist[j]);
    if forall p :: i < p < j ==> !(hist[p].Forgot? && hist[j].key in hist[p].keys) {
      SinceReaches(before, i, hist[j].key, m);
    }
  }

  // A market's emitted rounds never go back, prunes or not, nor behind a
  // confirmed one.
  lemma RoundsNeverGoBack(hist: seq<Entry>, i: nat, j: nat)
    requires HistoryOk(hist) && i < j < |hist| && (hist[i].Confirmed? || (hist[i].Judged? && hist[i].verdict.Emit?))
    requires hist[j].Judged? && hist[j].verdict.Emit? && hist[i].key.market == hist[j].key.market
    ensures hist[i].key.timestamp <= hist[j].key.timestamp
  {
    assert EmitOk(hist[..j], hist[j]) && hist[..j][i] == hist[i];
  }

  // When a pending call goes out, told by the history: the round is current,
  // nothing for the request has been emitted or settled since it was last
  // forgotten, the tip reaches the floor, and a proposer is trusted.
  lemma EmitsExactly(w: World, call: Call, sender: Bytes, tip: nat, tx: string, now: nat)
    requires Inv(w)
    ensures var k, g := call.key, w.g;
      var floor := TipFloor(g.cfg, FreshTips(g.tips, now, g.cfg.tipWindowUs));
      Check(g, call, sender, tip, tx, now).1.Emit? <==>
        && (k.market in g.latestRound ==> g.latestRound[k.market] <= k.timestamp)
        && !Since(w.hist, k, ConfirmedDispute)
        && (call.kind.Propose? ==> !Since(w.hist, k, EmittedPropose) && !Since(w.hist, k, ConfirmedPropose)
                                   && Trusted(g.cfg, StatOf(g.senders, sender)))
        && (call.kind.Dispute? ==> !Since(w.hist, k, EmittedDispute))
        && (floor.Some? ==> floor.value <= tip)
  {
    hide Since, FirstPrice, TipFloor, FreshTips, Trusted, HistoryOk;
    assert Mirrors(w.hist, ReqOf(w.g, call.key), call.key);
  }

  lemma LargerSquare(a: real, b: real)
    requires 0.0 <= a < b
    ensures a * a < b * b
  {
    var aa, ab, bb := a * a, a * b, b * b;
    assert a * (b - a) == ab - aa && (b - a) * b == bb - ab;
    assert aa <= ab;
    assert ab < bb;
  }

  lemma SquareOrder(a: real, b: real)
    requires b >= 0.0
    ensures a >= b <==> a >= 0.0 && a * a >= b * b
  {
    if 0.0 <= a < b {
      LargerSquare(a, b);
    } else if a > b {
      LargerSquare(b, a);
    }
  }

  // Trust is the lower end of the confidence interval reaching the required rate:
  // the smoothed rate of agreements less 1.645 times its deviation x, for which
  // the model compares squares.
  lemma TrustedIsLowerBound(cfg: Config, s: SenderStat, x: real)
    requires x >= 0.0
    requires var n := (s.agree + s.disagree) as real;
             var p := (s.agree as real + 1.0) / (n + 2.0);
             x * x == p * (1.0 - p) / (n + 3.0)
    ensures var n := s.agree + s.disagree;
            var p := (s.agree as real + 1.0) / (n as real + 2.0);
            Trusted(cfg, s) <==> n >= cfg.trustMinN && p - 1.645 * x >= cfg.trustMinRate
  {
    var p := (s.agree as real + 1.0) / ((s.agree + s.disagree) as real + 2.0);
    SquareOrder(p - cfg.trustMinRate, 1.645 * x);
    Scale(x);
  }

  lemma Scale(x: real)
    ensures (1.645 * x) * (1.645 * x) == 1.645 * 1.645 * (x * x)
  {
  }

  // So whoever is trusted at a rate above one half has agreed more often than not.
  lemma TrustedAgreesMore(cfg: Config, s: SenderStat)
    requires Trusted(cfg, s) && cfg.trustMinRate > 0.5
    ensures s.agree > s.disagree
  {
    var a, n := s.agree as real + 1.0, (s.agree + s.disagree) as real + 2.0;
    assert a / n > 0.5;
    assert a == (a / n) * n;
    assert (a / n) * n > 0.5 * n;
  }

  // The tip floor is an order statistic of the tips in the window: it is the one
  // value of the rank that the configured quantile names.
  lemma TipFloorIsOrderStatistic(cfg: Config, tips: seq<Tip>)
    requires ConfigOk(cfg) && |tips| >= cfg.tipMinSamples
    ensures TipFloor(cfg, tips).Some? && TipFloor(cfg, tips).value in Gweis(tips)
    ensures forall x: nat :: TipFloor(cfg, tips) == Some(x) <==> HasRank(Gweis(tips), x, QuantileIndex(|tips|, cfg.tipQuantile))
  {
    hide QuantileIndex, Gweis, Sort, HasRank;
    SortRanks(Gweis(tips), QuantileIndex(|tips|, cfg.tipQuantile));
  }

  // That rank, counted from zero, is the number nearest to the fraction q of n - 1,
  // the upper one of two; a negative fraction counts as none.
  lemma QuantileIsNearest(n: nat, q: real, k: int)
    requires n > 0 && q <= 1.0
    ensures var at := if q < 0.0 then 0.0 else (n - 1) as real * q;
            k == QuantileIndex(n, q) <==> -0.5 < k as real - at <= 0.5
  {
    if q < 0.0 {
      NegativeFraction((n - 1) as real, q);
    } else {
      NonNegativeFraction((n - 1) as real, q);
    }
  }

  lemma NegativeFraction(a: real, q: real)
    requires 0.0 <= a && q < 0.0
    ensures a * q <= 0.0
  {
  }

  lemma NonNegativeFraction(a: real, q: real)
    requires 0.0 <= a && 0.0 <= q
    ensures a * q >= 0.0
  {
  }
}

module GateServer {
  import opened Basics
  import opened Gate

  class MempoolGate {
    const cfg: Config
    var reqs: map<Key, Req>
    var latestRound: map<Market, nat>
    var senders: map<Bytes, SenderStat>
    var tips: seq<Tip>
    var txTip: map<string, Tip>
    var emitted: nat
    var dropped: map<Drop, int>

    ghost function Model(): State
      reads this
    {
      State(cfg, reqs, latestRound, senders, tips, txTip, emitted, dropped)
    }

    constructor (cfg: Config)
      ensures Model() == State(cfg, map[], map[], map[], [], map[], 0, map[])
    {
      this.cfg := cfg;
      reqs, latestRound, senders, tips, txTip, emitted, dropped := map[], map[], map[], [], map[], 0, map[];
    }

    method CurrentTipFloor(now: nat) returns (floor: Option<nat>)
      requires ConfigOk(cfg)
      modifies `tips
      ensures tips == FreshTips(old(tips), now, cfg.tipWindowUs) && floor == TipFloor(cfg, tips)
    {
      while tips != [] && SatSub(now, tips[0].at) > cfg.tipWindowUs
        invariant FreshTips(tips, now, cfg.tipWindowUs) == FreshTips(old(tips), now, cfg.tipWindowUs)
        decreases |tips|
      {
        tips := tips[1..];
      }
      floor := TipFloor(cfg, tips);
    }

    method Discard(why: Drop) returns (v: Verdict)
      modifies `dropped
      ensures v == Dropped(why) && dropped == CountDrop(old(dropped), why)
    {
      dropped := dropped[why := (if why in dropped then dropped[why] else 0) + 1];
      v := Dropped(why);
    }

    method CheckCall(call: Call, sender: Bytes, tip: nat, tx: string, now: nat) returns (v: Verdict)
      requires ConfigOk(cfg)
      modifies this
      ensures (Model(), v) == Check(old(Model()), call, sender, tip, tx, now)
    {
      hide Trusted, TipFloor, FreshTips, Judge;
      txTip := txTip[tx := Tip(now, tip)];
      var k := call.key;
      var round := if k.market in latestRound then latestRound[k.market] else k.timestamp;
      if k.timestamp < round {
        v := Discard(StaleRound);
        return;
      }
      latestRound := latestRound[k.market := k.timestamp];
      var floor := CurrentTipFloor(now);
      var trusted := Trusted(cfg, StatOf(senders, sender));
      var st := if k in reqs then reqs[k] else NoReq();
      st, v := JudgeRequest(st.(touchedUs := now), call, sender, trusted, floor, tip);
      reqs := reqs[k := st];
      if v.Emit? {
        emitted := emitted + 1;
      } else {
        v := Discard(v.why);
      }
    }

    method JudgeRequest(before: Req, call: Call, sender: Bytes, trusted: bool, floor: Option<nat>, tip: nat)
      returns (st: Req, v: Verdict)
      ensures (st, v) == Judge(before, call, sender, trusted, floor, tip)
    {
      st := before;
      match call.kind {
        case Propose =>
          if |st.pendings| < MAX_PENDINGS {
            st := st.(pendings := st.pendings + [Pending(sender, call.price)]);
          }
          if st.disputed {
            return st, Dropped(AlreadyDisputed);
          }
          if st.proposed.Some? {
            return st, Dropped(AlreadyProposed);
          }
          if st.emittedPrice.Some? {
            return st, Dropped(if st.emittedPrice.value == call.price then Duplicate else Conflict);
          }
          if !trusted {
            return st, Dropped(Untrusted);
          }
          if floor.Some? && tip < floor.value {
            return st, Dropped(LowTip);
          }
          st := st.(emittedPrice := Some(call.price));
        case Dispute =>
          if st.disputed {
            return st, Dropped(AlreadyDisputed);
          }
          if st.emittedDispute {
            return st, Dropped(Duplicate);
          }
          if floor.Some? && tip < floor.value {
            return st, Dropped(LowTip);
          }
          st := st.(emittedDispute := true);
      }
      v := Emit;
    }

    method ScoreAll(taken: seq<Pending>, price: Bytes)
      modifies `senders
      ensures senders == Scored(old(senders), taken, price)
    {
      var i := 0;
      assert taken[..0] == [];
      while i < |taken|
        invariant 0 <= i <= |taken| && senders == Scored(old(senders), taken[..i], price)
      {
        var p := taken[i];
        assert taken[..i + 1][..i] == taken[..i];
        var s := StatOf(senders, p.sender);
        if p.price == price {
          senders := senders[p.sender := s.(agree := s.agree + 1)];
        } else {
          senders := senders[p.sender := s.(disagree := s.disagree + 1)];
        }
        i := i + 1;
      }
      assert taken[..|taken|] == taken;
    }

    method OnConfirmed(kind: Kind, k: Key, price: Bytes, tx: string, now: nat)
      modifies this
      ensures Model() == Confirm(old(Model()), kind, k, price, tx, now)
    {
      var round := if k.market in latestRound then latestRound[k.market] else k.timestamp;
      latestRound := latestRound[k.market := Max(round, k.timestamp)];
      if kind.Propose? && tx in txTip {
        tips := tips + [Tip(now, txTip[tx].gwei)];
      }
      var st := (if k in reqs then reqs[k] else NoReq()).(touchedUs := now);
      if kind.Propose? && st.proposed.None? {
        var taken := st.pendings;
        st := st.(proposed := Some(price), pendings := []);
        ScoreAll(taken, price);
      } else if kind.Dispute? {
        st := st.(disputed := true);
      }
      reqs := reqs[k := st];
    }

    method Sweep(now: nat)
      modifies this
      ensures Model() == Prune(old(Model()), now)
    {
      ghost var r := reqs;
      reqs := map k | k in reqs && SatSub(now, reqs[k].touchedUs) < cfg.stateTtlUs :: reqs[k];
      assert reqs == r - Expired(old(Model()), now);
      txTip := map tx | tx in txTip && SatSub(now, txTip[tx].at) < cfg.tipWindowUs :: txTip[tx];
    }
  }
}
