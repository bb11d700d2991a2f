/** The edge's frame ring and its non-blocking fan-out to bounded client queues
    (src/edge/ring.rs, src/edge/hub.rs).

    `EdgeProtocol` is the protocol as a state machine. A publish holds the lock
    over several steps: it pushes the frame, then tries each subscriber's queue
    in turn, then removes the evicted ones. Clients drain or drop their end of
    the queue at any moment, also between two of those tries. `EdgeHub` holds
    the classes whose methods are proved to be runs of that machine. */
module EdgeProtocol {
  import opened Basics

  const CLOSE_NORMAL := 1000
  const CLOSE_POLICY := 1008

  datatype Frame = Frame(offset: nat, batchSequence: nat, eventSequence: nat, bytes: Bytes, recvAtUs: nat)

  // One client channel: what it was handed at subscription, what it has taken
  // from its queue and what is still queued. `start` is the log position of
  // the first frame it was, or will be, given.
  datatype Channel = Channel(start: nat, replay: seq<Frame>, received: seq<Frame>, queue: seq<Frame>,
                             open: bool, closeCode: nat) {
    function Stream(): seq<Frame> {
      replay + received + queue
    }
  }

  datatype Phase = Idle | Publishing(pending: set<nat>, evicted: set<nat>)

  // `log` is the history of everything published; the ring is its last
  // `ringLen` frames. `subs` maps a registered id to its token id.
  datatype World = World(
    ringCapacity: nat, queueCapacity: nat,
    log: seq<Frame>, ringLen: nat,
    subs: map<nat, Option<string>>, chans: map<nat, Channel>, nextId: nat,
    phase: Phase, deliveries: nat, slow: nat)

  datatype Step =
    | PublishBegin(frame: Frame)
    | TrySend(id: nat)
    | PublishEnd
    | Subscribe(replay: nat, token: Option<string>)
    | Unsubscribe(id: nat)
    | Release(ids: set<nat>, code: nat)
    | Kick(live: set<string>)
    | Receive(id: nat)
    | DropReceiver(id: nat)

  function Init(ringCapacity: nat, queueCapacity: nat): World {
    World(Max(ringCapacity, 1), Max(queueCapacity, 1), [], 0, map[], map[], 1, Idle, 0, 0)
  }

  // The ids a token sweep removes; subscribers without a token stay.
  function Rejected(w: World, live: set<string>): set<nat> {
    set id | id in w.subs && w.subs[id].Some? && w.subs[id].value !in live
  }

  function Ring(w: World): seq<Frame>
    requires w.ringLen <= |w.log|
  {
    w.log[|w.log| - w.ringLen..]
  }

  // Removes `ids` and tells their writers why.
  function Closed(w: World, ids: set<nat>, code: nat): World {
    w.(subs := w.subs - ids,
       chans := map id | id in w.chans :: if id in ids then w.chans[id].(closeCode := code) else w.chans[id])
  }

  ghost predicate Enabled(w: World, step: Step) {
    match step
    case PublishBegin(_) => w.phase.Idle?
    case TrySend(id) => w.phase.Publishing? && id in w.phase.pending && id in w.chans && w.log != []
    case PublishEnd => w.phase.Publishing? && w.phase.pending == {}
    case Subscribe(_, _) => w.phase.Idle? && w.ringLen <= |w.log|
    case Unsubscribe(_) => w.phase.Idle?
    case Release(ids, _) => w.phase.Idle? && ids <= w.subs.Keys
    case Kick(_) => w.phase.Idle?
    case Receive(id) => id in w.chans && w.chans[id].open && w.chans[id].queue != []
    case DropReceiver(id) => id in w.chans
  }

  ghost function Next(w: World, step: Step): World
    requires Enabled(w, step)
  {
    match step
    case PublishBegin(frame) =>
      w.(log := w.log + [frame.(offset := |w.log| + 1)],
         ringLen := Min(w.ringLen + 1, w.ringCapacity),
         phase := Publishing(w.subs.Keys, {}))
    case TrySend(id) =>
      var c := w.chans[id];
      var p := w.phase.pending - {id};
      if c.open && |c.queue| < w.queueCapacity then
        w.(chans := w.chans[id := c.(queue := c.queue + [w.log[|w.log| - 1]])],
           phase := Publishing(p, w.phase.evicted), deliveries := w.deliveries + 1)
      else if c.open then
        w.(chans := w.chans[id := c.(closeCode := CLOSE_POLICY)],
           phase := Publishing(p, w.phase.evicted + {id}), slow := w.slow + 1)
      else
        w.(phase := Publishing(p, w.phase.evicted + {id}))
    case PublishEnd =>
      w.(subs := w.subs - w.phase.evicted, phase := Idle)
    case Subscribe(n, token) =>
      var k := Min(n, w.ringLen);
      w.(subs := w.subs[w.nextId := token],
         chans := w.chans[w.nextId := Channel(|w.log| - k, Ring(w)[w.ringLen - k..], [], [], true, CLOSE_NORMAL)],
         nextId := w.nextId + 1)
    case Unsubscribe(id) => w.(subs := w.subs - {id})
    case Release(ids, code) => Closed(w, ids, code)
    case Kick(live) => Closed(w, Rejected(w, live), CLOSE_POLICY)
    case Receive(id) =>
      var c := w.chans[id];
      w.(chans := w.chans[id := c.(received := c.received + [c.queue[0]], queue := c.queue[1..])])
    case DropReceiver(id) =>
      w.(chans := w.chans[id := w.chans[id].(open := false, queue := [])])
  }

  ghost predicate Run(w: World, steps: seq<Step>, w': World)
    decreases |steps|
  {
    if steps == [] then w' == w
    else Enabled(w, steps[0]) && Run(Next(w, steps[0]), steps[1..], w')
  }

  // Trying the queues of `ids`, in that order.
  ghost function Tries(ids: seq<nat>): seq<Step> {
    if ids == [] then [] else Tries(ids[..|ids| - 1]) + [TrySend(ids[|ids| - 1])]
  }

  // What a publish does to one subscriber's channel.
  predicate HasRoom(c: Channel, capacity: nat) {
    c.open && |c.queue| < capacity
  }

  function Offered(c: Channel, frame: Frame, capacity: nat): Channel {
    if HasRoom(c, capacity) then c.(queue := c.queue + [frame])
    else if c.open then c.(closeCode := CLOSE_POLICY)
    else c
  }

  // All of `ids` offered the frame.
  function OfferedAll(chans: map<nat, Channel>, ids: set<nat>, frame: Frame, capacity: nat): map<nat, Channel> {
    map id | id in chans :: if id in ids then Offered(chans[id], frame, capacity) else chans[id]
  }

  // Those of them that can take it, those that cannot, and those whose queue is
  // full.
  function Taking(chans: map<nat, Channel>, ids: set<nat>, capacity: nat): set<nat> {
    set id | id in ids && id in chans && HasRoom(chans[id], capacity)
  }

  function Refusing(chans: map<nat, Channel>, ids: set<nat>, capacity: nat): set<nat> {
    set id | id in ids && id in chans && !HasRoom(chans[id], capacity)
  }

  function Overfull(chans: map<nat, Channel>, ids: set<nat>, capacity: nat): set<nat> {
    set id | id in ids && id in chans && chans[id].open && !HasRoom(chans[id], capacity)
  }

  lemma OfferNone(chans: map<nat, Channel>, frame: Frame, capacity: nat)
    ensures OfferedAll(chans, {}, frame, capacity) == chans
    ensures Taking(chans, {}, capacity) == Refusing(chans, {}, capacity) == Overfull(chans, {}, capacity) == {}
  {
  }

  lemma OfferOneMore(chans: map<nat, Channel>, ids: set<nat>, id: nat, frame: Frame, capacity: nat)
    requires id in chans && id !in ids
    ensures var now := OfferedAll(chans, ids, frame, capacity);
      && id in now && now[id] == chans[id]
      && OfferedAll(chans, ids + {id}, frame, capacity) == now[id := Offered(chans[id], frame, capacity)]
    ensures Refusing(chans, ids + {id}, capacity)
         == Refusing(chans, ids, capacity) + if HasRoom(chans[id], capacity) then {} else {id}
  {
    hide Offered, HasRoom;
  }

  lemma CountOneMore(chans: map<nat, Channel>, ids: set<nat>, id: nat, capacity: nat)
    requires id in chans && id !in ids
    ensures |Taking(chans, ids + {id}, capacity)|
         == |Taking(chans, ids, capacity)| + if HasRoom(chans[id], capacity) then 1 else 0
    ensures |Overfull(chans, ids + {id}, capacity)|
         == |Overfull(chans, ids, capacity)| + if chans[id].open && !HasRoom(chans[id], capacity) then 1 else 0
  {
    hide Taking, Overfull, HasRoom;
    TakingOneMore(chans, ids, id, capacity);
    OverfullOneMore(chans, ids, id, capacity);
    AddedOne(Taking(chans, ids, capacity), id);
    AddedOne(Overfull(chans, ids, capacity), id);
  }

  lemma TakingOneMore(chans: map<nat, Channel>, ids: set<nat>, id: nat, capacity: nat)
    requires id in chans && id !in ids
    ensures var t := Taking(chans, ids, capacity);
      id !in t && Taking(chans, ids + {id}, capacity) == if HasRoom(chans[id], capacity) then t + {id} else t
  {
    hide HasRoom;
  }

  lemma OverfullOneMore(chans: map<nat, Channel>, ids: set<nat>, id: nat, capacity: nat)
    requires id in chans && id !in ids
    ensures var o := Overfull(chans, ids, capacity);
      id !in o && Overfull(chans, ids + {id}, capacity) == if chans[id].open && !HasRoom(chans[id], capacity) then o + {id} else o
  {
    hide HasRoom;
  }

  lemma AddedOne(s: set<nat>, id: nat)
    ensures id !in s ==> |s + {id}| == |s| + 1
  {
  }

  lemma TakingStay(chans: map<nat, Channel>, subs: map<nat, Option<string>>, capacity: nat)
    requires subs.Keys <= chans.Keys
    ensures |subs - Refusing(chans, subs.Keys, capacity)| == |Taking(chans, subs.Keys, capacity)|
  {
    hide HasRoom;
    var rest := subs - Refusing(chans, subs.Keys, capacity);
    assert rest.Keys == Taking(chans, subs.Keys, capacity);
    assert |rest| == |rest.Keys|;
  }

  // A publish under way in which the queues of `ids` have been tried.
  function Tried(w: World, ids: set<nat>): World
    requires w.log != []
  {
    w.(chans := OfferedAll(w.chans, ids, w.log[|w.log| - 1], w.queueCapacity),
       phase := Publishing(w.subs.Keys - ids, Refusing(w.chans, ids, w.queueCapacity)),
       deliveries := w.deliveries + |Taking(w.chans, ids, w.queueCapacity)|,
       slow := w.slow + |Overfull(w.chans, ids, w.queueCapacity)|)
  }

  function Elements(ids: seq<nat>): set<nat> {
    set id | id in ids
  }

  predicate Distinct(ids: seq<nat>) {
    forall i, j :: 0 <= i < j < |ids| ==> ids[i] != ids[j]
  }

  lemma NothingYet()
    ensures Elements([]) == {} && Distinct([])
  {
  }

  lemma ElementsSnoc(ids: seq<nat>, id: nat)
    ensures Elements(ids + [id]) == Elements(ids) + {id}
    ensures Distinct(ids + [id]) <==> Distinct(ids) && id !in Elements(ids)
  {
    var all := ids + [id];
    assert all[|ids|] == id && forall i :: 0 <= i < |ids| ==> all[i] == ids[i];
  }

  // Trying queues one after another, in whatever order, gives just that.
  lemma {:induction false} TriesRun(w0: World, before: seq<Step>, w: World, ids: seq<nat>)
    requires Inv(w) && Run(w0, before, w) && w.phase == Publishing(w.subs.Keys, {}) && w.log != []
    requires Distinct(ids) && Elements(ids) <= w.subs.Keys
    ensures Inv(Tried(w, Elements(ids))) && Run(w0, before + Tries(ids), Tried(w, Elements(ids)))
    decreases |ids|
  {
    hide Inv, Run, Next, Enabled, Offered, HasRoom, Tried, Distinct, Elements;
    if ids == [] {
      assert before + Tries(ids) == before;
      NoneTried(w);
    } else {
      var n := |ids| - 1;
      var init, id := ids[..n], ids[n];
      assert ids == init + [id];
      ElementsSnoc(init, id);
      TriesRun(w0, before, w, init);
      SubsHaveChannels(w);
      TriedOneMore(w, Elements(init), id);
      var w' := TrySendEffect(w0, before, init, Tried(w, Elements(init)), id);
    }
  }

  // A whole publish.
  lemma PublishRun(w: World, frame: Frame, ids: seq<nat>)
    requires Inv(w) && w.phase.Idle? && Distinct(ids) && Elements(ids) == w.subs.Keys
    ensures var stored := frame.(offset := |w.log| + 1);
      var w' := w.(log := w.log + [stored], ringLen := Min(|w.log| + 1, w.ringCapacity),
                   chans := OfferedAll(w.chans, w.subs.Keys, stored, w.queueCapacity),
                   subs := w.subs - Refusing(w.chans, w.subs.Keys, w.queueCapacity),
                   deliveries := w.deliveries + |Taking(w.chans, w.subs.Keys, w.queueCapacity)|,
                   slow := w.slow + |Overfull(w.chans, w.subs.Keys, w.queueCapacity)|);
      Inv(w') && Run(w, [PublishBegin(frame)] + Tries(ids) + [PublishEnd], w')
  {
    hide Inv, Run, Next, Enabled, Offered, HasRoom, OfferedAll, Refusing, Overfull, Taking, Tries, Distinct, Elements;
    var begun := PublishBeginEffect(w, frame);
    TriesRun(w, [PublishBegin(frame)], begun, ids);
    assert w.subs.Keys - w.subs.Keys == {};
    PublishEndEffect(w, [PublishBegin(frame)] + Tries(ids), Tried(begun, w.subs.Keys));
  }

  lemma NoneTried(w: World)
    requires w.log != [] && w.phase == Publishing(w.subs.Keys, {})
    ensures Elements([]) == {} && Tried(w, Elements([])) == w
  {
    assert Elements([]) == {};
    OfferNone(w.chans, w.log[|w.log| - 1], w.queueCapacity);
    hide OfferedAll, Refusing, Overfull, Taking;
    assert w.subs.Keys - {} == w.subs.Keys;
  }

  lemma TriedOneMore(w: World, done: set<nat>, id: nat)
    requires w.log != [] && id in w.chans && id in w.subs && id !in done
    ensures var mid, c, room := Tried(w, done), w.chans[id], HasRoom(w.chans[id], w.queueCapacity);
      && mid == w.(chans := mid.chans, phase := mid.phase, deliveries := mid.deliveries, slow := mid.slow)
      && id in mid.chans && mid.chans[id] == c && mid.phase.Publishing? && id in mid.phase.pending
      && Tried(w, done + {id})
         == mid.(chans := mid.chans[id := Offered(c, w.log[|w.log| - 1], w.queueCapacity)],
                 phase := Publishing(mid.phase.pending - {id}, if room then mid.phase.evicted else mid.phase.evicted + {id}),
                 deliveries := mid.deliveries + (if room then 1 else 0),
                 slow := mid.slow + (if c.open && !room then 1 else 0))
  {
    hide Offered, HasRoom, OfferedAll, Refusing, Overfull, Taking;
    OfferOneMore(w.chans, done, id, w.log[|w.log| - 1], w.queueCapacity);
    CountOneMore(w.chans, done, id, w.queueCapacity);
    assert w.subs.Keys - (done + {id}) == w.subs.Keys - done - {id};
    var refusing := Refusing(w.chans, done, w.queueCapacity);
    assert refusing + {} == refusing;
  }

  // One `try_send` extends the run; its outcome, field by field.
  lemma TrySendEffect(w0: World, before: seq<Step>, tried: seq<nat>, w: World, id: nat) returns (w': World)
    requires Inv(w) && Run(w0, before + Tries(tried), w) && w.phase.Publishing? && id in w.phase.pending
    ensures Inv(w') && Run(w0, before + Tries(tried + [id]), w')
    ensures id in w.chans && w.log != []
    ensures var c := w.chans[id];
            var room := HasRoom(c, w.queueCapacity);
            w' == w.(chans := w.chans[id := Offered(c, w.log[|w.log| - 1], w.queueCapacity)],
                     phase := Publishing(w.phase.pending - {id}, if room then w.phase.evicted else w.phase.evicted + {id}),
                     deliveries := w.deliveries + (if room then 1 else 0),
                     slow := w.slow + (if c.open && !room then 1 else 0))
  {
    hide Inv, Run;
    PendingIsEnabled(w, id);
    w' := Next(w, TrySend(id));
    StepKeepsInv(w, TrySend(id));
    RunSnoc(w0, before + Tries(tried), w, TrySend(id));
    assert (tried + [id])[..|tried|] == tried;
    assert before + Tries(tried + [id]) == before + Tries(tried) + [TrySend(id)];
  }

  lemma PublishBeginEffect(w: World, frame: Frame) returns (w': World)
    requires Inv(w) && w.phase.Idle?
    ensures Inv(w') && Run(w, [PublishBegin(frame)], w')
    ensures w' == w.(log := w.log + [frame.(offset := |w.log| + 1)], ringLen := Min(|w.log| + 1, w.ringCapacity),
                     phase := Publishing(w.subs.Keys, {}))
  {
    var step := PublishBegin(frame);
    w' := Next(w, step);
    StepKeepsInv(w, step);
    RunSnoc(w, [], w, step);
    assert [] + [step] == [step];
  }

  lemma PublishEndEffect(w0: World, steps: seq<Step>, w: World)
    requires Inv(w) && Run(w0, steps, w) && w.phase.Publishing? && w.phase.pending == {}
    ensures var w' := w.(subs := w.subs - w.phase.evicted, phase := Idle);
            Inv(w') && Run(w0, steps + [PublishEnd], w')
  {
    StepKeepsInv(w, PublishEnd);
    RunSnoc(w0, steps, w, PublishEnd);
  }

  // ----- what every run keeps -----

  // One channel's stream is an unbroken stretch of the log, no further than
  // the newest frame.
  ghost predicate Contiguous(w: World, c: Channel) {
    && c.start + |c.Stream()| <= |w.log|
    && c.Stream() == w.log[c.start..c.start + |c.Stream()|]
  }

  ghost predicate UpToDate(w: World, id: nat)
    requires id in w.chans
  {
    var c := w.chans[id];
    var behind := if w.phase.Publishing? && id in w.phase.pending then 1 else 0;
    c.start + |c.Stream()| == |w.log| - behind
  }

  // A registered client that is still listening and was not just evicted.
  ghost predicate Live(w: World, id: nat) {
    id in w.subs && id in w.chans && w.chans[id].open && (w.phase.Publishing? ==> id !in w.phase.evicted)
  }

  ghost predicate ChanOk(w: World, id: nat)
    requires id in w.chans
  {
    && id < w.nextId
    && Contiguous(w, w.chans[id])
    && |w.chans[id].queue| <= w.queueCapacity
    && (Live(w, id) ==> UpToDate(w, id))
  }

  ghost predicate Shape(w: World) {
    && 1 <= w.ringCapacity && 1 <= w.queueCapacity
    && w.ringLen == Min(|w.log|, w.ringCapacity)
    && (forall i :: 0 <= i < |w.log| ==> w.log[i].offset == i + 1)
    && w.subs.Keys <= w.chans.Keys
    && (w.phase.Publishing? ==> w.log != [] && w.phase.pending <= w.subs.Keys && w.phase.evicted <= w.subs.Keys
                                && w.phase.pending !! w.phase.evicted)
  }

  ghost predicate Inv(w: World) {
    Shape(w) && forall id :: id in w.chans ==> ChanOk(w, id)
  }

  lemma InitInv(ringCapacity: nat, queueCapacity: nat)
    ensures Inv(Init(ringCapacity, queueCapacity))
  {
  }

  lemma StepKeepsInv(w: World, step: Step)
    requires Inv(w) && Enabled(w, step)
    ensures Inv(Next(w, step))
  {
    hide Inv;
    match step
    case PublishBegin(frame) => PublishBeginKeepsInv(w, frame);
    case TrySend(id) => TrySendKeepsInv(w, id);
    case Subscribe(n, token) => SubscribeKeepsInv(w, n, token);
    case Receive(id) => ReceiveKeepsInv(w, id);
    case DropReceiver(id) => DropReceiverKeepsInv(w, id);
    case PublishEnd => RemovalKeepsInv(w, Next(w, step), w.phase.evicted);
    case Unsubscribe(id) => RemovalKeepsInv(w, Next(w, step), {id});
    case Release(ids, _) => RemovalKeepsInv(w, Next(w, step), ids);
    case Kick(live) => RemovalKeepsInv(w, Next(w, step), Rejected(w, live));
  }

  lemma PublishBeginKeepsInv(w: World, frame: Frame)
    requires Inv(w) && Enabled(w, PublishBegin(frame))
    ensures Inv(Next(w, PublishBegin(frame)))
  {
    var w' := Next(w, PublishBegin(frame));
    forall id | id in w'.chans ensures ChanOk(w', id) {
      assert ChanOk(w, id);
    }
  }

  // Taking ids out of the subscriber map touches no stream.
  lemma RemovalKeepsInv(w: World, w': World, ids: set<nat>)
    requires Inv(w)
    requires w' == w.(subs := w.subs - ids, chans := w'.chans, phase := Idle)
    requires w.phase.Publishing? ==> w.phase.pending == {} && w.phase.evicted <= ids
    requires w'.chans.Keys == w.chans.Keys
    requires forall id :: id in w.chans ==> w'.chans[id] == w.chans[id].(closeCode := w'.chans[id].closeCode)
    ensures Inv(w')
  {
    forall id | id in w'.chans ensures ChanOk(w', id) {
      assert ChanOk(w, id);
      assert w'.chans[id].Stream() == w.chans[id].Stream();
    }
  }

  // A step on one channel leaves the other channels as they were.
  ghost predicate OnlyTouches(w: World, w': World, id: nat) {
    && id in w.chans && w'.chans.Keys == w.chans.Keys
    && w' == w.(chans := w'.chans, phase := w'.phase, deliveries := w'.deliveries, slow := w'.slow)
    && (forall j :: j in w.chans && j != id ==> w'.chans[j] == w.chans[j])
    && (w.phase.Publishing? <==> w'.phase.Publishing?)
    && (w.phase.Publishing? ==>
          && (forall j :: j != id ==> (j in w.phase.pending <==> j in w'.phase.pending))
          && (forall j :: j != id ==> (j in w.phase.evicted <==> j in w'.phase.evicted)))
  }

  lemma OneChannelKeepsInv(w: World, w': World, id: nat)
    requires Inv(w) && OnlyTouches(w, w', id) && Shape(w') && ChanOk(w', id)
    ensures Inv(w')
  {
    forall j | j in w'.chans ensures ChanOk(w', j) {
      assert ChanOk(w, j);
    }
  }

  lemma DropReceiverKeepsInv(w: World, id: nat)
    requires Inv(w) && Enabled(w, DropReceiver(id))
    ensures Inv(Next(w, DropReceiver(id)))
  {
    var w' := Next(w, DropReceiver(id));
    assert ChanOk(w, id) && Shape(w');
    CutIsContiguous(w, w.chans[id]);
    hide Contiguous;
    OneChannelKeepsInv(w, w', id);
  }

  lemma CutIsContiguous(w: World, c: Channel)
    requires Contiguous(w, c)
    ensures Contiguous(w, c.(open := false, queue := []))
  {
    var c' := c.(open := false, queue := []);
    assert c'.Stream() == c.Stream()[..|c'.Stream()|];
  }

  lemma TrySendKeepsInv(w: World, id: nat)
    requires Inv(w) && Enabled(w, TrySend(id))
    ensures Inv(Next(w, TrySend(id)))
  {
    var w' := Next(w, TrySend(id));
    assert ChanOk(w, id);
    TrySendShape(w, id);
    TrySendChannel(w, id);
    hide Inv, Shape, ChanOk;
    OneChannelKeepsInv(w, w', id);
  }

  lemma TrySendShape(w: World, id: nat)
    requires Shape(w) && Enabled(w, TrySend(id))
    ensures Shape(Next(w, TrySend(id)))
  {
  }

  lemma TrySendChannel(w: World, id: nat)
    requires Shape(w) && Enabled(w, TrySend(id)) && ChanOk(w, id)
    ensures ChanOk(Next(w, TrySend(id)), id)
  {
    var c, c' := w.chans[id], Next(w, TrySend(id)).chans[id];
    if c.open && |c.queue| < w.queueCapacity {
      assert c'.Stream() == c.Stream() + [w.log[|w.log| - 1]];
    } else {
      assert c'.Stream() == c.Stream();
    }
  }

  lemma SubscribeKeepsInv(w: World, n: nat, token: Option<string>)
    requires Inv(w) && Enabled(w, Subscribe(n, token))
    ensures Inv(Next(w, Subscribe(n, token)))
  {
    var w' := Next(w, Subscribe(n, token));
    var c := w'.chans[w.nextId];
    assert c.Stream() == w.log[c.start..];
    forall j | j in w'.chans ensures ChanOk(w', j) {
      assert j != w.nextId ==> ChanOk(w, j);
    }
  }

  lemma ReceiveKeepsInv(w: World, id: nat)
    requires Inv(w) && Enabled(w, Receive(id))
    ensures Inv(Next(w, Receive(id)))
    ensures Next(w, Receive(id)).chans[id].Stream() == w.chans[id].Stream()
  {
    var w' := Next(w, Receive(id));
    assert w'.chans[id].Stream() == w.chans[id].Stream();
    assert ChanOk(w, id);
    OneChannelKeepsInv(w, w', id);
  }

  // The fan-out guarantee over every interleaving: whatever a client was
  // replayed, has taken or can still take is one stretch of consecutive ring
  // offsets; while it is registered and listening that stretch ends at the
  // newest frame its queue has been tried for.
  lemma {:induction false} EveryRunIsGapFree(w: World, steps: seq<Step>, w': World)
    requires Inv(w) && Run(w, steps, w')
    ensures Inv(w')
    ensures forall id, i :: id in w'.chans && 0 <= i < |w'.chans[id].Stream()| ==>
              w'.chans[id].Stream()[i].offset == w'.chans[id].start + i + 1
    decreases |steps|
  {
    if steps != [] {
      StepKeepsInv(w, steps[0]);
      EveryRunIsGapFree(Next(w, steps[0]), steps[1..], w');
    } else {
      forall id, i | id in w'.chans && 0 <= i < |w'.chans[id].Stream()|
        ensures w'.chans[id].Stream()[i].offset == w'.chans[id].start + i + 1
      {
        assert ChanOk(w', id);
      }
    }
  }

  // Once removed, a client's stream and close code are frozen for the rest of
  // the run; its id is never handed out again. Dropping the receiving end can
  // only cut off what was queued.
  lemma {:induction false} RemovedIsFrozen(w: World, steps: seq<Step>, w': World, id: nat)
    requires Inv(w) && Run(w, steps, w')
    requires id in w.chans && id !in w.subs
    ensures id in w'.chans && id !in w'.subs
    ensures w'.chans[id].closeCode == w.chans[id].closeCode
    ensures w'.chans[id].Stream() <= w.chans[id].Stream()
    ensures w'.chans[id].open ==> w.chans[id].open && w'.chans[id].Stream() == w.chans[id].Stream()
    decreases |steps|
  {
    hide Inv, Next;
    if steps != [] {
      StepKeepsInv(w, steps[0]);
      RemovedStaysRemoved(w, steps[0], id);
      RemovedIsFrozen(Next(w, steps[0]), steps[1..], w', id);
    }
  }

  lemma RemovedStaysRemoved(w: World, step: Step, id: nat)
    requires Inv(w) && Enabled(w, step) && id in w.chans && id !in w.subs
    ensures var w' := Next(w, step);
            && id in w'.chans && id !in w'.subs
            && w'.chans[id].closeCode == w.chans[id].closeCode
            && w'.chans[id].Stream() <= w.chans[id].Stream()
            && (w'.chans[id].open ==> w.chans[id].open && w'.chans[id].Stream() == w.chans[id].Stream())
  {
    if step == Receive(id) {
      ReceiveKeepsInv(w, id);
    }
  }

  // Nothing in this step takes `id` out of service: nobody unsubscribes,
  // releases or kicks it, it keeps its receiver, and its queue has room.
  ghost predicate Spares(w: World, step: Step, id: nat) {
    match step
    case Unsubscribe(j) => j != id
    case Release(ids, _) => id !in ids
    case Kick(live) => id in w.subs && w.subs[id].Some? ==> w.subs[id].value in live
    case DropReceiver(j) => j != id
    case TrySend(j) => j == id && id in w.chans ==> |w.chans[id].queue| < w.queueCapacity
    case _ => true
  }

  ghost predicate Undisturbed(w: World, steps: seq<Step>, id: nat)
    decreases |steps|
  {
    steps == [] || (Enabled(w, steps[0]) && Spares(w, steps[0], id) && Undisturbed(Next(w, steps[0]), steps[1..], id))
  }

  // Only a full queue causes a slow eviction: a live client whose queue has
  // room every time it is tried, and that nobody removes, is live for ever and
  // keeps its close code.
  lemma {:induction false} OnlyFullQueueEvicts(w: World, steps: seq<Step>, w': World, id: nat)
    requires Inv(w) && Run(w, steps, w') && Live(w, id)
    requires Undisturbed(w, steps, id)
    ensures Live(w', id) && UpToDate(w', id)
    ensures w'.chans[id].closeCode == w.chans[id].closeCode
    ensures w'.chans[id].start == w.chans[id].start && w'.chans[id].replay == w.chans[id].replay
    decreases |steps|
  {
    hide Inv, Next;
    if steps != [] {
      StepKeepsInv(w, steps[0]);
      SparedStaysLive(w, steps[0], id);
      OnlyFullQueueEvicts(Next(w, steps[0]), steps[1..], w', id);
    } else {
      LiveIsUpToDate(w, id);
    }
  }

  lemma PendingIsEnabled(w: World, id: nat)
    requires Inv(w) && w.phase.Publishing? && id in w.phase.pending
    ensures Enabled(w, TrySend(id))
  {
  }

  lemma SubscribeIsEnabled(w: World, n: nat, token: Option<string>)
    requires Inv(w) && w.phase.Idle?
    ensures Enabled(w, Subscribe(n, token)) && w.nextId !in w.chans && w.ringLen <= |w.log|
  {
    assert w.nextId in w.chans ==> ChanOk(w, w.nextId);
  }

  lemma NewestOfRing(w: World, k: nat)
    requires k <= w.ringLen <= |w.log|
    ensures |Ring(w)| == w.ringLen && Ring(w)[w.ringLen - k..] == w.log[|w.log| - k..]
  {
  }

  // What a subscription adds: the newest `n` ring frames, under a fresh id.
  lemma SubscribeEffect(w: World, n: nat, token: Option<string>)
    requires Inv(w) && w.phase.Idle?
    ensures Enabled(w, Subscribe(n, token)) && Inv(Next(w, Subscribe(n, token)))
    ensures w.nextId !in w.chans
    ensures w.ringLen <= |w.log|
    ensures var start := |w.log| - Min(n, w.ringLen);
            Next(w, Subscribe(n, token))
            == w.(subs := w.subs[w.nextId := token],
                  chans := w.chans[w.nextId := Channel(start, w.log[start..], [], [], true, CLOSE_NORMAL)],
                  nextId := w.nextId + 1)
  {
    hide Inv, Enabled, Ring;
    SubscribeIsEnabled(w, n, token);
    StepKeepsInv(w, Subscribe(n, token));
    NewestOfRing(w, Min(n, w.ringLen));
  }

  lemma SubsHaveChannels(w: World)
    requires Inv(w)
    ensures w.subs.Keys <= w.chans.Keys
  {
  }

  lemma ReleaseEffect(w: World, ids: set<nat>, code: nat)
    requires Inv(w) && Enabled(w, Release(ids, code))
    ensures Inv(Next(w, Release(ids, code))) && Next(w, Release(ids, code)) == Closed(w, ids, code)
  {
    StepKeepsInv(w, Release(ids, code));
  }

  lemma ClosedWith(w: World, ids: set<nat>, code: nat)
    requires ids <= w.chans.Keys
    ensures var w' := Closed(w, ids, code);
      w'.subs == w.subs - ids && forall id :: id in ids ==> id in w'.chans && w'.chans[id].closeCode == code
  {
  }

  lemma KickEffect(w: World, live: set<string>)
    requires Inv(w) && w.phase.Idle?
    ensures Enabled(w, Kick(live)) && Inv(Next(w, Kick(live)))
    ensures Next(w, Kick(live)) == Closed(w, Rejected(w, live), CLOSE_POLICY)
  {
    StepKeepsInv(w, Kick(live));
  }

  lemma ClosedNone(w: World, code: nat)
    ensures Closed(w, {}, code) == w
  {
    assert w.subs - {} == w.subs;
  }

  lemma ClosedOneMore(w: World, ids: set<nat>, id: nat, code: nat)
    requires id in w.chans
    ensures var c := Closed(w, ids, code);
            Closed(w, ids + {id}, code) == c.(subs := c.subs - {id}, chans := c.chans[id := c.chans[id].(closeCode := code)])
  {
    var c := Closed(w, ids, code);
    assert w.subs - (ids + {id}) == c.subs - {id};
  }

  lemma LiveIsUpToDate(w: World, id: nat)
    requires Inv(w) && Live(w, id)
    ensures UpToDate(w, id)
  {
    assert ChanOk(w, id);
  }

  lemma SparedStaysLive(w: World, step: Step, id: nat)
    requires Inv(w) && Enabled(w, step) && Live(w, id) && Spares(w, step, id)
    ensures Live(Next(w, step), id)
    ensures Next(w, step).chans[id].closeCode == w.chans[id].closeCode
    ensures Next(w, step).chans[id].start == w.chans[id].start
    ensures Next(w, step).chans[id].replay == w.chans[id].replay
  {
  }

  // The converse: trying a full queue costs the client its registration by the
  // end of that publish, with 1008, and is counted exactly once.
  lemma FullQueueEvicts(w: World, id: nat, rest: seq<Step>, w': World)
    requires Inv(w) && Enabled(w, TrySend(id)) && w.chans[id].open
    requires |w.chans[id].queue| == w.queueCapacity
    requires Run(Next(w, TrySend(id)), rest, w') && w'.phase.Idle?
    ensures id !in w'.subs && id in w'.chans && w'.chans[id].closeCode == CLOSE_POLICY
    ensures Next(w, TrySend(id)).slow == w.slow + 1
  {
    StepKeepsInv(w, TrySend(id));
    EvictedLeaves(Next(w, TrySend(id)), rest, w', id);
  }

  // A client that has dropped its end goes too, uncounted and with its code.
  lemma DroppedReceiverLeaves(w: World, id: nat, rest: seq<Step>, w': World)
    requires Inv(w) && Enabled(w, TrySend(id)) && !w.chans[id].open
    requires Run(Next(w, TrySend(id)), rest, w') && w'.phase.Idle?
    ensures id !in w'.subs && id in w'.chans && w'.chans[id].closeCode == w.chans[id].closeCode
    ensures Next(w, TrySend(id)).slow == w.slow
  {
    StepKeepsInv(w, TrySend(id));
    EvictedLeaves(Next(w, TrySend(id)), rest, w', id);
  }

  // A token sweep removes exactly those whose token is not among the live ones,
  // with 1008; who has none stays, and everyone's frames stay.
  lemma KickRemovesExactly(w: World, live: set<string>, id: nat)
    requires Enabled(w, Kick(live))
    ensures var w' := Next(w, Kick(live));
      && (id in w'.subs <==> id in w.subs && (w.subs[id].Some? ==> w.subs[id].value in live))
      && (id in w'.subs ==> w'.subs[id] == w.subs[id])
      && w' == w.(subs := w'.subs, chans := w'.chans) && w'.chans.Keys == w.chans.Keys
      && (id in w.chans ==>
            w'.chans[id] == if id in w.subs && id !in w'.subs then w.chans[id].(closeCode := CLOSE_POLICY) else w.chans[id])
  {
  }

  // The same for a release by name, with the code given.
  lemma ReleaseRemovesExactly(w: World, ids: set<nat>, code: nat, id: nat)
    requires Enabled(w, Release(ids, code))
    ensures var w' := Next(w, Release(ids, code));
      && (id in w'.subs <==> id in w.subs && id !in ids)
      && (id in w'.subs ==> w'.subs[id] == w.subs[id])
      && w' == w.(subs := w'.subs, chans := w'.chans) && w'.chans.Keys == w.chans.Keys
      && (id in w.chans ==> w'.chans[id] == if id in ids then w.chans[id].(closeCode := code) else w.chans[id])
  {
  }

  lemma {:induction false} EvictedLeaves(w: World, steps: seq<Step>, w': World, id: nat)
    requires Inv(w) && Run(w, steps, w') && w'.phase.Idle?
    requires w.phase.Publishing? && id in w.phase.evicted
    ensures id !in w'.subs && id in w'.chans && w'.chans[id].closeCode == w.chans[id].closeCode
    decreases |steps|
  {
    hide Inv, Next, Enabled;
    var w1 := Next(w, steps[0]);
    StepKeepsInv(w, steps[0]);
    EvictedStep(w, steps[0], id);
    if w1.phase.Idle? {
      RemovedIsFrozen(w1, steps[1..], w', id);
    } else {
      EvictedLeaves(w1, steps[1..], w', id);
    }
  }

  lemma EvictedStep(w: World, step: Step, id: nat)
    requires Inv(w) && Enabled(w, step) && w.phase.Publishing? && id in w.phase.evicted
    ensures var w' := Next(w, step);
      && id in w.chans && id in w'.chans && w'.chans[id].closeCode == w.chans[id].closeCode
      && if w'.phase.Idle? then id !in w'.subs else id in w'.phase.evicted
  {
    hide ChanOk;
  }

  lemma {:induction false} RunSnoc(w: World, steps: seq<Step>, mid: World, step: Step)
    requires Run(w, steps, mid) && Enabled(mid, step)
    ensures Run(w, steps + [step], Next(mid, step))
    decreases |steps|
  {
    if steps == [] {
      assert [step][1..] == [];
    } else {
      RunSnoc(Next(w, steps[0]), steps[1..], mid, step);
      assert (steps + [step])[1..] == steps[1..] + [step];
    }
  }
}

module EdgeHub {
  import opened Basics
  import opened EdgeProtocol

  // The newest `n` frames of a log that grows.
  lemma SuffixMoves(log: seq<Frame>, n: nat, f: Frame)
    requires n <= |log|
    ensures var all := log + [f];
      && log[|log| - n..] + [f] == all[|all| - n - 1..]
      && (n > 0 ==> log[|log| - n..][1..] + [f] == all[|all| - n..])
  {
  }

  class FrameRing {
    const capacity: nat
    var frames: seq<Frame>
    var nextOffset: nat
    ghost var log: seq<Frame>

    ghost predicate Valid()
      reads this
    {
      && 1 <= capacity
      && |frames| == Min(|log|, capacity)
      && frames == log[|log| - |frames|..]
      && nextOffset == |log| + 1
    }

    constructor (capacity: nat)
      ensures Valid() && log == [] && this.capacity == Max(capacity, 1)
    {
      this.capacity := if capacity >= 1 then capacity else 1;
      frames, nextOffset, log := [], 1, [];
    }

    method Push(frame: Frame) returns (stored: Frame)
      requires Valid()
      modifies this
      ensures Valid()
      ensures stored == frame.(offset := |old(log)| + 1) && log == old(log) + [stored]
    {
      stored := frame.(offset := nextOffset);
      nextOffset := nextOffset + 1;
      SuffixMoves(log, |frames|, stored);
      if |frames| == capacity {
        frames := frames[1..];
      }
      frames := frames + [stored];
      log := log + [stored];
    }

    // The newest `n` frames, fewer when the ring holds fewer.
    function Tail(n: nat): (r: seq<Frame>)
      requires Valid()
      reads this
      ensures r == log[|log| - Min(n, |frames|)..]
    {
      var k := Min(n, |frames|);
      frames[|frames| - k..]
    }
  }

  class Hub {
    const ring: FrameRing
    const queueCapacity: nat
    var subs: map<nat, Option<string>>
    var chans: map<nat, Channel>
    var nextId: nat
    var deliveries: nat
    var slow: nat

    ghost predicate Valid()
      reads this, ring
    {
      ring.Valid() && Inv(Model())
    }

    ghost function Model(): World
      reads this, ring
    {
      World(ring.capacity, queueCapacity, ring.log, |ring.frames|, subs, chans, nextId, Idle, deliveries, slow)
    }

    constructor (ringCapacity: nat, queue: nat)
      ensures Valid() && fresh(ring) && Model() == Init(ringCapacity, queue)
    {
      ring := new FrameRing(ringCapacity);
      queueCapacity := if queue >= 1 then queue else 1;
      subs, chans, nextId, deliveries, slow := map[], map[], 1, 0, 0;
    }

    // One publish with nobody draining meanwhile is the run that tries every
    // registered queue exactly once.
    method Publish(frame: Frame) returns (stored: Frame, ghost tried: seq<nat>)
      requires Valid()
      modifies this, ring
      ensures Valid()
      ensures Run(old(Model()), [PublishBegin(frame)] + Tries(tried) + [PublishEnd], Model())
      ensures Distinct(tried) && Elements(tried) == old(subs).Keys
      ensures stored == frame.(offset := |old(ring.log)| + 1)
      ensures chans == OfferedAll(old(chans), old(subs).Keys, stored, queueCapacity)
      ensures subs == old(subs) - Refusing(old(chans), old(subs).Keys, queueCapacity)
      ensures deliveries == old(deliveries) + |subs|
      ensures slow == old(slow) + |Overfull(old(chans), old(subs).Keys, queueCapacity)|
    {
      hide Inv, Next, Run, Enabled, Offered, HasRoom, OfferedAll, Refusing, Overfull, Taking, Tries, Distinct, Elements;
      ghost var w0 := Model();
      SubsHaveChannels(w0);
      stored := ring.Push(frame);
      var evicted, delivered, slowNow;
      evicted, delivered, slowNow, tried := Offer(stored);
      PublishRun(w0, frame, tried);
      subs := subs - evicted;
      deliveries := deliveries + delivered;
      slow := slow + slowNow;
      TakingStay(w0.chans, w0.subs, queueCapacity);
    }

    // `try_send` on one queue: sent, found full, or found closed.
    method TrySend(c: Channel, stored: Frame) returns (c': Channel, sent: bool, full: bool)
      ensures c' == Offered(c, stored, queueCapacity)
      ensures sent == HasRoom(c, queueCapacity) && full == (c.open && !sent)
    {
      c', sent, full := c, false, false;
      if c.open {
        if |c.queue| < queueCapacity {
          c', sent := c.(queue := c.queue + [stored]), true;
        } else {
          c', full := c.(closeCode := CLOSE_POLICY), true;
        }
      }
    }

    // The fan-out loop of a publish.
    method Offer(stored: Frame) returns (evicted: set<nat>, delivered: nat, slowNow: nat, ghost tried: seq<nat>)
      requires subs.Keys <= chans.Keys
      modifies `chans
      ensures Distinct(tried) && Elements(tried) == subs.Keys
      ensures chans == OfferedAll(old(chans), subs.Keys, stored, queueCapacity)
      ensures evicted == Refusing(old(chans), subs.Keys, queueCapacity)
      ensures delivered == |Taking(old(chans), subs.Keys, queueCapacity)|
      ensures slowNow == |Overfull(old(chans), subs.Keys, queueCapacity)|
    {
      hide Offered, HasRoom, OfferedAll, Refusing, Overfull, Taking, Distinct, Elements;
      evicted, delivered, slowNow, tried := {}, 0, 0, [];
      var pending := subs.Keys;
      ghost var done := {};
      OfferNone(chans, stored, queueCapacity);
      NothingYet();
      while pending != {}
        modifies `chans
        invariant done + pending == subs.Keys && done !! pending
        invariant Distinct(tried) && Elements(tried) == done
        invariant chans == OfferedAll(old(chans), done, stored, queueCapacity)
        invariant evicted == Refusing(old(chans), done, queueCapacity)
        invariant delivered == |Taking(old(chans), done, queueCapacity)|
        invariant slowNow == |Overfull(old(chans), done, queueCapacity)|
        decreases pending
      {
        var id :| id in pending;
        OfferOneMore(old(chans), done, id, stored, queueCapacity);
        var c, sent, full := TrySend(chans[id], stored);
        chans := chans[id := c];
        CountOneMore(old(chans), done, id, queueCapacity);
        ElementsSnoc(tried, id);
        tried := tried + [id];
        if sent {
          delivered := delivered + 1;
          assert evicted + {} == evicted;
        } else {
          evicted := evicted + {id};
        }
        slowNow := slowNow + if full then 1 else 0;
        done := done + {id};
        pending := pending - {id};
      }
      assert done == subs.Keys;
    }

    method Subscribe(replay: nat, token: Option<string>) returns (id: nat, snapshot: seq<Frame>)
      requires Valid()
      modifies this
      ensures Valid() && Enabled(old(Model()), EdgeProtocol.Subscribe(replay, token))
      ensures Model() == Next(old(Model()), EdgeProtocol.Subscribe(replay, token))
      ensures id == old(nextId) && id !in old(chans) && chans[id].replay == snapshot
    {
      hide Inv, Next, Enabled;
      SubscribeEffect(Model(), replay, token);
      id := nextId;
      nextId := nextId + 1;
      snapshot := ring.Tail(replay);
      subs := subs[id := token];
      chans := chans[id := Channel(ring.nextOffset - 1 - |snapshot|, snapshot, [], [], true, CLOSE_NORMAL)];
    }

    method Unsubscribe(id: nat)
      requires Valid()
      modifies this
      ensures Valid() && Model() == Next(old(Model()), EdgeProtocol.Unsubscribe(id))
    {
      StepKeepsInv(Model(), EdgeProtocol.Unsubscribe(id));
      subs := subs - {id};
    }

    // Up to `n` subscribers, in the order of the map's iteration.
    method FirstIds(n: nat) returns (ids: set<nat>)
      ensures ids <= subs.Keys && |ids| == Min(n, |subs|)
    {
      ids := {};
      var left := subs.Keys;
      while |ids| < n && left != {}
        invariant left + ids == subs.Keys && left !! ids && |ids| <= n
        decreases left
      {
        var id :| id in left;
        left := left - {id};
        ids := ids + {id};
      }
      assert |subs.Keys| == |left| + |ids|;
    }

    // Those whose token is not among the live ones.
    method TokenIds(live: set<string>) returns (ids: set<nat>)
      ensures ids == Rejected(Model(), live)
    {
      ids := {};
      var left := subs.Keys;
      while left != {}
        invariant left <= subs.Keys
        invariant ids == set id | id in subs && id !in left && subs[id].Some? && subs[id].value !in live
        decreases left
      {
        var id :| id in left;
        left := left - {id};
        if subs[id].Some? && subs[id].value !in live {
          ids := ids + {id};
        }
      }
    }

    // Takes the subscribers out, telling their writers why.
    method RemoveAll(ids: set<nat>, code: nat)
      requires ids <= subs.Keys <= chans.Keys
      modifies `subs, `chans
      ensures Model() == Closed(old(Model()), ids, code)
    {
      hide Closed;
      ghost var w0 := Model();
      var left := ids;
      ClosedNone(w0, code);
      assert ids - left == {};
      while left != {}
        invariant left <= ids <= chans.Keys
        invariant Model() == Closed(w0, ids - left, code)
        decreases left
      {
        var id :| id in left;
        ClosedOneMore(w0, ids - left, id, code);
        assert (ids - left) + {id} == ids - (left - {id});
        left := left - {id};
        subs := subs - {id};
        chans := chans[id := chans[id].(closeCode := code)];
      }
      assert ids - {} == ids;
    }

    // Which subscribers go is up to the map's iteration order; how many is not.
    method Release(n: nat, code: nat) returns (released: nat, ghost ids: set<nat>)
      requires Valid()
      modifies this
      ensures Valid() && Enabled(old(Model()), EdgeProtocol.Release(ids, code))
      ensures Model() == Next(old(Model()), EdgeProtocol.Release(ids, code))
      ensures released == |ids| == Min(n, |old(subs)|)
      ensures ids <= old(subs).Keys && subs == old(subs) - ids
      ensures forall id :: id in ids ==> id in chans && chans[id].closeCode == code
    {
      hide Inv, Closed, Next;
      ghost var w0 := Model();
      SubsHaveChannels(w0);
      var going := FirstIds(n);
      RemoveAll(going, code);
      released, ids := |going|, going;
      ReleaseEffect(w0, ids, code);
      ClosedWith(w0, ids, code);
    }

    method KickTokens(live: set<string>) returns (kicked: nat)
      requires Valid()
      modifies this
      ensures Valid() && Model() == Next(old(Model()), Kick(live))
      ensures forall id :: id in subs <==> id in old(subs) && (old(subs)[id].Some? ==> old(subs)[id].value in live)
      ensures forall id :: id in old(subs) && id !in subs ==> id in chans && chans[id].closeCode == CLOSE_POLICY
      ensures kicked == |old(subs)| - |subs|
    {
      hide Inv, Enabled, Next, Closed;
      ghost var w0 := Model();
      SubsHaveChannels(w0);
      KickEffect(w0, live);
      var ids := TokenIds(live);
      RemoveAll(ids, CLOSE_POLICY);
      kicked := |ids|;
      ClosedWith(w0, ids, CLOSE_POLICY);
      assert w0.subs.Keys == subs.Keys + ids && |w0.subs.Keys| == |subs.Keys| + |ids|;
    }

    // The client's end of its queue.
    method Receive(id: nat) returns (frame: Option<Frame>)
      requires Valid() && id in chans && chans[id].open
      modifies this
      ensures Valid()
      ensures frame == if old(chans[id].queue) == [] then None else Some(old(chans[id].queue)[0])
      ensures Model() == if frame.None? then old(Model()) else Next(old(Model()), EdgeProtocol.Receive(id))
    {
      var c := chans[id];
      if c.queue == [] {
        return None;
      }
      StepKeepsInv(Model(), EdgeProtocol.Receive(id));
      frame := Some(c.queue[0]);
      chans := chans[id := c.(received := c.received + [c.queue[0]], queue := c.queue[1..])];
    }
  }
}
