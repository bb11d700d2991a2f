/** The whole path of an event, composed: from racing deliveries over batches,
    frames, the server's ring and the edge's link to the clients of the edge. */
module EndToEnd {
  import opened Basics
  import opened FrameReplay
  import EdgeDelivery
  import EdgeProtocol

  // ----- delivery and fan-out together -----

  // Receiving a frame and beginning its publication are one thing to the edge;
  // everything else about the hub goes on independently.
  datatype Chain = Chain(delivery: EdgeDelivery.World, hub: EdgeProtocol.World)

  datatype Move =
    | Deliver(event: EdgeDelivery.Event)
    | ReceiveAndPublish(recvAtUs: nat)
    | Hub(step: EdgeProtocol.Step)

  // The frame `on_frame` hands to the hub, which numbers it.
  function Handed(e: EdgeDelivery.Edge, f: WireFrame, recvAtUs: nat): EdgeProtocol.Frame {
    EdgeProtocol.Frame(0, f.batchSequence, EdgeDelivery.OnFrame(e, f).lastEventSequence, f.bytes, recvAtUs)
  }

  // What can happen at all; the server may broadcast any frame.
  ghost predicate Possible(c: Chain, m: Move): (yes: bool)
    ensures yes && m.Deliver? ==> EdgeDelivery.Possible(c.delivery, m.event)
  {
    match m
    case Deliver(e) => !e.Receive? && EdgeDelivery.Possible(c.delivery, e)
    case ReceiveAndPublish(_) => EdgeDelivery.Possible(c.delivery, EdgeDelivery.Receive) && c.hub.phase.Idle?
    case Hub(step) => !step.PublishBegin? && EdgeProtocol.Enabled(c.hub, step)
  }

  // The same with frames that rise and that the edge can decode.
  ghost predicate Enabled(c: Chain, m: Move): (yes: bool)
    ensures yes ==> Possible(c, m)
  {
    Possible(c, m) && (m.Deliver? ==> EdgeDelivery.Enabled(c.delivery, m.event))
  }

  ghost function Next(c: Chain, m: Move): Chain
    requires FrameReplay.Inv(c.delivery.up) && Possible(c, m)
  {
    match m
    case Deliver(e) => c.(delivery := EdgeDelivery.Step(c.delivery, e))
    case ReceiveAndPublish(at) =>
      Chain(EdgeDelivery.Step(c.delivery, EdgeDelivery.Receive),
            EdgeProtocol.Next(c.hub, EdgeProtocol.PublishBegin(Handed(c.delivery.edge, c.delivery.link.wire[0], at))))
    case Hub(step) => c.(hub := EdgeProtocol.Next(c.hub, step))
  }

  // Any run, whatever the server broadcasts.
  ghost predicate RunAny(c: Chain, moves: seq<Move>, c': Chain)
    decreases |moves|
  {
    if moves == [] then c' == c
    else FrameReplay.Inv(c.delivery.up) && Possible(c, moves[0]) && RunAny(Next(c, moves[0]), moves[1..], c')
  }

  ghost predicate Run(c: Chain, moves: seq<Move>, c': Chain)
    decreases |moves|
  {
    if moves == [] then c' == c
    else FrameReplay.Inv(c.delivery.up) && Enabled(c, moves[0]) && Run(Next(c, moves[0]), moves[1..], c')
  }

  // A frame of the hub carries the server's frame: its bytes, its batch number and
  // its last sequence.
  ghost predicate Carries(h: EdgeProtocol.Frame, f: WireFrame) {
    h.bytes == f.bytes && h.batchSequence == f.batchSequence && h.eventSequence == f.lastSequence
  }

  // The hub's log is what the edge has republished.
  ghost predicate Coupled(c: Chain) {
    && |c.hub.log| == |c.delivery.edge.published|
    && forall i :: 0 <= i < |c.hub.log| ==> Carries(c.hub.log[i], c.delivery.edge.published[i])
  }

  ghost predicate Inv(c: Chain) {
    EdgeDelivery.Inv(c.delivery) && EdgeProtocol.Inv(c.hub) && Coupled(c)
  }

  lemma InvParts(c: Chain)
    requires Inv(c)
    ensures FrameReplay.Inv(c.delivery.up)
  {
    EdgeDelivery.OrderedInv(c.delivery.up);
  }

  function Init(capacity: nat, prior: nat, base: string, ringCapacity: nat, queueCapacity: nat): Chain {
    Chain(EdgeDelivery.Init(capacity, prior, base), EdgeProtocol.Init(ringCapacity, queueCapacity))
  }

  lemma InitInv(capacity: nat, prior: nat, base: string, ringCapacity: nat, queueCapacity: nat)
    requires EdgeDelivery.UrlOk(base)
    ensures Inv(Init(capacity, prior, base, ringCapacity, queueCapacity))
  {
    hide EdgeDelivery.UrlOk;
    EdgeDelivery.InitInv(capacity, prior, base);
    EdgeProtocol.InitInv(ringCapacity, queueCapacity);
  }

  lemma HubKeepsLog(w: EdgeProtocol.World, step: EdgeProtocol.Step)
    requires EdgeProtocol.Enabled(w, step) && !step.PublishBegin?
    ensures EdgeProtocol.Next(w, step).log == w.log
  {
  }

  lemma OnlyReceivePublishes(w: EdgeDelivery.World, e: EdgeDelivery.Event)
    requires FrameReplay.Inv(w.up) && EdgeDelivery.Enabled(w, e) && !e.Receive?
    ensures EdgeDelivery.Step(w, e).edge.published == w.edge.published
  {
    hide EdgeDelivery.Asked;
  }

  lemma HandsOver(c: Chain, at: nat)
    requires Inv(c) && EdgeDelivery.Possible(c.delivery, EdgeDelivery.Receive)
    ensures var f := c.delivery.link.wire[0]; Carries(Handed(c.delivery.edge, f, at), f)
  {
    hide EdgeProtocol.Inv, FrameReplay.Inv, EdgeDelivery.LinkContinues, EdgeDelivery.PublishedIsSlice;
    EdgeDelivery.ReceivedFrame(c.delivery.up, c.delivery.link);
  }

  lemma MoveKeepsInv(c: Chain, m: Move)
    requires Inv(c) && Enabled(c, m)
    ensures FrameReplay.Inv(c.delivery.up) && Inv(Next(c, m))
  {
    hide EdgeDelivery.Inv, EdgeProtocol.Inv, FrameReplay.Inv, EdgeDelivery.Asked;
    InvParts(c);
    match m
    case Deliver(e) =>
      EdgeDelivery.StepKeepsInv(c.delivery, e);
      OnlyReceivePublishes(c.delivery, e);
    case ReceiveAndPublish(at) =>
      HandsOver(c, at);
      EdgeDelivery.StepKeepsInv(c.delivery, EdgeDelivery.Receive);
      EdgeProtocol.StepKeepsInv(c.hub, EdgeProtocol.PublishBegin(Handed(c.delivery.edge, c.delivery.link.wire[0], at)));
    case Hub(step) =>
      EdgeProtocol.StepKeepsInv(c.hub, step);
      HubKeepsLog(c.hub, step);
  }

  // What a client holds carries, byte for byte, consecutive frames of the
  // server's log.
  ghost predicate ClientSees(c: Chain, id: nat)
    requires id in c.hub.chans
  {
    var s, at := c.hub.chans[id].Stream(), c.delivery.first + c.hub.chans[id].start;
    s != [] ==>
      && at + |s| <= |c.delivery.up.log|
      && forall i :: 0 <= i < |s| ==> Carries(s[i], c.delivery.up.log[at + i])
  }

  lemma ClientSeesUpstream(c: Chain, id: nat)
    requires Inv(c) && !c.delivery.edge.cursorRejected && id in c.hub.chans
    ensures ClientSees(c, id)
  {
    hide EdgeDelivery.Ordered, EdgeDelivery.LinkOk, EdgeDelivery.LinkContinues, EdgeDelivery.UrlOk;
    assert EdgeProtocol.ChanOk(c.hub, id);
    var chan, p := c.hub.chans[id], c.delivery.edge.published;
    forall i | 0 <= i < |chan.Stream()|
      ensures chan.start + i < |p| && Carries(chan.Stream()[i], c.delivery.up.log[c.delivery.first + chan.start + i])
    {
      assert chan.Stream()[i] == c.hub.log[chan.start + i];
      assert p[chan.start + i] == c.delivery.up.log[c.delivery.first + chan.start + i];
    }
  }

  // In every run of the chain, with the link breaking, the server restarting
  // and clients coming, going and lagging at any moment, and until a cursor is
  // rejected, every client of the edge holds an unbroken stretch of the server's
  // log.
  lemma {:induction false} EveryClientSeesUpstream(c: Chain, moves: seq<Move>, c': Chain)
    requires Inv(c) && Run(c, moves, c')
    ensures Inv(c')
    ensures !c'.delivery.edge.cursorRejected ==> forall id :: id in c'.hub.chans ==> ClientSees(c', id)
    decreases |moves|
  {
    hide Inv, Next, Enabled, ClientSees;
    if moves == [] {
      if !c'.delivery.edge.cursorRejected {
        forall id | id in c'.hub.chans ensures ClientSees(c', id) {
          ClientSeesUpstream(c', id);
        }
      }
    } else {
      MoveKeepsInv(c, moves[0]);
      EveryClientSeesUpstream(Next(c, moves[0]), moves[1..], c');
    }
  }
}

/** Where the frames come from: racing deliveries, batched and encoded by one
    server process after another, give exactly what the delivery machine asks of
    the frames, and so reach every client of the edge. */
module Origin {
  import opened Basics
  import opened FrameReplay
  import opened EndToEnd
  import Batcher
  import EdgeDelivery
  import FrameWire
  import ProtoWire
  import Racing

  // ----- from the race to the batcher -----

  // A race in which no number for the batcher is drawn while another is out.
  datatype Race = Race(capacity: nat, recovered: seq<Racing.Record>, ids: set<nat>, steps: seq<Racing.Step>, end: Racing.State)

  ghost predicate OrderlyRace(r: Race) {
    var start := Racing.Init(r.capacity, r.recovered, r.ids);
    Racing.Run(start, r.steps, r.end) && Racing.Orderly(start, r.steps)
  }

  // The events it has handed over.
  ghost predicate HandedOver(r: Race, events: seq<Batcher.Event>) {
    |events| == |r.end.batched| && forall i :: 0 <= i < |events| ==> events[i].sequence == r.end.batched[i].sequence
  }

  // What an orderly race hands to the batcher rises past everything recovered.
  lemma RaceFeedsRising(r: Race, events: seq<Batcher.Event>)
    requires OrderlyRace(r) && HandedOver(r, events)
    ensures Batcher.Rising(Racing.HighestSequence(r.recovered), events)
  {
    hide Racing.Run, Racing.Orderly, Racing.Init;
    Racing.InitInOrder(r.capacity, r.recovered, r.ids);
    Racing.OrderlyRunsRise(Racing.Init(r.capacity, r.recovered, r.ids), r.steps, r.end, Racing.HighestSequence(r.recovered));
  }

  lemma RisingPrefix(prior: nat, events: seq<Batcher.Event>, n: nat)
    requires Batcher.Rising(prior, events) && n <= |events|
    ensures Batcher.Rising(prior, events[..n])
  {
  }

  // ----- from batches to frames -----

  // How a server encodes: its settings, its clock per batch, and the fields of
  // each event besides its sequence.
  datatype Encoding = Encoding(
    config: FrameWire.WireConfig, sentAt: nat -> nat, others: nat -> seq<ProtoWire.Field>,
    compress: Bytes -> Option<Bytes>, decompress: (Bytes, nat) -> Option<Bytes>)

  function FieldsOf(enc: Encoding, events: seq<Batcher.Event>): (fs: seq<FrameWire.EventFields>)
    ensures |fs| == |events|
    ensures forall i :: 0 <= i < |fs| ==> fs[i] == FrameWire.EventFields(events[i].sequence, enc.others(events[i].sequence))
  {
    seq(|events|, i requires 0 <= i < |events| => FrameWire.EventFields(events[i].sequence, enc.others(events[i].sequence)))
  }

  function Encode(enc: Encoding, number: nat, events: seq<Batcher.Event>): Result<FrameWire.EncodedFrame, FrameWire.WireError> {
    FrameWire.EncodeFrame(number, enc.sentAt(number), FieldsOf(enc, events), enc.config, enc.compress)
  }

  // The server's limit is within the edge's, and values fit their fields.
  ghost predicate EncodingOk(enc: Encoding) {
    && FrameWire.ZstdOk(enc.compress, enc.decompress)
    && enc.config.maxDecompressed <= FrameWire.MAX_DECOMPRESSED
    && (forall n :: enc.sentAt(n) < POW_64)
    && (forall n: nat :: n < POW_64 ==> FrameWire.EventOk(FrameWire.EventFields(n, enc.others(n))))
  }

  ghost predicate Encodes(enc: Encoding, b: Batcher.Batch) {
    Encode(enc, b.number, b.events).Ok?
  }

  function EncodeSucceeds(enc: Encoding): (nat, seq<Batcher.Event>) -> bool {
    (number: nat, events: seq<Batcher.Event>) => Encode(enc, number, events).Ok?
  }

  // The batch's frame, with what the edge reads off its bytes.
  function FrameFor(enc: Encoding, b: Batcher.Batch): WireFrame
    requires Encodes(enc, b)
  {
    FrameWire.Announced(Encode(enc, b.number, b.events).value, enc.decompress)
  }

  // The frames of the batches that were published.
  ghost function FramesFor(enc: Encoding, batches: seq<Batcher.Batch>): (frames: seq<WireFrame>)
    requires forall b <- Batcher.Published(batches) :: Encodes(enc, b)
    ensures |frames| == |Batcher.Published(batches)|
    ensures forall i :: 0 <= i < |frames| ==> frames[i] == FrameFor(enc, Batcher.Published(batches)[i])
  {
    var published := Batcher.Published(batches);
    seq(|published|, i requires 0 <= i < |published| => assert published[i] in published; FrameFor(enc, published[i]))
  }

  ghost predicate BatchOk(b: Batcher.Batch) {
    b.events != [] && b.number < POW_64 && forall i :: 0 <= i < |b.events| ==> b.events[i].sequence < POW_64
  }

  // ----- one server process -----

  // A process with its race, the events the race handed over, and what the
  // batcher and the encoder made of them.
  datatype Process = Process(race: Race, events: seq<Batcher.Event>, config: Batcher.Config, enc: Encoding,
                             batches: seq<Batcher.Batch>)

  ghost predicate ProcessOk(p: Process) {
    && OrderlyRace(p.race) && HandedOver(p.race, p.events)
    && (forall i :: 0 <= i < |p.events| ==> p.events[i].sequence < POW_64)
    && EncodingOk(p.enc)
    && Batcher.Outcome(p.config, p.events, EncodeSucceeds(p.enc), p.batches)
  }

  // What the batcher promises of its batches, with sequences of 64 bits.
  lemma BatcherGivesGoodBatches(cfg: Batcher.Config, batches: seq<Batcher.Batch>)
    requires Batcher.Numbered(batches)
    requires forall i :: 0 <= i < |batches| ==> Batcher.WithinLimits(cfg, batches[i].events)
    requires forall b <- batches, e <- b.events :: e.sequence < POW_64
    ensures forall b <- batches :: BatchOk(b)
  {
    forall b | b in batches ensures BatchOk(b) {
      var i :| 0 <= i < |batches| && batches[i] == b;
      assert b.number == Batcher.NextNumber(Batcher.NumberBefore(batches, i));
      forall j | 0 <= j < |b.events| ensures b.events[j].sequence < POW_64 {
        assert b.events[j] in b.events;
      }
    }
  }

  lemma {:induction false} BatchedIsFlattened(batches: seq<Batcher.Batch>, b: Batcher.Batch, e: Batcher.Event)
    requires b in batches && e in b.events
    ensures e in Batcher.Flatten(batches)
  {
    if b != batches[|batches| - 1] {
      BatchedIsFlattened(batches[..|batches| - 1], b, e);
    }
  }

  lemma {:induction false} PublishedAreBatches(batches: seq<Batcher.Batch>, b: Batcher.Batch)
    requires b in Batcher.Published(batches)
    ensures b in batches && b.published
  {
    if batches != [] && !(b.published && b == batches[|batches| - 1]) {
      PublishedAreBatches(batches[..|batches| - 1], b);
    }
  }

  // Every batch of a process fits its fields, and the published ones are those
  // that encode.
  lemma ProcessBatches(p: Process)
    requires ProcessOk(p)
    ensures forall b <- p.batches :: BatchOk(b)
    ensures forall b <- Batcher.Published(p.batches) :: Encodes(p.enc, b)
  {
    hide OrderlyRace, HandedOver, EncodingOk, BatchOk, Encode, Batcher.Numbered, Batcher.WithinLimits, Batcher.Flatten,
         Batcher.Published;
    forall b, e | b in p.batches && e in b.events ensures e.sequence < POW_64 {
      BatchedIsFlattened(p.batches, b, e);
      assert e in p.events;
    }
    BatcherGivesGoodBatches(p.config, p.batches);
    forall b | b in Batcher.Published(p.batches) ensures Encodes(p.enc, b) {
      PublishedAreBatches(p.batches, b);
      var i :| 0 <= i < |p.batches| && p.batches[i] == b;
    }
  }

  ghost function FramesOf(p: Process): seq<WireFrame>
    requires ProcessOk(p)
  {
    ProcessBatches(p);
    FramesFor(p.enc, p.batches)
  }

  lemma EncodedFrameIsOk(enc: Encoding, prior: nat, b: Batcher.Batch)
    requires EncodingOk(enc) && BatchOk(b) && Batcher.Rising(prior, b.events) && Encodes(enc, b)
    ensures var f := FrameFor(enc, b);
      Batcher.FrameOf(f, b) && f.batchSequence == b.number && f.decoded == f.lastSequence < POW_64
  {
    hide FrameWire.ZstdOk, FrameWire.EventOk, FrameWire.ParseFrame, FrameWire.Payload, FrameWire.Framed;
    var fs := FieldsOf(enc, b.events);
    assert forall e <- fs :: FrameWire.EventOk(e) && e.sequence > 0;
    FrameWire.EdgeDecodesLastIff(b.number, enc.sentAt(b.number), fs, enc.config, enc.compress, enc.decompress);
  }

  lemma {:induction false} BatchesRise(prior: nat, batches: seq<Batcher.Batch>, b: Batcher.Batch)
    requires Batcher.Rising(prior, Batcher.Flatten(batches)) && b in batches
    ensures Batcher.Rising(prior, b.events)
  {
    hide Batcher.Rising;
    var n := |batches| - 1;
    Batcher.RisingParts(prior, Batcher.Flatten(batches[..n]), batches[n].events);
    if b != batches[n] {
      assert batches == batches[..n] + [batches[n]];
      BatchesRise(prior, batches[..n], b);
    }
  }

  ghost predicate FramesOk(prior: nat, frames: seq<WireFrame>) {
    Increasing(prior, frames) && forall i :: 0 <= i < |frames| ==> frames[i].decoded == frames[i].lastSequence < POW_64
  }

  // Rising events, batched and encoded, come out as frames that rise and that
  // the edge can read.
  lemma BatchesGiveGoodFrames(enc: Encoding, prior: nat, batches: seq<Batcher.Batch>)
    requires EncodingOk(enc) && Batcher.Rising(prior, Batcher.Flatten(batches))
    requires (forall b <- batches :: BatchOk(b)) && forall b <- Batcher.Published(batches) :: Encodes(enc, b)
    ensures FramesOk(prior, FramesFor(enc, batches))
  {
    hide Encodes, EncodingOk, Batcher.Rising, Batcher.Flatten, Batcher.Published, Increasing, FrameFor, FramesFor;
    var published, frames := Batcher.Published(batches), FramesFor(enc, batches);
    forall i | 0 <= i < |frames|
      ensures Batcher.FrameOf(frames[i], published[i]) && frames[i].decoded == frames[i].lastSequence < POW_64
    {
      assert published[i] in published;
      PublishedAreBatches(batches, published[i]);
      BatchesRise(prior, batches, published[i]);
      EncodedFrameIsOk(enc, prior, published[i]);
    }
    assert forall i :: 0 <= i < |batches| ==> batches[i] in batches;
    Batcher.FramesIncrease(prior, batches, frames);
  }

  // The frames of one process rise past everything it recovered, and the edge
  // can read them.
  lemma ProcessGivesGoodFrames(p: Process)
    requires ProcessOk(p)
    ensures FramesOk(Racing.HighestSequence(p.race.recovered), FramesOf(p))
  {
    hide OrderlyRace, HandedOver, EncodingOk, Batcher.Rising, Batcher.Flatten, Batcher.Numbered, BatchOk, FramesFor;
    var since := Racing.HighestSequence(p.race.recovered);
    ProcessBatches(p);
    RaceFeedsRising(p.race, p.events);
    var n := |Batcher.Flatten(p.batches)|;
    RisingPrefix(since, p.events, n);
    assert p.events[..n] == Batcher.Flatten(p.batches);
    BatchesGiveGoodFrames(p.enc, since, p.batches);
  }

  // ----- one process after another -----

  // Each process resumes at or past everything broadcast before it.
  ghost predicate OneAfterAnother(prior: nat, ps: seq<Process>)
    requires forall p <- ps :: ProcessOk(p)
    decreases |ps|
  {
    ps == [] ||
    var init, last := ps[..|ps| - 1], ps[|ps| - 1];
    && OneAfterAnother(prior, init) && prior <= Racing.HighestSequence(last.race.recovered)
    && forall f <- AllFrames(init) :: f.lastSequence <= Racing.HighestSequence(last.race.recovered)
  }

  ghost function AllFrames(ps: seq<Process>): seq<WireFrame>
    requires forall p <- ps :: ProcessOk(p)
    decreases |ps|
  {
    if ps == [] then [] else AllFrames(ps[..|ps| - 1]) + FramesOf(ps[|ps| - 1])
  }

  // A later process that resumes past everything broadcast goes on rising.
  lemma NextProcessGoesOn(prior: nat, a: seq<WireFrame>, resumed: nat, b: seq<WireFrame>)
    requires FramesOk(prior, a) && FramesOk(resumed, b) && prior <= resumed
    requires forall f <- a :: f.lastSequence <= resumed
    ensures FramesOk(prior, a + b)
  {
    var all := a + b;
    assert forall i :: 0 <= i < |a| ==> all[i] == a[i] && a[i] in a;
    assert forall i :: |a| <= i < |all| ==> all[i] == b[i - |a|];
  }

  lemma {:induction false} ProcessesGiveGoodFrames(prior: nat, ps: seq<Process>)
    requires (forall p <- ps :: ProcessOk(p)) && OneAfterAnother(prior, ps)
    ensures FramesOk(prior, AllFrames(ps))
    decreases |ps|
  {
    hide ProcessOk, FramesOk, FramesOf;
    if ps == [] {
      NoFrames(prior);
    } else {
      var init, last := ps[..|ps| - 1], ps[|ps| - 1];
      ProcessesGiveGoodFrames(prior, init);
      ProcessGivesGoodFrames(last);
      NextProcessGoesOn(prior, AllFrames(init), Racing.HighestSequence(last.race.recovered), FramesOf(last));
    }
  }

  lemma NoFrames(prior: nat)
    ensures FramesOk(prior, [])
  {
  }

  // ----- the whole path -----

  // The frames broadcast in the course of `moves`.
  function Sent(moves: seq<Move>): seq<WireFrame> {
    if moves == [] then []
    else (if moves[0].Deliver? && moves[0].event.NewFrame? then [moves[0].event.frame] else []) + Sent(moves[1..])
  }

  lemma SentCons(m: Move, moves: seq<Move>)
    ensures Sent([m] + moves) == Sent([m]) + Sent(moves)
  {
    assert ([m] + moves)[1..] == moves && [m][1..] == [];
    assert Sent([]) == [];
  }

  lemma MoveGrowsLog(c: Chain, m: Move)
    requires FrameReplay.Inv(c.delivery.up) && Possible(c, m)
    ensures EndToEnd.Next(c, m).delivery.up.log == c.delivery.up.log + Sent([m])
    ensures EndToEnd.Next(c, m).delivery.up.prior == c.delivery.up.prior
  {
    hide EdgeDelivery.Asked, FrameReplay.Inv;
    assert [m][1..] == [];
    assert c.delivery.up.log + [] == c.delivery.up.log;
  }

  // A frame that goes on from the log as the machine asks may be broadcast.
  lemma NextFrameIsEnabled(c: Chain, rest: seq<WireFrame>)
    requires rest != [] && FramesOk(c.delivery.up.prior, c.delivery.up.log + rest)
    ensures EndToEnd.Enabled(c, Deliver(EdgeDelivery.NewFrame(rest[0])))
  {
    hide Increasing;
    var all, n := c.delivery.up.log + rest, |c.delivery.up.log|;
    assert all[..n + 1] == c.delivery.up.log + [rest[0]] && all[n] == rest[0];
    IncreasingPrefix(c.delivery.up.prior, all, n + 1);
  }

  // A run that broadcasts good frames is a run of the machine, whose guard
  // thereby asks for nothing the server does not give.
  lemma {:induction false} RunAnyIsRun(c: Chain, moves: seq<Move>, c': Chain, rest: seq<WireFrame>)
    requires EndToEnd.Inv(c) && RunAny(c, moves, c') && Sent(moves) <= rest
    requires FramesOk(c.delivery.up.prior, c.delivery.up.log + rest)
    ensures EndToEnd.Run(c, moves, c') && c'.delivery.up.log == c.delivery.up.log + Sent(moves)
    decreases |moves|
  {
    hide EndToEnd.Inv, EndToEnd.Next, FramesOk, FrameReplay.Inv, EdgeDelivery.Enabled;
    if moves == [] {
      assert c.delivery.up.log + [] == c.delivery.up.log;
    } else {
      var m, log := moves[0], c.delivery.up.log;
      var head := Sent([m]);
      assert moves == [m] + moves[1..];
      SentCons(m, moves[1..]);
      hide Sent;
      FirstMoveIsEnabled(c, m, rest, head);
      MoveKeepsInv(c, m);
      MoveGrowsLog(c, m);
      var rest' := rest[|head|..];
      assert (log + head) + rest' == log + rest;
      RunAnyIsRun(EndToEnd.Next(c, m), moves[1..], c', rest');
      assert (log + head) + Sent(moves[1..]) == log + Sent(moves);
    }
  }

  lemma FirstMoveIsEnabled(c: Chain, m: Move, rest: seq<WireFrame>, head: seq<WireFrame>)
    requires Possible(c, m) && FramesOk(c.delivery.up.prior, c.delivery.up.log + rest)
    requires head == Sent([m]) && head <= rest
    ensures EndToEnd.Enabled(c, m)
  {
    hide FramesOk;
    assert [m][1..] == [];
    if m.Deliver? && m.event.NewFrame? {
      assert head == [m.event.frame] && head[0] == rest[0];
      NextFrameIsEnabled(c, rest);
    }
  }

  // What the client holds are the frames from one of them on, byte for byte and
  // with their numbers.
  ghost predicate ClientGets(frames: seq<WireFrame>, c: Chain, id: nat)
    requires id in c.hub.chans
  {
    var stream, at := c.hub.chans[id].Stream(), c.delivery.first + c.hub.chans[id].start;
    forall i :: 0 <= i < |stream| ==> at + i < |frames| && Carries(stream[i], frames[at + i])
  }

  lemma ClientGetsFrames(frames: seq<WireFrame>, c: Chain, id: nat)
    requires id in c.hub.chans && ClientSees(c, id) && c.delivery.up.log <= frames
    ensures ClientGets(frames, c, id)
  {
    var stream, at := c.hub.chans[id].Stream(), c.delivery.first + c.hub.chans[id].start;
    forall i | 0 <= i < |stream| ensures at + i < |frames| && Carries(stream[i], frames[at + i]) {
      assert c.delivery.up.log[at + i] == frames[at + i];
    }
  }

  // Good frames, broadcast over any history of the link, reach every client of
  // the edge, from the first one it gets on without gap or repeat.
  lemma GoodFramesReachClients(frames: seq<WireFrame>, c0: Chain, moves: seq<Move>, c: Chain, id: nat)
    requires FramesOk(c0.delivery.up.prior, frames) && Sent(moves) <= frames
    requires EndToEnd.Inv(c0) && c0.delivery.up.log == [] && RunAny(c0, moves, c)
    requires !c.delivery.edge.cursorRejected && id in c.hub.chans
    ensures ClientGets(frames, c, id)
  {
    hide EndToEnd.Inv, EndToEnd.Run, RunAny, FramesOk, ClientSees, ClientGets, Sent;
    assert [] + frames == frames && [] + Sent(moves) == Sent(moves);
    RunAnyIsRun(c0, moves, c, frames);
    EveryClientSeesUpstream(c0, moves, c);
    ClientGetsFrames(frames, c, id);
  }

  // The batches of rising events, encoded and broadcast.
  lemma BatchesReachClients(enc: Encoding, batches: seq<Batcher.Batch>, c0: Chain, moves: seq<Move>, c: Chain, id: nat)
    requires EncodingOk(enc) && Batcher.Rising(c0.delivery.up.prior, Batcher.Flatten(batches))
    requires (forall b <- batches :: BatchOk(b)) && forall b <- Batcher.Published(batches) :: Encodes(enc, b)
    requires EndToEnd.Inv(c0) && c0.delivery.up.log == [] && RunAny(c0, moves, c)
    requires Sent(moves) <= FramesFor(enc, batches)
    requires !c.delivery.edge.cursorRejected && id in c.hub.chans
    ensures ClientGets(FramesFor(enc, batches), c, id)
  {
    hide EndToEnd.Inv, RunAny, FramesOk, ClientGets, Sent, FramesFor, Batcher.Flatten, Batcher.Published, EncodingOk, BatchOk, Encodes;
    BatchesGiveGoodFrames(enc, c0.delivery.up.prior, batches);
    GoodFramesReachClients(FramesFor(enc, batches), c0, moves, c, id);
  }

  // From the races to the client: what the orderly races of one process after
  // another hand over reaches every client of the edge, as the encoded frames of
  // the published batches, each following on the one before. Nothing is asked of
  // the run but that these are the frames broadcast.
  lemma FromRaceToClient(ps: seq<Process>, c0: Chain, moves: seq<Move>, c: Chain, id: nat)
    requires (forall p <- ps :: ProcessOk(p)) && OneAfterAnother(c0.delivery.up.prior, ps)
    requires EndToEnd.Inv(c0) && c0.delivery.up.log == [] && RunAny(c0, moves, c) && Sent(moves) <= AllFrames(ps)
    requires !c.delivery.edge.cursorRejected && id in c.hub.chans
    ensures ClientGets(AllFrames(ps), c, id)
  {
    hide ProcessOk, OneAfterAnother, EndToEnd.Inv, RunAny, FramesOk, ClientGets, Sent, AllFrames;
    ProcessesGiveGoodFrames(c0.delivery.up.prior, ps);
    GoodFramesReachClients(AllFrames(ps), c0, moves, c, id);
  }
}
