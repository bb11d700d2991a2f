/** The racing processor and its dedup ring (src/pipeline.rs, src/hub.rs,
    src/stats.rs). Several upstream feeds deliver the same log; each delivery
    runs through the steps of `Processor::process`, and any two deliveries may
    interleave between those steps. */
module Racing {
  import opened Basics
  import opened MapSum

  datatype EventKey = EventKey(transactionHash: Bytes, logIndex: nat, removed: bool)

  datatype Record = Record(sequence: nat, key: EventKey)

  // What a delivered log decodes to: nothing, or a key and whether the event
  // will be broadcast (enriched and not on the forfeit list).
  datatype Raw = Undecodable | Decodable(key: EventKey, forward: bool)

  // Where one delivery stands.
  datatype Racer =
    | Resting
    | Decoding(source: string, raw: Raw)
    | Checking(source: string, key: EventKey, forward: bool)
    | Drawing(source: string, key: EventKey, forward: bool)
    | Inserting(source: string, record: Record, forward: bool)
    | Losing(source: string)                                  // counted as duplicate, race not tallied
    | Winning(source: string, record: Record, forward: bool)  // inserted, race not tallied
    | Finishing(record: Record, forward: bool)                // tallied, not yet counted as decoded

  datatype Tally = Tally(received: map<string, int>, won: map<string, int>)

  // `accepted` is the history of successful inserts, the first `preloaded` of
  // them recovered at start-up; `batched` is what was handed to the batcher.
  datatype State = State(
    capacity: nat, ring: seq<Record>, keys: set<EventKey>, drawn: nat,
    received: nat, decodeErrors: nat, duplicates: nat, decoded: nat, tally: Tally,
    racers: map<nat, Racer>, accepted: seq<Record>, preloaded: nat, batched: seq<Record>)

  datatype Step =
    | Receive(id: nat, source: string, raw: Raw)
    | Decode(id: nat)
    | Check(id: nat)
    | Draw(id: nat)
    | Insert(id: nat)
    | Score(id: nat)
    | Finish(id: nat)

  function Add(m: map<string, int>, k: string, n: int): map<string, int> {
    m[k := (if k in m then m[k] else 0) + n]
  }

  // `record_source_race`
  function TallyRace(t: Tally, source: string, won: bool): Tally {
    Tally(Add(t.received, source, 1), Add(t.won, source, if won then 1 else 0))
  }

  function KeysOf(ring: seq<Record>): set<EventKey> {
    set i | 0 <= i < |ring| :: ring[i].key
  }

  predicate Enabled(s: State, step: Step) {
    && step.id in s.racers
    && var r := s.racers[step.id];
       match step
       case Receive(_, _, _) => r.Resting?
       case Decode(_) => r.Decoding?
       case Check(_) => r.Checking?
       case Draw(_) => r.Drawing?
       case Insert(_) => r.Inserting?
       case Score(_) => r.Losing? || r.Winning?
       case Finish(_) => r.Finishing?
  }

  function Move(s: State, id: nat, r: Racer): State {
    s.(racers := s.racers[id := r])
  }

  function Next(s: State, step: Step): State
    requires Enabled(s, step)
  {
    var r := s.racers[step.id];
    match step
    case Receive(id, source, raw) => Move(s, id, Decoding(source, raw)).(received := s.received + 1)
    case Decode(id) =>
      if r.raw.Undecodable? then Move(s, id, Resting).(decodeErrors := s.decodeErrors + 1)
      else Move(s, id, Checking(r.source, r.raw.key, r.raw.forward))
    case Check(id) =>
      if r.key in s.keys then Move(s, id, Losing(r.source)).(duplicates := s.duplicates + 1)
      else Move(s, id, Drawing(r.source, r.key, r.forward))
    case Draw(id) =>
      Move(s, id, Inserting(r.source, Record(s.drawn + 1, r.key), r.forward)).(drawn := s.drawn + 1)
    case Insert(id) =>
      if r.record.key in s.keys then Move(s, id, Losing(r.source)).(duplicates := s.duplicates + 1)
      else
        var ring := LastOf(s.ring + [r.record], s.capacity);
        Move(s, id, Winning(r.source, r.record, r.forward))
          .(ring := ring, keys := KeysOf(ring), accepted := s.accepted + [r.record])
    case Score(id) =>
      if r.Losing? then Move(s, id, Resting).(tally := TallyRace(s.tally, r.source, false))
      else Move(s, id, Finishing(r.record, r.forward)).(tally := TallyRace(s.tally, r.source, true))
    case Finish(id) =>
      Move(s, id, Resting).(decoded := s.decoded + 1, batched := if r.forward then s.batched + [r.record] else s.batched)
  }

  predicate Run(s: State, steps: seq<Step>, s': State)
    decreases |steps|
  {
    if steps == [] then s' == s else Enabled(s, steps[0]) && Run(Next(s, steps[0]), steps[1..], s')
  }

  // What the ring accepts of the recovered events, in order.
  function Preload(capacity: nat, recovered: seq<Record>): seq<Record> {
    if recovered == [] then []
    else
      var before := Preload(capacity, recovered[..|recovered| - 1]);
      var r := recovered[|recovered| - 1];
      if r.key in KeysOf(LastOf(before, capacity)) then before else before + [r]
  }

  function HighestSequence(records: seq<Record>): nat {
    if records == [] then 0 else Max(HighestSequence(records[..|records| - 1]), records[|records| - 1].sequence)
  }

  // Start-up: the ring holds the recovered events and numbering goes on after
  // the highest of them.
  function Init(capacity: nat, recovered: seq<Record>, ids: set<nat>): State {
    var cap := Max(capacity, 1);
    var accepted := Preload(cap, recovered);
    var ring := LastOf(accepted, cap);
    State(cap, ring, KeysOf(ring), HighestSequence(recovered), 0, 0, 0, 0, Tally(map[], map[]),
          map id | id in ids :: Resting, accepted, |accepted|, [])
  }

  // ----- the dedup ring and the sequences -----

  ghost predicate RingOk(s: State) {
    && 1 <= s.capacity
    && s.ring == LastOf(s.accepted, s.capacity)
    && s.keys == KeysOf(s.ring)
  }

  // Equal keys are accepted again only after more than `capacity` others: the
  // earlier record has left the ring by then.
  ghost predicate Spaced(capacity: nat, accepted: seq<Record>) {
    forall i, j :: 0 <= i < j < |accepted| && accepted[i].key == accepted[j].key ==> i + capacity < j
  }

  ghost predicate Owns(s: State, id: nat, n: nat) {
    id in s.racers && s.racers[id].Inserting? && s.racers[id].record.sequence == n
  }

  // Every drawn number is in one hand only.
  ghost predicate SequencesOk(s: State) {
    && (forall i :: 0 <= i < |s.accepted| ==> s.accepted[i].sequence <= s.drawn)
    && (forall i, j :: 0 <= i < j < |s.accepted| ==> s.accepted[i].sequence != s.accepted[j].sequence)
    && (forall id: nat, n: nat :: Owns(s, id, n) ==> n <= s.drawn && forall i :: 0 <= i < |s.accepted| ==> s.accepted[i].sequence != n)
    && (forall a: nat, b: nat, n: nat :: Owns(s, a, n) && Owns(s, b, n) ==> a == b)
  }

  // ----- the counters -----

  // Deliveries received but not yet in a final counter; accepted but not yet
  // counted as decoded; and those whose race is not tallied yet.
  function Open(r: Racer): int {
    if r.Resting? || r.Losing? then 0 else 1
  }

  function Uncounted(r: Racer): int {
    if r.Winning? || r.Finishing? then 1 else 0
  }

  function UntalliedWin(r: Racer): int {
    if r.Winning? then 1 else 0
  }

  function UntalliedLoss(r: Racer): int {
    if r.Losing? then 1 else 0
  }

  function Weights(racers: map<nat, Racer>, weight: Racer -> int): map<nat, int> {
    map id | id in racers :: weight(racers[id])
  }

  ghost function Count(racers: map<nat, Racer>, weight: Racer -> int): int {
    Sum(Weights(racers, weight))
  }

  ghost predicate CountersOk(s: State) {
    && s.received == s.decodeErrors + s.duplicates + s.decoded + Count(s.racers, Open)
    && s.preloaded + s.decoded + Count(s.racers, Uncounted) == |s.accepted|
    && Sum(s.tally.won) == |s.accepted| - s.preloaded - Count(s.racers, UntalliedWin)
    && Sum(s.tally.received)
       == s.duplicates + |s.accepted| - s.preloaded - Count(s.racers, UntalliedWin) - Count(s.racers, UntalliedLoss)
  }

  ghost predicate Inv(s: State) {
    RingOk(s) && Spaced(s.capacity, s.accepted) && SequencesOk(s) && CountersOk(s)
  }

  lemma CountMove(racers: map<nat, Racer>, id: nat, r: Racer, weight: Racer -> int)
    requires id in racers
    ensures Count(racers[id := r], weight) == Count(racers, weight) + weight(r) - weight(racers[id])
  {
    assert Weights(racers[id := r], weight) == Weights(racers, weight)[id := weight(r)];
    SumUpdate(Weights(racers, weight), id, weight(r));
  }

  lemma CountResting(racers: map<nat, Racer>, weight: Racer -> int)
    requires weight(Resting) == 0
    requires forall id :: id in racers ==> racers[id] == Resting
    ensures Count(racers, weight) == 0
  {
    SumZero(Weights(racers, weight));
  }

  // No number was given out twice before.
  ghost predicate DistinctSequences(records: seq<Record>) {
    forall i, j :: 0 <= i < j < |records| ==> records[i].sequence != records[j].sequence
  }

  lemma {:induction false} PreloadOk(capacity: nat, recovered: seq<Record>)
    requires capacity >= 1 && DistinctSequences(recovered)
    ensures var accepted := Preload(capacity, recovered);
            && DistinctSequences(accepted) && Spaced(capacity, accepted)
            && (forall a <- accepted :: a in recovered && a.sequence <= HighestSequence(recovered))
  {
    hide Spaced, KeysOf, LastOf, DistinctSequences;
    if recovered == [] {
      NothingIsSpaced(capacity);
    } else {
      var n := |recovered| - 1;
      var before, r := Preload(capacity, recovered[..n]), recovered[n];
      DistinctParts(recovered);
      PreloadOk(capacity, recovered[..n]);
      assert recovered == recovered[..n] + [r];
      if r.key !in KeysOf(LastOf(before, capacity)) {
        NewKeyIsSpaced(capacity, before, r);
        DistinctGrows(before, r, recovered[..n]);
      }
    }
  }

  lemma NothingIsSpaced(capacity: nat)
    ensures Spaced(capacity, []) && DistinctSequences([])
  {
  }

  lemma DistinctParts(records: seq<Record>)
    requires records != [] && DistinctSequences(records)
    ensures var n := |records| - 1;
            DistinctSequences(records[..n]) && forall a <- records[..n] :: a.sequence != records[n].sequence
  {
  }

  lemma DistinctGrows(before: seq<Record>, r: Record, all: seq<Record>)
    requires DistinctSequences(before) && (forall a <- before :: a in all) && forall a <- all :: a.sequence != r.sequence
    ensures DistinctSequences(before + [r])
  {
    forall i | 0 <= i < |before| ensures before[i].sequence != r.sequence {
      assert before[i] in all;
    }
  }

  // A key that is not in the ring is far from its last acceptance.
  lemma NewKeyIsSpaced(capacity: nat, accepted: seq<Record>, r: Record)
    requires capacity >= 1 && Spaced(capacity, accepted) && r.key !in KeysOf(LastOf(accepted, capacity))
    ensures Spaced(capacity, accepted + [r])
  {
    var ring, n := LastOf(accepted, capacity), |accepted|;
    forall i | n - |ring| <= i < n ensures accepted[i].key != r.key {
      assert ring[i - (n - |ring|)] == accepted[i];
    }
  }

  lemma InitInv(capacity: nat, recovered: seq<Record>, ids: set<nat>)
    requires DistinctSequences(recovered)
    ensures Inv(Init(capacity, recovered, ids))
  {
    var s := Init(capacity, recovered, ids);
    PreloadOk(s.capacity, recovered);
    CountResting(s.racers, Open);
    CountResting(s.racers, Uncounted);
    CountResting(s.racers, UntalliedWin);
    CountResting(s.racers, UntalliedLoss);
    SumZero(s.tally.won);
  }

  // All four counts after one racer moves.
  lemma CountsMove(racers: map<nat, Racer>, id: nat, r: Racer)
    requires id in racers
    ensures Count(racers[id := r], Open) == Count(racers, Open) + Open(r) - Open(racers[id])
    ensures Count(racers[id := r], Uncounted) == Count(racers, Uncounted) + Uncounted(r) - Uncounted(racers[id])
    ensures Count(racers[id := r], UntalliedWin)
            == Count(racers, UntalliedWin) + UntalliedWin(r) - UntalliedWin(racers[id])
    ensures Count(racers[id := r], UntalliedLoss)
            == Count(racers, UntalliedLoss) + UntalliedLoss(r) - UntalliedLoss(racers[id])
  {
    CountMove(racers, id, r, Open);
    CountMove(racers, id, r, Uncounted);
    CountMove(racers, id, r, UntalliedWin);
    CountMove(racers, id, r, UntalliedLoss);
  }

  lemma TallySums(t: Tally, source: string, won: bool)
    ensures Sum(TallyRace(t, source, won).received) == Sum(t.received) + 1
    ensures Sum(TallyRace(t, source, won).won) == Sum(t.won) + if won then 1 else 0
  {
    SumUpdate(t.received, source, Add(t.received, source, 1)[source]);
    SumUpdate(t.won, source, Add(t.won, source, if won then 1 else 0)[source]);
  }

  lemma CountersKept(s: State, step: Step)
    requires CountersOk(s) && Enabled(s, step)
    ensures CountersOk(Next(s, step))
  {
    hide Count, Sum, TallyRace, KeysOf, LastOf;
    var r := s.racers[step.id];
    var r' := Next(s, step).racers[step.id];
    CountsMove(s.racers, step.id, r');
    if step.Score? {
      TallySums(s.tally, r.source, r.Winning?);
    }
  }

  lemma SequencesKept(s: State, step: Step)
    requires SequencesOk(s) && Enabled(s, step)
    ensures SequencesOk(Next(s, step))
  {
    var s' := Next(s, step);
    forall id: nat, n: nat | Owns(s', id, n)
      ensures n <= s'.drawn && forall i :: 0 <= i < |s'.accepted| ==> s'.accepted[i].sequence != n
    {
      if id != step.id {
        assert Owns(s, id, n);
      }
      if step.Insert? && s'.racers[step.id].Winning? {
        assert Owns(s, step.id, s.racers[step.id].record.sequence);
      }
    }
    forall a: nat, b: nat, n: nat | Owns(s', a, n) && Owns(s', b, n) ensures a == b {
      assert a != step.id ==> Owns(s, a, n);
      assert b != step.id ==> Owns(s, b, n);
    }
    if step.Insert? {
      assert Owns(s, step.id, s.racers[step.id].record.sequence);
    }
  }

  lemma RingKept(s: State, step: Step)
    requires RingOk(s) && Spaced(s.capacity, s.accepted) && Enabled(s, step)
    ensures RingOk(Next(s, step)) && Spaced(s.capacity, Next(s, step).accepted)
  {
    var s' := Next(s, step);
    if step.Insert? && s'.racers[step.id].Winning? {
      assert s'.ring == LastOf(s'.accepted, s.capacity);
      NewKeyIsSpaced(s.capacity, s.accepted, s.racers[step.id].record);
    }
  }

  lemma CapacityKept(s: State, step: Step)
    requires Enabled(s, step)
    ensures Next(s, step).capacity == s.capacity
  {
  }

  // In every interleaving of racing deliveries: the key set is the ring's; a
  // key is not accepted again while its record is in the ring; accepted
  // sequences are distinct; and the counters balance up to the deliveries
  // still under way.
  lemma {:induction false} EveryRaceKeepsInv(s: State, steps: seq<Step>, s': State)
    requires Inv(s) && Run(s, steps, s')
    ensures Inv(s')
    decreases |steps|
  {
    hide RingOk, Spaced, SequencesOk, CountersOk, Next, Enabled;
    if steps != [] {
      assert Next(s, steps[0]).capacity == s.capacity by { CapacityKept(s, steps[0]); }
      CountersKept(s, steps[0]);
      SequencesKept(s, steps[0]);
      RingKept(s, steps[0]);
      EveryRaceKeepsInv(Next(s, steps[0]), steps[1..], s');
    }
  }

  // At quiescence every delivery is accounted for once, and the per-source
  // wins add up to the accepted events.
  lemma QuiescentCountersBalance(s: State)
    requires Inv(s) && forall id :: id in s.racers ==> s.racers[id] == Resting
    ensures s.received == s.decodeErrors + s.duplicates + s.decoded
    ensures s.decoded == |s.accepted| - s.preloaded == Sum(s.tally.won)
    ensures Sum(s.tally.received) == s.duplicates + s.decoded
  {
    CountResting(s.racers, Open);
    CountResting(s.racers, Uncounted);
    CountResting(s.racers, UntalliedWin);
    CountResting(s.racers, UntalliedLoss);
  }

  // ----- order at the batcher -----

  // A delivery holding a drawn number that will be handed to the batcher.
  predicate Holds(s: State, id: nat) {
    id in s.racers && (s.racers[id].Inserting? || s.racers[id].Winning? || s.racers[id].Finishing?) && s.racers[id].forward
  }

  function Held(s: State, id: nat): Record
    requires Holds(s, id)
  {
    s.racers[id].record
  }

  ghost predicate Rising(records: seq<Record>) {
    forall i, j :: 0 <= i < j < |records| ==> records[i].sequence < records[j].sequence
  }

  // A number for the batcher is drawn only when no other one is out.
  ghost predicate OrderlyStep(s: State, step: Step) {
    step.Draw? && step.id in s.racers && s.racers[step.id].Drawing? && s.racers[step.id].forward ==>
      forall id :: !Holds(s, id)
  }

  ghost predicate Orderly(s: State, steps: seq<Step>)
    decreases |steps|
  {
    steps == [] || (Enabled(s, steps[0]) && OrderlyStep(s, steps[0]) && Orderly(Next(s, steps[0]), steps[1..]))
  }

  // At most one number is out, past everything handed over.
  ghost predicate InOrder(s: State, since: nat) {
    && Rising(s.batched) && since <= s.drawn
    && (forall i :: 0 <= i < |s.batched| ==> since < s.batched[i].sequence <= s.drawn)
    && (forall id :: Holds(s, id) ==>
          && since < Held(s, id).sequence <= s.drawn
          && forall i :: 0 <= i < |s.batched| ==> s.batched[i].sequence < Held(s, id).sequence)
    && (forall a, b :: Holds(s, a) && Holds(s, b) ==> a == b)
  }

  lemma OrderlyStepKeepsOrder(s: State, step: Step, since: nat)
    requires InOrder(s, since) && Enabled(s, step) && OrderlyStep(s, step)
    ensures InOrder(Next(s, step), since)
  {
    hide KeysOf, LastOf, TallyRace;
    var s' := Next(s, step);
    forall id | Holds(s', id) && !(step.Draw? && id == step.id)
      ensures Holds(s, id) && Held(s, id) == Held(s', id)
    {
    }
    if step.Finish? && Holds(s, step.id) {
      assert s'.batched == s.batched + [Held(s, step.id)];
      assert forall id :: !Holds(s', id);
    }
  }

  // In every run in which no number for the batcher is drawn while another is
  // out, the batcher receives the events in the order of their numbers, all of
  // them past the recovered ones.
  lemma {:induction false} OrderlyRunsRise(s: State, steps: seq<Step>, s': State, since: nat)
    requires InOrder(s, since) && Run(s, steps, s') && Orderly(s, steps)
    ensures InOrder(s', since)
    decreases |steps|
  {
    hide InOrder, Next, Enabled, OrderlyStep;
    if steps != [] {
      OrderlyStepKeepsOrder(s, steps[0], since);
      OrderlyRunsRise(Next(s, steps[0]), steps[1..], s', since);
    }
  }

  lemma InitInOrder(capacity: nat, recovered: seq<Record>, ids: set<nat>)
    ensures InOrder(Init(capacity, recovered, ids), HighestSequence(recovered))
  {
  }

  // The condition is needed: once two numbers for the batcher are out, and the
  // later one's event is new, some continuation hands them over in the wrong
  // order.
  lemma TwoOutMayLandSwapped(s: State, a: nat, b: nat) returns (steps: seq<Step>, s': State)
    requires s.capacity >= 1 && s.keys == KeysOf(s.ring)
    requires a != b && Holds(s, a) && Holds(s, b) && Held(s, a).sequence < Held(s, b).sequence
    requires s.racers[b].Inserting? ==> Held(s, b).key !in s.keys
    requires s.racers[a].Inserting? ==> Held(s, a).key !in s.keys && Held(s, a).key != Held(s, b).key
    ensures Run(s, steps, s') && s'.batched == s.batched + [Held(s, b), Held(s, a)] && !Rising(s'.batched)
  {
    var first, s1 := Land(s, b);
    assert s.racers[a].Inserting? ==> Held(s, a).key !in s1.keys;
    var second, s2 := Land(s1, a);
    RunConcat(s, first, s1, second, s2);
    steps, s' := first + second, s2;
    var n := |s.batched|;
    assert s'.batched[n] == Held(s, b) && s'.batched[n + 1] == Held(s, a);
  }

  lemma {:induction false} RunConcat(s: State, first: seq<Step>, mid: State, second: seq<Step>, s': State)
    requires Run(s, first, mid) && Run(mid, second, s')
    ensures Run(s, first + second, s')
    decreases |first|
  {
    hide Next, Enabled;
    if first == [] {
      assert first + second == second;
    } else {
      RunConcat(Next(s, first[0]), first[1..], mid, second, s');
      assert (first + second)[1..] == first[1..] + second;
    }
  }

  lemma KeysAfterInsert(ring: seq<Record>, r: Record, capacity: nat)
    ensures KeysOf(LastOf(ring + [r], capacity)) <= KeysOf(ring) + {r.key}
  {
    var all := LastOf(ring + [r], capacity);
    forall k | k in KeysOf(all) ensures k in KeysOf(ring) + {r.key} {
      var i :| 0 <= i < |all| && all[i].key == k;
      var j := |ring| + 1 - |all| + i;
      assert (ring + [r])[j] == all[i];
      if j < |ring| {
        assert ring[j].key == k;
      }
    }
  }

  lemma OneStep(s: State, step: Step)
    requires Enabled(s, step)
    ensures Run(s, [step], Next(s, step))
  {
    assert [step][1..] == [];
  }

  // A delivery that holds a number goes all the way to the batcher.
  lemma Land(s: State, id: nat) returns (steps: seq<Step>, s': State)
    requires s.keys == KeysOf(s.ring) && Holds(s, id) && (s.racers[id].Inserting? ==> Held(s, id).key !in s.keys)
    ensures Run(s, steps, s') && s'.batched == s.batched + [Held(s, id)] && s'.racers == s.racers[id := Resting]
    ensures s'.keys == KeysOf(s'.ring) && s'.keys <= s.keys + {Held(s, id).key}
    ensures !s.racers[id].Inserting? ==> s'.keys == s.keys
  {
    hide KeysOf, LastOf, TallyRace;
    var r := Held(s, id);
    steps, s' := [], s;
    if s'.racers[id].Inserting? {
      KeysAfterInsert(s.ring, r, s.capacity);
      steps, s' := Then(s, steps, s', Insert(id));
    }
    if s'.racers[id].Winning? {
      steps, s' := Then(s, steps, s', Score(id));
    }
    steps, s' := Then(s, steps, s', Finish(id));
  }

  lemma Then(s: State, steps: seq<Step>, mid: State, step: Step) returns (steps': seq<Step>, s': State)
    requires Run(s, steps, mid) && Enabled(mid, step)
    ensures Run(s, steps', s') && s' == Next(mid, step)
  {
    hide Run, Next, Enabled;
    OneStep(mid, step);
    steps', s' := steps + [step], Next(mid, step);
    RunConcat(s, steps, mid, [step], s');
  }

  // Such a state is two deliveries away from the start, so the order does not
  // follow from the code alone.
  lemma BatcherMayReceiveOutOfOrder() returns (steps: seq<Step>, s': State)
    ensures Run(Init(2, [], {0, 1}), steps, s')
    ensures |s'.batched| == 2 && s'.batched[0].sequence > s'.batched[1].sequence
  {
    hide Run;
    var a, b := EventKey([], 0, false), EventKey([], 1, false);
    var s0 := Init(2, [], {0, 1});
    var first, s1 := Approach(s0, 0, a);
    var second, s2 := Approach(s1, 1, b);
    RunConcat(s0, first, s1, second, s2);
    var third, s3 := TwoOutMayLandSwapped(s2, 0, 1);
    RunConcat(s0, first + second, s2, third, s3);
    steps, s' := first + second + third, s3;
  }

  // One delivery up to and including the draw of its sequence.
  lemma Approach(s: State, id: nat, key: EventKey) returns (steps: seq<Step>, s': State)
    requires id in s.racers && s.racers[id].Resting? && key !in s.keys
    ensures Run(s, steps, s')
    ensures s' == Move(s, id, Inserting("wss", Record(s.drawn + 1, key), true))
                  .(received := s.received + 1, drawn := s.drawn + 1)
  {
    steps, s' := [], s;
    steps, s' := Then(s, steps, s', Receive(id, "wss", Decodable(key, true)));
    steps, s' := Then(s, steps, s', Decode(id));
    steps, s' := Then(s, steps, s', Check(id));
    steps, s' := Then(s, steps, s', Draw(id));
  }
}

module EventRing {
  import opened Basics
  import opened Racing

  ghost predicate DistinctKeys(ring: seq<Record>) {
    forall i, j :: 0 <= i < j < |ring| ==> ring[i].key != ring[j].key
  }

  // The dedup ring: a queue and the set of its keys, changed together.
  class EventHub {
    const capacity: nat
    var events: seq<Record>
    var keys: set<EventKey>
    var latest: nat

    ghost predicate Valid()
      reads this
    {
      && 1 <= capacity && |events| <= capacity
      && keys == KeysOf(events)
      && DistinctKeys(events)
    }

    constructor (capacity: nat)
      ensures Valid() && events == [] && this.capacity == Max(capacity, 1)
    {
      this.capacity := if capacity >= 1 then capacity else 1;
      events, keys, latest := [], {}, 0;
    }

    predicate Contains(key: EventKey)
      requires Valid()
      reads this
      ensures Contains(key) <==> exists i :: 0 <= i < |events| && events[i].key == key
    {
      key in keys
    }

    // The `Insert` step of the race: refused when the key is in the ring,
    // otherwise the newest `capacity` records remain.
    method Insert(event: Record) returns (inserted: bool)
      requires Valid()
      modifies this
      ensures Valid() && inserted == (event.key !in old(keys))
      ensures events == if inserted then LastOf(old(events) + [event], capacity) else old(events)
      ensures latest == if inserted then event.sequence else old(latest)
    {
      if event.key in keys {
        return false;
      }
      hide KeysOf, DistinctKeys;
      KeysOfSnoc(events, event);
      keys := keys + {event.key};
      events := events + [event];
      ghost var all := events;
      while |events| > capacity
        modifies `events, `keys
        invariant |events| >= capacity || events == all
        invariant |events| <= |all| && events == all[|all| - |events|..]
        invariant keys == KeysOf(events)
        invariant DistinctKeys(events)
      {
        var removed := events[0];
        ghost var before := events;
        events := events[1..];
        KeysOfTail(before);
        keys := keys - {removed.key};
      }
      latest := event.sequence;
      inserted := true;
    }
  }

  lemma KeysOfSnoc(ring: seq<Record>, e: Record)
    requires DistinctKeys(ring) && e.key !in KeysOf(ring)
    ensures KeysOf(ring + [e]) == KeysOf(ring) + {e.key} && DistinctKeys(ring + [e])
  {
    assert forall i :: 0 <= i < |ring| ==> ring[i].key in KeysOf(ring);
    var all := ring + [e];
    forall k | k in KeysOf(ring) ensures k in KeysOf(all) {
      var i :| 0 <= i < |ring| && ring[i].key == k;
      assert all[i].key == k;
    }
    assert all[|ring|].key == e.key;
  }

  lemma KeysOfTail(ring: seq<Record>)
    requires ring != [] && DistinctKeys(ring)
    ensures KeysOf(ring[1..]) == KeysOf(ring) - {ring[0].key} && DistinctKeys(ring[1..])
  {
    var tail := ring[1..];
    forall k | k in KeysOf(ring) && k != ring[0].key ensures k in KeysOf(tail) {
      var i :| 0 <= i < |ring| && ring[i].key == k;
      assert tail[i - 1].key == k;
    }
  }

  const RECENT_WINDOW := 1000

  function Hits(window: seq<bool>): nat {
    if window == [] then 0 else Hits(window[..|window| - 1]) + if window[|window| - 1] then 1 else 0
  }

  lemma {:induction false} HitsTail(window: seq<bool>)
    requires window != []
    ensures Hits(window) == Hits(window[1..]) + if window[0] then 1 else 0
  {
    var n := |window| - 1;
    if n > 0 {
      HitsTail(window[..n]);
      assert window[..n][1..] == window[1..][..n - 1];
    }
  }

  // The trailing window of enrichment outcomes and the two gauges shown for it.
  class RecentEnrichment {
    var window: seq<bool>
    var hits: nat
    var total: nat

    ghost predicate Valid()
      reads this
    {
      |window| <= RECENT_WINDOW && hits == Hits(window) && total == |window|
    }

    constructor ()
      ensures Valid() && window == []
    {
      window, hits, total := [], 0, 0;
    }

    method Record(hit: bool)
      requires Valid()
      modifies this
      ensures Valid() && window == LastOf(old(window) + [hit], RECENT_WINDOW)
    {
      assert (window + [hit])[..|window|] == window;
      window := window + [hit];
      if hit {
        hits := hits + 1;
      }
      if |window| > RECENT_WINDOW {
        HitsTail(window);
        if window[0] {
          hits := SatSub(hits, 1);
        }
        window := window[1..];
      }
      total := |window|;
    }
  }
}
