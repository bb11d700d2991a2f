/** The batcher between the processor and the frame ring (src/pipeline.rs,
    `run_batcher`). */
module Batcher {
  import opened Basics
  import FrameReplay

  // `size` is the encoded length the batcher budgets with.
  datatype Event = Event(sequence: nat, size: nat)

  datatype Config = Config(maxEvents: nat, maxBytes: nat)

  // A closed batch with the number it was given and whether encoding it
  // succeeded, which is when it is published.
  datatype Batch = Batch(number: nat, events: seq<Event>, published: bool)

  function Flatten(batches: seq<Batch>): seq<Event> {
    if batches == [] then [] else Flatten(batches[..|batches| - 1]) + batches[|batches| - 1].events
  }

  function Size(events: seq<Event>): nat {
    if events == [] then 0 else Size(events[..|events| - 1]) + events[|events| - 1].size
  }

  // Within the limits; a single event is sent however large it is.
  ghost predicate WithinLimits(cfg: Config, events: seq<Event>) {
    && 1 <= |events| <= Max(cfg.maxEvents, 1)
    && (|events| > 1 ==> Size(events) <= cfg.maxBytes)
  }

  // `batch_sequence.wrapping_add(1).max(1)`
  function NextNumber(n: nat): nat {
    Max((n + 1) % POW_64, 1)
  }

  function NumberBefore(batches: seq<Batch>, i: nat): nat
    requires i <= |batches|
  {
    if i == 0 then 0 else batches[i - 1].number
  }

  ghost predicate Numbered(batches: seq<Batch>) {
    forall i: nat :: i < |batches| ==> batches[i].number == NextNumber(NumberBefore(batches, i))
  }

  // Numbers count up from 1 to 2^64 - 1 and start over; 0 is never given.
  lemma {:induction false} NumbersCount(batches: seq<Batch>, i: nat)
    requires Numbered(batches) && i < |batches|
    ensures batches[i].number == i % (POW_64 - 1) + 1
  {
    assert batches[i].number == NextNumber(NumberBefore(batches, i));
    if i > 0 {
      NumbersCount(batches, i - 1);
      NextCounts(i - 1);
    }
  }

  lemma NextCounts(k: nat)
    ensures NextNumber(k % (POW_64 - 1) + 1) == (k + 1) % (POW_64 - 1) + 1
  {
    var r := k % (POW_64 - 1);
    assert (k + 1) % (POW_64 - 1) == (r + 1) % (POW_64 - 1);
  }

  function ToSeq(p: Option<Event>): seq<Event> {
    if p.Some? then [p.value] else []
  }

  // Fills one batch from `first` on. `quiet(k)` says that the queue is found
  // momentarily empty when event `k` would be next.
  method FillBatch(cfg: Config, input: seq<Event>, pos: nat, first: Event, quiet: nat -> bool)
    returns (events: seq<Event>, pos': nat, pending: Option<Event>)
    requires pos <= |input|
    ensures pos <= pos' <= |input|
    ensures events + ToSeq(pending) == [first] + input[pos..pos']
    ensures WithinLimits(cfg, events)
    ensures pending.Some? ==> Size(events) + pending.value.size > cfg.maxBytes
  {
    events, pos', pending := [first], pos, None;
    var estimated := first.size;
    assert events[..0] == [];
    while |events| < Max(cfg.maxEvents, 1) && pos' < |input| && !quiet(pos')
      invariant pos <= pos' <= |input| && pending == None
      invariant events == [first] + input[pos..pos']
      invariant estimated == Size(events) && WithinLimits(cfg, events)
    {
      var next := input[pos'];
      if estimated + next.size > cfg.maxBytes {
        pending := Some(next);
        pos' := pos' + 1;
        break;
      }
      assert (events + [next])[..|events|] == events;
      estimated := estimated + next.size;
      events := events + [next];
      pos' := pos' + 1;
    }
  }

  lemma FlattenSnoc(batches: seq<Batch>, b: Batch, rest: seq<Event>, first: Event, input: seq<Event>, i: nat, j: nat)
    requires i <= j <= |input|
    requires Flatten(batches) + [first] == input[..i]
    requires b.events + rest == [first] + input[i..j]
    ensures Flatten(batches + [b]) + rest == input[..j]
  {
    var before := Flatten(batches);
    assert (batches + [b])[..|batches|] == batches;
    calc {
      Flatten(batches + [b]) + rest;
      before + (b.events + rest);
      before + ([first] + input[i..j]);
      input[..i] + input[i..j];
      input[..j];
    }
  }

  lemma FlattenEmpty()
    ensures Flatten([]) == [] && Numbered([])
  {
  }

  lemma NumberedSnoc(batches: seq<Batch>, b: Batch)
    requires Numbered(batches) && b.number == NextNumber(NumberBefore(batches, |batches|))
    ensures Numbered(batches + [b])
  {
    hide NextNumber;
    var all := batches + [b];
    forall i: nat | i < |all| ensures all[i].number == NextNumber(NumberBefore(all, i)) {
      assert NumberBefore(all, i) == NumberBefore(batches, i);
    }
  }

  // What the batcher makes of its input: some first part of it, in order, in
  // numbered batches within the limits, of which those that encode are published.
  ghost predicate Outcome(cfg: Config, input: seq<Event>, encodes: (nat, seq<Event>) -> bool, batches: seq<Batch>) {
    && Flatten(batches) <= input && Numbered(batches)
    && forall i :: 0 <= i < |batches| ==>
         WithinLimits(cfg, batches[i].events) && batches[i].published == encodes(batches[i].number, batches[i].events)
  }

  // The whole loop: `encodes` is the outcome of `encode_frame`, `shutdown(k)`
  // whether a shutdown is seen when the batcher next waits, having closed `k`
  // batches. Nothing taken from the queue is lost, repeated or reordered, not
  // even the event a full batch pushed back; only a batch that does not encode
  // stays unpublished. Without a shutdown the whole input is batched.
  method RunBatcher(cfg: Config, input: seq<Event>, quiet: nat -> bool, shutdown: nat -> bool, encodes: (nat, seq<Event>) -> bool)
    returns (batches: seq<Batch>, taken: nat)
    ensures taken <= |input| && Flatten(batches) == input[..taken]
    ensures (forall k: nat :: !shutdown(k)) ==> taken == |input|
    ensures Outcome(cfg, input, encodes, batches)
  {
    hide Numbered, WithinLimits, NextNumber, Flatten;
    FlattenEmpty();
    batches, taken := [], 0;
    var number := 0;
    var pending: Option<Event> := None;
    while true
      invariant taken <= |input| && Flatten(batches) + ToSeq(pending) == input[..taken]
      invariant Numbered(batches) && number == NumberBefore(batches, |batches|)
      invariant forall i :: 0 <= i < |batches| ==>
                  WithinLimits(cfg, batches[i].events) && batches[i].published == encodes(batches[i].number, batches[i].events)
      decreases |input| - taken, if pending.Some? then 1 else 0
    {
      var first;
      if pending.Some? {
        first := pending.value;
        pending := None;
      } else {
        if shutdown(|batches|) || taken == |input| {
          break;
        }
        first := input[taken];
        taken := taken + 1;
      }
      assert Flatten(batches) + [first] == input[..taken];
      var events, taken';
      events, taken', pending := FillBatch(cfg, input, taken, first, quiet);
      number := NextNumber(number);
      var batch := Batch(number, events, encodes(number, events));
      FlattenSnoc(batches, batch, ToSeq(pending), first, input, taken, taken');
      NumberedSnoc(batches, batch);
      batches := batches + [batch];
      taken := taken';
    }
  }

  ghost predicate Rising(prior: nat, events: seq<Event>) {
    && (forall i :: 0 <= i < |events| ==> prior < events[i].sequence)
    && (forall i, j :: 0 <= i < j < |events| ==> events[i].sequence < events[j].sequence)
  }

  // The frames of the published batches: first and last sequence as
  // `encode_frame` takes them from the batch's ends.
  ghost predicate FrameOf(f: FrameReplay.WireFrame, b: Batch) {
    && b.events != []
    && f.firstSequence == b.events[0].sequence
    && f.lastSequence == b.events[|b.events| - 1].sequence
  }

  function Published(batches: seq<Batch>): seq<Batch> {
    if batches == [] then []
    else Published(batches[..|batches| - 1])
         + if batches[|batches| - 1].published then [batches[|batches| - 1]] else []
  }

  lemma RisingParts(prior: nat, a: seq<Event>, b: seq<Event>)
    requires Rising(prior, a + b)
    ensures Rising(prior, a) && Rising(prior, b)
    ensures forall i, j :: 0 <= i < |a| && 0 <= j < |b| ==> a[i].sequence < b[j].sequence
  {
    var s := a + b;
    assert forall i :: 0 <= i < |a| ==> a[i] == s[i];
    assert forall j :: 0 <= j < |b| ==> b[j] == s[|a| + j];
  }

  // Rising event sequences into the batcher come out as frames in increasing
  // order, which is what the replay theorems ask for.
  lemma {:induction false} FramesIncrease(prior: nat, batches: seq<Batch>, frames: seq<FrameReplay.WireFrame>)
    requires Rising(prior, Flatten(batches))
    requires forall i :: 0 <= i < |batches| ==> batches[i].events != []
    requires |frames| == |Published(batches)|
    requires forall i :: 0 <= i < |frames| ==> FrameOf(frames[i], Published(batches)[i])
    ensures FrameReplay.Increasing(prior, frames)
    ensures frames != [] ==> frames[|frames| - 1].lastSequence <= Flatten(batches)[|Flatten(batches)| - 1].sequence
    ensures batches != [] ==> Flatten(batches) != []
  {
    if batches != [] {
      var n := |batches| - 1;
      var init, last := batches[..n], batches[n];
      RisingParts(prior, Flatten(init), last.events);
      var all := Flatten(init) + last.events;
      assert all[|all| - 1] == last.events[|last.events| - 1];
      if last.published {
        var m := |frames| - 1;
        assert Published(batches)[..m] == Published(init) && Published(batches)[m] == last;
        FramesIncrease(prior, init, frames[..m]);
        FramesSnoc(prior, frames, Flatten(init), last);
      } else {
        assert Published(batches) == Published(init);
        FramesIncrease(prior, init, frames);
      }
    }
  }

  lemma FramesSnoc(prior: nat, frames: seq<FrameReplay.WireFrame>, earlier: seq<Event>, last: Batch)
    requires frames != [] && FrameReplay.Increasing(prior, frames[..|frames| - 1])
    requires Rising(prior, last.events) && FrameOf(frames[|frames| - 1], last)
    requires |frames| > 1 ==> earlier != [] && frames[|frames| - 2].lastSequence <= earlier[|earlier| - 1].sequence
    requires forall i, j :: 0 <= i < |earlier| && 0 <= j < |last.events| ==> earlier[i].sequence < last.events[j].sequence
    ensures FrameReplay.Increasing(prior, frames)
  {
    var m := |frames| - 1;
    var init := frames[..m];
    forall i | 0 <= i < m ensures frames[i].lastSequence < frames[m].firstSequence {
      FrameReplay.LastsGrow(prior, init, i, m - 1);
      assert init[i] == frames[i] && init[m - 1] == frames[m - 1];
    }
    assert forall i :: 0 <= i < m ==> init[i] == frames[i];
  }
}
