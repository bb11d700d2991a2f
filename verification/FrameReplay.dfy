/** The upstream's replayable frame ring and the cursor-driven session that
    reads it (src/hub.rs, src/api.rs).

    That sequences increase from frame to frame is a hypothesis here; it follows
    from the order in which events reach the batcher (Batcher.FramesIncrease). */
module FrameReplay {
  import opened Basics

  // `decoded` is the event sequence the edge's parser finds in `bytes`; 0 when
  // it finds none.
  datatype WireFrame = WireFrame(batchSequence: nat, firstSequence: nat, lastSequence: nat, decoded: nat, bytes: Bytes)

  datatype ReadError = Lagged

  // `log` is every frame broadcast so far, by this process or, after a
  // restart, by earlier ones; the ring is `log[gone..]`. `prior` is the newest
  // sequence broadcast before the log begins.
  datatype Upstream = Upstream(capacity: nat, prior: nat, log: seq<WireFrame>, gone: nat, floor: nat, latest: nat)

  function Highest(floor: nat, s: seq<WireFrame>): nat {
    if s == [] then floor else Max(Highest(floor, s[..|s| - 1]), s[|s| - 1].lastSequence)
  }

  // The frames with an event after cursor `c`.
  function Past(s: seq<WireFrame>, c: nat): seq<WireFrame> {
    if s == [] then []
    else Past(s[..|s| - 1], c) + if s[|s| - 1].lastSequence > c then [s[|s| - 1]] else []
  }

  ghost predicate Inv(u: Upstream) {
    && 1 <= u.capacity
    && u.gone <= |u.log| <= u.gone + u.capacity
    && u.floor == Highest(u.prior, u.log[..u.gone])
  }

  // Sequences grow from frame to frame and never fall back to what an earlier
  // process broadcast.
  ghost predicate Increasing(prior: nat, log: seq<WireFrame>) {
    && (forall i :: 0 <= i < |log| ==> prior < log[i].firstSequence <= log[i].lastSequence)
    && (forall i, j :: 0 <= i < j < |log| ==> log[i].lastSequence < log[j].firstSequence)
  }

  function Start(capacity: nat, lastBroadcast: nat): Upstream {
    Upstream(Max(capacity, 1), lastBroadcast, [], 0, lastBroadcast, 0)
  }

  ghost function Publish(u: Upstream, f: WireFrame): Upstream
    requires Inv(u)
  {
    var log := u.log + [f];
    var gone := if |log| - u.gone > u.capacity then u.gone + 1 else u.gone;
    u.(log := log, gone := gone, latest := f.lastSequence,
       floor := if gone > u.gone then Max(u.floor, log[u.gone].lastSequence) else u.floor)
  }

  // A new process: empty ring, floor at the sequence it recovered, nothing
  // announced yet.
  ghost function RestartAt(u: Upstream, recovered: nat): Upstream {
    u.(gone := |u.log|, floor := recovered, latest := 0)
  }

  // One that recovered the newest sequence ever broadcast.
  ghost function Restart(u: Upstream): Upstream {
    RestartAt(u, Highest(u.prior, u.log))
  }

  ghost function After(u: Upstream, c: nat): Result<seq<WireFrame>, ReadError>
    requires u.gone <= |u.log|
  {
    if 0 < c < u.floor then Err(Lagged) else Ok(Past(u.log[u.gone..], c))
  }

  // ----- the ring -----

  lemma PublishKeepsInv(u: Upstream, f: WireFrame)
    requires Inv(u)
    ensures Inv(Publish(u, f))
  {
    var u' := Publish(u, f);
    assert u'.log[..u.gone] == u.log[..u.gone];
    if u'.gone > u.gone {
      assert u'.log[..u'.gone][..u.gone] == u.log[..u.gone];
    }
  }

  // A new process keeps the floor right exactly when it recovered the newest
  // sequence ever broadcast.
  lemma RestartKeepsInvIff(u: Upstream, recovered: nat)
    requires Inv(u)
    ensures Inv(RestartAt(u, recovered)) <==> recovered == Highest(u.prior, u.log)
  {
    assert u.log[..|u.log|] == u.log;
  }

  lemma RestartKeepsInv(u: Upstream)
    requires Inv(u)
    ensures Inv(Restart(u))
  {
    RestartKeepsInvIff(u, Highest(u.prior, u.log));
  }

  lemma {:induction false} HighestExceeds(floor: nat, s: seq<WireFrame>, c: nat)
    ensures Highest(floor, s) > c <==> floor > c || exists i :: 0 <= i < |s| && s[i].lastSequence > c
  {
    if s != [] {
      var n := |s| - 1;
      HighestExceeds(floor, s[..n], c);
      assert forall i :: 0 <= i < n ==> s[..n][i] == s[i];
    }
  }

  // Something after cursor `c` was broadcast by a process that is gone.
  ghost predicate Missed(u: Upstream, c: nat) {
    u.prior > c || exists i :: 0 <= i < |u.log| && u.log[i].lastSequence > c
  }

  // What a new process may recover. No cursor is served with something missing,
  // exactly when the recovered sequence is not below the newest broadcast one;
  // none is refused for nothing, exactly when it is not above it.
  lemma RestartFloorIff(u: Upstream, recovered: nat)
    ensures var u', newest := RestartAt(u, recovered), Highest(u.prior, u.log);
      && ((forall c: nat :: c > 0 && After(u', c).Ok? ==> !Missed(u, c)) <==> newest <= Max(recovered, 1))
      && ((forall c: nat :: After(u', c).Err? ==> Missed(u, c)) <==> recovered <= Max(newest, 1))
  {
    var u', newest := RestartAt(u, recovered), Highest(u.prior, u.log);
    forall c: nat ensures Missed(u, c) <==> newest > c {
      HighestExceeds(u.prior, u.log, c);
    }
    assert After(u', Max(recovered, 1)).Ok?;
    if recovered > 1 {
      assert After(u', recovered - 1).Err?;
    }
  }

  // `Lagged` is reported exactly when a sequence beyond the cursor was already
  // broadcast and cannot be replayed any more: its frame was evicted, or it
  // belongs to a previous process. Cursor 0 is never lagged.
  lemma LaggedExactly(u: Upstream, c: nat)
    requires Inv(u)
    ensures After(u, c).Err? <==> c > 0 && (u.prior > c || exists i :: 0 <= i < u.gone && u.log[i].lastSequence > c)
  {
    var evicted := u.log[..u.gone];
    HighestExceeds(u.prior, evicted, c);
    assert forall i :: 0 <= i < u.gone ==> evicted[i] == u.log[i];
  }

  lemma {:induction false} PastConcat(a: seq<WireFrame>, b: seq<WireFrame>, c: nat)
    ensures Past(a + b, c) == Past(a, c) + Past(b, c)
    decreases |b|
  {
    if b == [] {
      assert a + b == a;
    } else {
      var n := |b| - 1;
      PastConcat(a, b[..n], c);
      assert (a + b)[..|a + b| - 1] == a + b[..n];
    }
  }

  lemma {:induction false} PastNone(s: seq<WireFrame>, c: nat)
    requires forall i :: 0 <= i < |s| ==> s[i].lastSequence <= c
    ensures Past(s, c) == []
  {
    if s != [] {
      PastNone(s[..|s| - 1], c);
    }
  }

  lemma {:induction false} PastAll(s: seq<WireFrame>, c: nat)
    requires forall i :: 0 <= i < |s| ==> s[i].lastSequence > c
    ensures Past(s, c) == s
  {
    if s != [] {
      PastAll(s[..|s| - 1], c);
    }
  }

  // A read that is not lagged misses nothing: eviction never shows.
  lemma AfterIsComplete(u: Upstream, c: nat)
    requires Inv(u) && c > 0 && After(u, c).Ok?
    ensures After(u, c).value == Past(u.log, c)
  {
    LaggedExactly(u, c);
    PastNone(u.log[..u.gone], c);
    PastConcat(u.log[..u.gone], u.log[u.gone..], c);
    assert u.log == u.log[..u.gone] + u.log[u.gone..];
  }

  lemma {:induction false} PastHoldsIff(s: seq<WireFrame>, c: nat, f: WireFrame)
    ensures f in Past(s, c) <==> f in s && f.lastSequence > c
  {
    if s != [] {
      PastHoldsIff(s[..|s| - 1], c, f);
      assert s == s[..|s| - 1] + [s[|s| - 1]];
    }
  }

  // Why the order matters: a frame just broadcast is read at a cursor exactly
  // when it lies past it, so one that comes out of order is never sent to those
  // who have the later ones.
  lemma NewFrameIsReadIff(u: Upstream, f: WireFrame, c: nat)
    requires Inv(u)
    ensures Publish(u, f).gone <= |Publish(u, f).log|
    ensures var r := After(Publish(u, f), c); r.Ok? ==> (f in r.value <==> f.lastSequence > c)
  {
    var u' := Publish(u, f);
    PublishKeepsInv(u, f);
    PastHoldsIff(u'.log[u'.gone..], c, f);
    assert u'.log[u'.gone..][|u'.log| - 1 - u'.gone] == f;
  }

  lemma IncreasingPrefix(prior: nat, s: seq<WireFrame>, n: nat)
    requires Increasing(prior, s) && n <= |s|
    ensures Increasing(prior, s[..n])
  {
  }

  lemma LastsGrow(prior: nat, s: seq<WireFrame>, i: nat, j: nat)
    requires Increasing(prior, s) && i < |s| && j < |s|
    ensures s[i].lastSequence < s[j].lastSequence <==> i < j
    ensures prior < s[i].lastSequence
  {
    assert i < j ==> s[i].lastSequence < s[j].firstSequence <= s[j].lastSequence;
    assert j < i ==> s[j].lastSequence < s[i].firstSequence <= s[i].lastSequence;
  }

  // With increasing sequences the frames past a cursor are a suffix of the log.
  lemma {:induction false} PastIsSuffix(prior: nat, s: seq<WireFrame>, c: nat) returns (k: nat)
    requires Increasing(prior, s)
    ensures k <= |s| && Past(s, c) == s[k..]
    ensures k > 0 ==> s[k - 1].lastSequence <= c
    ensures k < |s| ==> s[k].lastSequence > c
  {
    hide Increasing;
    if s == [] {
      return 0;
    }
    var n := |s| - 1;
    IncreasingPrefix(prior, s, n);
    var k0 := PastIsSuffix(prior, s[..n], c);
    if k0 < n {
      LastsGrow(prior, s, k0, n);
    }
    if s[n].lastSequence > c {
      k := k0;
      assert Past(s, c) == s[..n][k..] + [s[n]] == s[k..];
    } else {
      k := |s|;
      assert Past(s, c) == s[..n][n..] + [] == s[k..];
    }
  }

  // Reading on from a frame's own sequence continues right behind it.
  lemma PastContinues(prior: nat, s: seq<WireFrame>, i: nat)
    requires Increasing(prior, s) && i < |s|
    ensures Past(s, s[i].lastSequence) == s[i + 1..]
  {
    hide Past, Increasing;
    var k := PastIsSuffix(prior, s, s[i].lastSequence);
    if k < |s| {
      LastsGrow(prior, s, i, k);
    }
    if k > 0 {
      LastsGrow(prior, s, i, k - 1);
    }
  }

  // ----- the session -----

  datatype Status = Open | CursorTooOld | Broken

  datatype Session = Session(start: nat, cursor: nat, snapshot: seq<WireFrame>, sent: seq<WireFrame>, status: Status)

  datatype Step =
    | Broadcast(frame: WireFrame)
    | ProcessRestart
    | Fetch          // take a snapshot of what is available
    | Send           // write the next frame of the snapshot
    | WriteFails

  function Open(start: nat): Session {
    Session(start, start, [], [], Status.Open)
  }

  ghost predicate Enabled(u: Upstream, s: Session, step: Step) {
    match step
    case Broadcast(f) => Increasing(u.prior, u.log + [f])
    case ProcessRestart => true
    case Fetch => s.status.Open? && s.snapshot == []
    case Send => s.status.Open? && s.snapshot != []
    case WriteFails => s.status.Open?
  }

  ghost function Next(u: Upstream, s: Session, step: Step): (Upstream, Session)
    requires Inv(u) && Enabled(u, s, step)
  {
    match step
    case Broadcast(f) => (Publish(u, f), s)
    case ProcessRestart => (Restart(u), s.(status := Broken))
    case Fetch =>
      (match After(u, s.cursor)
       case Err(_) => (u, s.(status := CursorTooOld))
       case Ok(frames) => (u, s.(snapshot := frames)))
    case Send =>
      (u, s.(snapshot := s.snapshot[1..], sent := s.sent + [s.snapshot[0]],
             cursor := Max(s.cursor, s.snapshot[0].lastSequence)))
    case WriteFails => (u, s.(status := Broken))
  }

  ghost predicate Run(u: Upstream, s: Session, steps: seq<Step>, u': Upstream, s': Session)
    decreases |steps|
  {
    if steps == [] then u' == u && s' == s
    else (
      && Inv(u) && Enabled(u, s, steps[0])
      && var (u1, s1) := Next(u, s, steps[0]);
         Run(u1, s1, steps[1..], u', s')
    )
  }

  // Everything sent or about to be sent is the beginning of what lies past the
  // cursor the session started from.
  ghost predicate OnTrack(u: Upstream, s: Session) {
    && Inv(u) && Increasing(u.prior, u.log)
    && s.start > 0
    && s.sent + s.snapshot <= Past(u.log, s.start)
    && s.cursor == (if s.sent == [] then s.start else s.sent[|s.sent| - 1].lastSequence)
  }

  // A session that has just been opened at a positive cursor.
  lemma OpenOnTrack(u: Upstream, start: nat)
    requires Inv(u) && Increasing(u.prior, u.log) && start > 0
    ensures OnTrack(u, Open(start))
  {
  }

  lemma BroadcastOnTrack(u: Upstream, s: Session, f: WireFrame)
    requires OnTrack(u, s) && Increasing(u.prior, u.log + [f])
    ensures OnTrack(Publish(u, f), s)
  {
    PublishKeepsInv(u, f);
    PastConcat(u.log, [f], s.start);
  }

  // The next read picks up exactly where the frames already sent stop.
  lemma FetchContinues(u: Upstream, s: Session)
    requires OnTrack(u, s) && s.snapshot == [] && After(u, s.cursor).Ok?
    ensures s.sent + After(u, s.cursor).value == Past(u.log, s.start)
  {
    hide Past, Increasing, Inv;
    var all := Past(u.log, s.start);
    var k := PastIsSuffix(u.prior, u.log, s.start);
    if s.sent == [] {
      AfterIsComplete(u, s.cursor);
    } else {
      var n := |s.sent|;
      assert (s.sent + s.snapshot)[n - 1] == s.sent[n - 1];
      assert s.sent[n - 1] == all[n - 1] == u.log[k + n - 1];
      LastsGrow(u.prior, u.log, k + n - 1, k + n - 1);
      AfterIsComplete(u, s.cursor);
      PastContinues(u.prior, u.log, k + n - 1);
      assert s.sent == all[..n] && u.log[k + n..] == all[n..];
    }
  }

  lemma SendOnTrack(u: Upstream, s: Session)
    requires OnTrack(u, s) && s.snapshot != []
    ensures OnTrack(u, Next(u, s.(status := Status.Open), Send).1)
  {
    hide Past, Increasing, Inv;
    var s' := Next(u, s.(status := Status.Open), Send).1;
    assert s'.sent + s'.snapshot == s.sent + s.snapshot;
    var all := Past(u.log, s.start);
    var k := PastIsSuffix(u.prior, u.log, s.start);
    var n := |s.sent|;
    assert (s.sent + s.snapshot)[n] == s.snapshot[0] == all[n] == u.log[k + n];
    if n > 0 {
      assert (s.sent + s.snapshot)[n - 1] == s.sent[n - 1] == u.log[k + n - 1];
      LastsGrow(u.prior, u.log, k + n - 1, k + n);
    }
  }

  // In every run of publishing, eviction, reading and writing, a session that
  // starts at a positive cursor sends the frames past that cursor in order and
  // once each: what it has sent is always a beginning of them, and all of them
  // once a read succeeds and its snapshot is drained.
  lemma {:induction false} SessionSendsExactly(u: Upstream, s: Session, steps: seq<Step>, u': Upstream, s': Session)
    requires OnTrack(u, s) && Run(u, s, steps, u', s')
    ensures OnTrack(u', s') && s'.start == s.start
    ensures s'.sent <= Past(u'.log, s.start)
    ensures s.sent <= s'.sent && u.log <= u'.log
    ensures s'.status.Open? && s'.snapshot == [] && After(u', s'.cursor).Ok? ==>
              s'.sent + After(u', s'.cursor).value == Past(u'.log, s.start)
    decreases |steps|
  {
    hide Past, Increasing;
    if steps == [] {
      if s'.status.Open? && s'.snapshot == [] && After(u', s'.cursor).Ok? {
        FetchContinues(u', s');
      }
      assert s'.sent <= s'.sent + s'.snapshot;
    } else {
      var (u1, s1) := Next(u, s, steps[0]);
      match steps[0] {
        case Broadcast(f) => BroadcastOnTrack(u, s, f);
        case ProcessRestart => RestartKeepsInv(u);
        case Fetch => if s1.status.Open? { FetchContinues(u, s); }
        case Send => SendOnTrack(u, s);
        case WriteFails =>
      }
      SessionSendsExactly(u1, s1, steps[1..], u', s');
    }
  }

  lemma SentIsBefore(u: Upstream, s: Session, k: nat, i: nat)
    requires Increasing(u.prior, u.log) && k + |s.sent| <= i < |u.log|
    requires s.sent == u.log[k..k + |s.sent|]
    ensures u.log[i] !in s.sent
  {
    forall j | 0 <= j < |s.sent| ensures s.sent[j] != u.log[i] {
      LastsGrow(u.prior, u.log, k + j, i);
    }
  }

  // A session is told its cursor is too old only when a frame it had not been
  // sent, or something from before the log, is really out of reach.
  lemma RejectedHasMissed(u: Upstream, s: Session)
    requires OnTrack(u, s) && After(u, s.cursor).Err?
    ensures u.prior > s.start || exists i :: 0 <= i < u.gone && u.log[i].lastSequence > s.start && u.log[i] !in s.sent
  {
    hide Past, Increasing, After, Highest;
    LaggedExactly(u, s.cursor);
    var k := PastIsSuffix(u.prior, u.log, s.start);
    var n := |s.sent|;
    assert s.sent == (s.sent + s.snapshot)[..n] == u.log[k..][..n] == u.log[k..k + n];
    if n > 0 {
      assert s.sent[n - 1] == u.log[k + n - 1];
      LastsGrow(u.prior, u.log, k + n - 1, k + n - 1);
      var i :| 0 <= i < u.gone && u.log[i].lastSequence > s.cursor;
      LastsGrow(u.prior, u.log, k + n - 1, i);
      LastsGrow(u.prior, u.log, k, i);
      SentIsBefore(u, s, k, i);
    }
  }
}

module FrameServer {
  import opened Basics
  import opened FrameReplay

  class FrameHub {
    const capacity: nat
    var frames: seq<WireFrame>
    var replayFloor: nat
    var latest: nat
    ghost var history: Upstream

    ghost predicate Valid()
      reads this
    {
      && Inv(history) && history.capacity == capacity
      && frames == history.log[history.gone..]
      && replayFloor == history.floor && latest == history.latest
    }

    constructor ResumingAfter(capacity: nat, lastBroadcast: nat)
      ensures Valid() && history == FrameReplay.Start(capacity, lastBroadcast)
    {
      this.capacity := if capacity >= 1 then capacity else 1;
      frames, replayFloor, latest := [], lastBroadcast, 0;
      history := FrameReplay.Start(capacity, lastBroadcast);
    }

    method Publish(frame: WireFrame)
      requires Valid()
      modifies this
      ensures Valid() && history == FrameReplay.Publish(old(history), frame)
    {
      ghost var h := history;
      PublishKeepsInv(h, frame);
      history := FrameReplay.Publish(h, frame);
      frames := frames + [frame];
      ghost var gone := h.gone;
      ghost var log := h.log + [frame];
      while |frames| > capacity
        modifies `frames, `replayFloor
        invariant 0 <= gone <= |log| && frames == log[gone..]
        invariant (gone == h.gone && replayFloor == h.floor) || (gone == history.gone && replayFloor == history.floor)
        invariant history.gone >= gone
      {
        var evicted := frames[0];
        frames := frames[1..];
        replayFloor := if replayFloor >= evicted.lastSequence then replayFloor else evicted.lastSequence;
        gone := gone + 1;
      }
      latest := frame.lastSequence;
    }

    function After(sequence: nat): (r: Result<seq<WireFrame>, ReadError>)
      requires Valid()
      reads this
      ensures r == FrameReplay.After(history, sequence)
    {
      if 0 < sequence < replayFloor then Err(Lagged) else Ok(Past(frames, sequence))
    }
  }

  datatype SendOutcome = Done | TooOld | WriteError

  // `send_available`: `accepts` stands for how many frames the socket takes
  // before a write fails or times out. The cursor follows the frames that were
  // really written, whatever happens next.
  method SendAvailable(hub: FrameHub, after: nat, accepts: nat)
      returns (after': nat, sent: seq<WireFrame>, outcome: SendOutcome)
    requires hub.Valid()
    ensures outcome.TooOld? <==> hub.After(after).Err?
    ensures outcome.TooOld? ==> sent == [] && after' == after
    ensures !outcome.TooOld? ==> sent <= hub.After(after).value && after' == Highest(after, sent)
    ensures outcome.Done? ==> sent == hub.After(after).value
    ensures outcome.WriteError? ==> |sent| == accepts < |hub.After(after).value|
  {
    after', sent := after, [];
    match hub.After(after)
    case Err(_) =>
      outcome := TooOld;
    case Ok(frames) =>
      var i := 0;
      while i < |frames|
        invariant i <= |frames| && i <= accepts && sent == frames[..i] && after' == Highest(after, sent)
      {
        if i == accepts {
          return after', sent, WriteError;
        }
        sent := sent + [frames[i]];
        assert sent[..|sent| - 1] == frames[..i];
        after' := if after' >= frames[i].lastSequence then after' else frames[i].lastSequence;
        i := i + 1;
      }
      outcome := Done;
  }
}
