/** What an edge republishes, session by session, also when it cannot read the
    sequence off some frames and also after a rejected cursor
    (src/edge/upstream.rs). */
module EdgeSessions {
  import opened Basics
  import FrameReplay
  import opened EdgeDelivery
  import DialUrl
  import EdgeRejection

  type Frames = seq<FrameReplay.WireFrame>

  // Where a dial asks the server to start, as a position in its log: behind the
  // last frame the edge could decode; after a rejection at the end of the log or
  // later; wherever, before anything was decoded.
  datatype Start = Anywhere | At(pos: nat) | From(pos: nat)

  // A session and the stretch of the log that came over it.
  datatype Session = Session(start: Start, first: nat, count: nat) {
    function End(): nat { first + count }

    predicate Holds(q: int) { first <= q < End() }
  }

  // The sessions so far, and the position behind the last decoded frame.
  datatype Trail = Trail(sessions: seq<Session>, decodedEnd: nat)

  function StartOf(w: World, t: Trail): Start {
    if w.edge.cursorRejected then From(|w.up.log|)
    else if t.decodedEnd > 0 then At(t.decodedEnd)
    else Anywhere
  }

  function Extended(s: Session, pos: nat): Session {
    s.(first := if s.count == 0 then pos else s.first, count := s.count + 1)
  }

  function Follow(w: World, t: Trail, e: Event): Trail {
    if e.Dial? then t.(sessions := t.sessions + [Session(StartOf(w, t), 0, 0)])
    else if e.Receive? && w.link.Up? && w.link.wire != [] && t.sessions != [] then
      var n := |t.sessions| - 1;
      Trail(t.sessions[..n] + [Extended(t.sessions[n], w.link.pos)],
            if w.link.wire[0].decoded > 0 then w.link.pos + 1 else t.decodedEnd)
    else t
  }

  // Frames rise, but the edge may be unable to read some of them.
  ghost predicate Happens(w: World, e: Event): (yes: bool)
    ensures yes ==> FrameReplay.Inv(w.up) && Possible(w, e)
  {
    && FrameReplay.Inv(w.up) && Possible(w, e)
    && (e.NewFrame? ==> FrameFits(w.up.prior, w.up.log, e.frame))
  }

  ghost predicate Run(w: World, t: Trail, events: seq<Event>, w': World, t': Trail)
    decreases |events|
  {
    if events == [] then w' == w && t' == t
    else Happens(w, events[0]) && Run(Step(w, events[0]), Follow(w, t, events[0]), events[1..], w', t')
  }

  predicate Fit(log: Frames, ss: seq<Session>) {
    forall i :: 0 <= i < |ss| ==> ss[i].End() <= |log|
  }

  // The stretches one after another.
  function Joined(log: Frames, ss: seq<Session>): Frames
    requires Fit(log, ss)
  {
    if ss == [] then []
    else Joined(log, ss[..|ss| - 1]) + log[ss[|ss| - 1].first..ss[|ss| - 1].End()]
  }

  // `p` is the position behind a frame that came over and was decoded, or 0, and
  // nothing that came over from there on was decoded.
  ghost predicate Frontier(log: Frames, ss: seq<Session>, p: nat) {
    && p <= |log|
    && (p > 0 ==> log[p - 1].decoded > 0 && exists i :: 0 <= i < |ss| && ss[i].Holds(p - 1))
    && (forall i, q :: 0 <= i < |ss| && ss[i].Holds(q) && p <= q < |log| ==> log[q].decoded == 0)
  }

  // Session `j` began where its dial asked it to.
  ghost predicate BeganRight(log: Frames, ss: seq<Session>, j: nat)
    requires j < |ss|
  {
    var s := ss[j];
    match s.start
    case Anywhere => Frontier(log, ss[..j], 0)
    case At(p) => Frontier(log, ss[..j], p) && (s.count > 0 ==> s.first == p)
    case From(p) => (forall i :: 0 <= i < j ==> ss[i].End() <= p) && (s.count > 0 ==> s.first >= p)
  }

  // What the edge has republished is what came over its sessions, each a stretch
  // of the log that began where it was asked to.
  ghost predicate Republished(w: World, t: Trail) {
    && Fit(w.up.log, t.sessions)
    && w.edge.published == Joined(w.up.log, t.sessions)
    && (forall j :: 0 <= j < |t.sessions| ==> BeganRight(w.up.log, t.sessions, j))
    && Frontier(w.up.log, t.sessions, t.decodedEnd)
  }

  // ----- the link -----

  predicate Begins(start: Start, pos: nat) {
    match start
    case Anywhere => true
    case At(p) => pos == p
    case From(p) => pos >= p
  }

  // A read at cursor `c` will begin right.
  predicate Reaches(u: FrameReplay.Upstream, start: Start, c: nat) {
    match start
    case Anywhere => true
    case At(p) => 0 < p <= |u.log| && c == u.log[p - 1].lastSequence
    case From(p) => p <= |u.log| && (p == 0 || c >= u.log[p - 1].lastSequence || (c == 0 && p <= u.gone))
  }

  // What is under way goes on from the session's stretch, or begins it.
  ghost predicate LinkFollows(u: FrameReplay.Upstream, link: Link, s: Session) {
    link.Up? ==>
      var ahead := link.wire + link.snapshot;
      if s.count > 0 then
        && s.End() <= |u.log| && (ahead != [] ==> link.pos == s.End())
        && (link.wire == [] ==> link.cursor == u.log[s.End() - 1].lastSequence)
      else
        if ahead != [] then Begins(s.start, link.pos) else Reaches(u, s.start, link.cursor)
  }

  // The frontier does not lie past what the session brings next.
  predicate Ahead(s: Session, decodedEnd: nat) {
    if s.count > 0 then decodedEnd <= s.End()
    else match s.start
         case Anywhere => decodedEnd == 0
         case At(p) => decodedEnd == p
         case From(p) => decodedEnd <= p
  }

  ghost predicate CursorIs(w: World, t: Trail) {
    !w.edge.cursorRejected ==>
      && t.decodedEnd <= |w.up.log|
      && w.edge.lastEventSequence == if t.decodedEnd == 0 then 0 else w.up.log[t.decodedEnd - 1].lastSequence
  }

  ghost predicate Inv(w: World, t: Trail) {
    && Ordered(w.up) && UrlOk(w.base) && w.edge.lastEventSequence < POW_64 && LinkOk(w.up, w.link)
    && Republished(w, t) && CursorIs(w, t)
    && (w.link.Up? ==>
          && t.sessions != []
          && LinkFollows(w.up, w.link, t.sessions[|t.sessions| - 1]) && Ahead(t.sessions[|t.sessions| - 1], t.decodedEnd))
  }

  lemma InitInv(capacity: nat, prior: nat, base: string)
    requires UrlOk(base)
    ensures Inv(Init(capacity, prior, base), Trail([], 0))
  {
    hide UrlOk;
  }

  // ----- a longer log -----

  lemma {:induction false} JoinedGrows(log: Frames, more: Frames, ss: seq<Session>)
    requires Fit(log, ss)
    ensures Joined(log + more, ss) == Joined(log, ss)
  {
    if ss != [] {
      var n := |ss| - 1;
      JoinedGrows(log, more, ss[..n]);
      assert (log + more)[ss[n].first..ss[n].End()] == log[ss[n].first..ss[n].End()];
    }
  }

  lemma FrontierGrows(log: Frames, more: Frames, ss: seq<Session>, p: nat)
    requires Frontier(log, ss, p) && Fit(log, ss)
    ensures Frontier(log + more, ss, p)
  {
    var log' := log + more;
    assert forall i :: 0 <= i < |log| ==> log'[i] == log[i];
  }

  lemma RepublishedGrows(w: World, t: Trail, w': World, f: FrameReplay.WireFrame)
    requires Republished(w, t) && w'.edge.published == w.edge.published && w'.up.log == w.up.log + [f]
    ensures Republished(w', t)
  {
    hide Frontier, Joined;
    var log, ss := w.up.log, t.sessions;
    JoinedGrows(log, [f], ss);
    FrontierGrows(log, [f], ss, t.decodedEnd);
    forall j | 0 <= j < |ss| ensures BeganRight(log + [f], ss, j) {
      assert BeganRight(log, ss, j);
      if !ss[j].start.From? {
        FrontierGrows(log, [f], ss[..j], if ss[j].start.At? then ss[j].start.pos else 0);
      }
    }
  }

  lemma NewFrameKeepsInv(w: World, t: Trail, f: FrameReplay.WireFrame)
    requires Inv(w, t) && Happens(w, NewFrame(f))
    ensures Inv(Step(w, NewFrame(f)), t)
  {
    hide UrlOk, Ordered, FrameReplay.Inv, FrameFits, Republished, Frontier;
    NewFrameKeepsOrder(w.up, f);
    var w' := Step(w, NewFrame(f));
    assert w'.up.log == w.up.log + [f];
    RepublishedGrows(w, t, w', f);
    assert forall i :: 0 <= i < |w.up.log| ==> w'.up.log[i] == w.up.log[i];
  }

  // ----- dialling -----

  lemma RepublishedDial(w: World, t: Trail, w': World)
    requires Republished(w, t) && w'.edge == w.edge && w'.up == w.up
    ensures Republished(w', Follow(w, t, Dial))
  {
    hide Joined;
    var log, ss, t' := w.up.log, t.sessions, Follow(w, t, Dial);
    var n := |ss|;
    assert t'.sessions[..n] == ss && log[0..0] == [];
    assert Joined(log, t'.sessions) == Joined(log, ss) by {
      JoinedNothing(log, ss, StartOf(w, t));
    }
    FrontierSkips(log, ss, t'.sessions[n], t.decodedEnd);
    hide Frontier;
    forall j | 0 <= j < n + 1 ensures BeganRight(log, t'.sessions, j) {
      assert j < n ==> t'.sessions[..j] == ss[..j] && t'.sessions[j] == ss[j] && BeganRight(log, ss, j);
    }
  }

  lemma JoinedNothing(log: Frames, ss: seq<Session>, start: Start)
    requires Fit(log, ss)
    ensures Joined(log, ss + [Session(start, 0, 0)]) == Joined(log, ss)
  {
    assert (ss + [Session(start, 0, 0)])[..|ss|] == ss;
  }

  lemma FrontierSkips(log: Frames, ss: seq<Session>, s: Session, p: nat)
    requires Frontier(log, ss, p) && s.count == 0
    ensures Frontier(log, ss + [s], p)
  {
    var ss' := ss + [s];
    assert forall i :: 0 <= i < |ss| ==> ss'[i] == ss[i];
  }

  // The server's cursor after a dial.
  lemma DialReaches(w: World, t: Trail)
    requires Ordered(w.up) && UrlOk(w.base) && w.edge.lastEventSequence < POW_64 && w.link.Down? && CursorIs(w, t)
    ensures Possible(w, Dial) && Reaches(w.up, StartOf(w, t), Asked(w).value.GetOr(w.up.latest))
  {
    hide Asked, UrlOk, DialUrl.ServerCursor, FrameReplay.Inv;
    AskedIsIntended(w);
    if !w.edge.cursorRejected && t.decodedEnd > 0 {
      FrameReplay.LastsGrow(w.up.prior, w.up.log, t.decodedEnd - 1, t.decodedEnd - 1);
    }
  }

  lemma DialKeepsInv(w: World, t: Trail)
    requires Inv(w, t) && Happens(w, Dial)
    ensures Inv(Step(w, Dial), Follow(w, t, Dial))
  {
    hide Asked, UrlOk, Ordered, FrameReplay.Inv, Republished, Reaches, LinkFollows;
    DialReaches(w, t);
    var w', t' := Step(w, Dial), Follow(w, t, Dial);
    RepublishedDial(w, t, w');
    FrontierBound(w, t);
    assert LinkFollows(w'.up, w'.link, t'.sessions[|t'.sessions| - 1]) by {
      NothingYet(w'.up, w'.link, t'.sessions[|t'.sessions| - 1]);
    }
  }

  lemma NothingYet(u: FrameReplay.Upstream, link: Link, s: Session)
    requires link.Up? && link.wire == link.snapshot == [] && s.count == 0 && Reaches(u, s.start, link.cursor)
    ensures LinkFollows(u, link, s)
  {
  }

  lemma FrontierBound(w: World, t: Trail)
    requires Republished(w, t)
    ensures t.decodedEnd <= |w.up.log|
  {
  }

  // ----- reading -----

  lemma ReadBegins(u: FrameReplay.Upstream, start: Start, c: nat)
    requires Ordered(u) && Reaches(u, start, c) && FrameReplay.After(u, c).Ok?
    ensures var frames := FrameReplay.After(u, c).value;
            |frames| <= |u.log| && (frames != [] ==> Begins(start, |u.log| - |frames|))
  {
    hide FrameReplay.After, FrameReplay.Inv;
    ReadIsSuffix(u, c);
    match start
    case Anywhere =>
    case At(p) =>
      ReadContinues(u, p - 1);
    case From(p) =>
      assert forall i: nat :: i < |u.log| ==> u.log[i].lastSequence > 0;
  }

  lemma ReadFollows(w: World, s: Session)
    requires Ordered(w.up) && LinkOk(w.up, w.link) && LinkFollows(w.up, w.link, s) && Happens(w, Read)
    ensures LinkFollows(w.up, Step(w, Read).link, s)
  {
    hide Ordered, FrameReplay.After, Reaches, Begins, LinkOk;
    var u, l := w.up, w.link;
    if FrameReplay.After(u, l.cursor).Ok? && l.wire == [] {
      var frames := FrameReplay.After(u, l.cursor).value;
      if s.count > 0 {
        ReadContinues(u, s.End() - 1);
      } else {
        ReadBegins(u, s.start, l.cursor);
      }
      assert [] + frames == frames;
    }
  }

  lemma ReadLinkOk(w: World)
    requires Ordered(w.up) && LinkOk(w.up, w.link) && Happens(w, Read)
    ensures LinkOk(w.up, Step(w, Read).link)
  {
    hide Ordered, FrameReplay.After, LinkOk;
    var l, r := w.link, FrameReplay.After(w.up, w.link.cursor);
    if r.Err? {
      RefusedBehindWire(w.up, l);
    } else if l.wire != [] {
      ReadBehindWire(w.up, l, r.value);
    } else {
      ReadFirst(w.up, l, r.value);
    }
  }

  lemma ReadKeepsInv(w: World, t: Trail)
    requires Inv(w, t) && Happens(w, Read)
    ensures Inv(Step(w, Read), t)
  {
    hide Ordered, FrameReplay.Inv, FrameReplay.After, LinkOk, LinkFollows, UrlOk, Frontier, Joined, BeganRight;
    ReadFollows(w, t.sessions[|t.sessions| - 1]);
    ReadLinkOk(w);
  }

  // ----- writing -----

  lemma WriteKeepsInv(w: World, t: Trail)
    requires Inv(w, t) && Happens(w, Write)
    ensures Inv(Step(w, Write), t)
  {
    hide Ordered, FrameReplay.Inv, LinkOk, UrlOk, Frontier, Joined, BeganRight, Begins, Reaches;
    WriteLinkOk(w.up, w.link);
    var l := w.link;
    assert (l.wire + [l.snapshot[0]]) + l.snapshot[1..] == l.wire + l.snapshot;
  }

  // ----- receiving -----

  lemma JoinedExtends(log: Frames, init: seq<Session>, s: Session, pos: nat)
    requires Fit(log, init)
    requires pos < |log| && s.End() <= |log| && (s.count > 0 ==> pos == s.End())
    ensures Joined(log, init + [Extended(s, pos)]) == Joined(log, init + [s]) + [log[pos]]
  {
    var s' := Extended(s, pos);
    assert (init + [s'])[..|init|] == init && (init + [s])[..|init|] == init;
    assert log[s'.first..s'.End()] == log[s.first..s.End()] + [log[pos]];
    var a := Joined(log, init);
    assert (a + log[s.first..s.End()]) + [log[pos]] == a + (log[s.first..s.End()] + [log[pos]]);
  }

  lemma FrontierMoves(log: Frames, init: seq<Session>, s: Session, pos: nat, p: nat)
    requires Frontier(log, init + [s], p) && pos < |log| && (s.count > 0 ==> pos == s.End()) && p <= pos
    requires Fit(log, init)
    requires forall i, q :: 0 <= i < |init| && init[i].Holds(q) && pos < q < |log| ==> log[q].decoded == 0
    ensures Frontier(log, init + [Extended(s, pos)], if log[pos].decoded > 0 then pos + 1 else p)
  {
    var s' := Extended(s, pos);
    var before, after := init + [s], init + [s'];
    var p' := if log[pos].decoded > 0 then pos + 1 else p;
    assert after[|init|] == s' && s'.Holds(pos);
    forall i, q | 0 <= i < |after| && after[i].Holds(q) && p' <= q < |log| ensures log[q].decoded == 0 {
      if i < |init| {
        assert before[i] == init[i];
      } else if q != pos {
        assert before[|init|] == s && s.Holds(q);
      }
    }
    if p' == p && p > 0 {
      var i :| 0 <= i < |before| && before[i].Holds(p - 1);
      assert after[i].Holds(p - 1);
    }
  }

  lemma BeganStays(log: Frames, init: seq<Session>, s: Session, pos: nat, j: nat)
    requires j <= |init| && BeganRight(log, init + [s], j)
    requires s.count > 0 || Begins(s.start, pos)
    ensures BeganRight(log, init + [Extended(s, pos)], j)
  {
    hide Frontier;
    var before, after := init + [s], init + [Extended(s, pos)];
    assert after[..j] == before[..j];
    assert j < |init| ==> after[j] == before[j];
  }

  lemma RepublishedReceive(log: Frames, init: seq<Session>, s: Session, pos: nat, decodedEnd: nat, w: World, w': World)
    requires Republished(w, Trail(init + [s], decodedEnd)) && w.up.log == log == w'.up.log && pos < |log|
    requires w'.edge.published == w.edge.published + [log[pos]]
    requires if s.count > 0 then pos == s.End() else Begins(s.start, pos)
    requires decodedEnd <= pos
    ensures Republished(w', Trail(init + [Extended(s, pos)], if log[pos].decoded > 0 then pos + 1 else decodedEnd))
  {
    hide Joined;
    var before, after := init + [s], init + [Extended(s, pos)];
    assert before[|init|] == s;
    assert forall i :: 0 <= i < |init| ==> before[i] == init[i];
    JoinedExtends(log, init, s, pos);
    forall i, q | 0 <= i < |init| && init[i].Holds(q) && pos < q < |log| ensures log[q].decoded == 0 {
      assert before[i].Holds(q);
    }
    FrontierMoves(log, init, s, pos, decodedEnd);
    hide Frontier;
    forall j | 0 <= j < |after| ensures BeganRight(log, after, j) {
      BeganStays(log, init, s, pos, j);
    }
  }

  lemma NextFrame(u: FrameReplay.Upstream, l: Link, s: Session, decodedEnd: nat)
    requires l.Up? && l.wire != [] && LinkFollows(u, l, s) && Ahead(s, decodedEnd)
    ensures if s.count > 0 then l.pos == s.End() else Begins(s.start, l.pos)
    ensures decodedEnd <= l.pos
  {
    assert l.wire + l.snapshot != [];
  }

  lemma ReceivedFollows(u: FrameReplay.Upstream, l: Link, s: Session)
    requires Ordered(u) && LinkOk(u, l) && LinkFollows(u, l, s) && l.Up? && l.wire != []
    ensures LinkFollows(u, l.(wire := l.wire[1..], pos := l.pos + 1), Extended(s, l.pos))
  {
    ReceivedFrame(u, l);
    hide Ordered;
    NextIsAhead(l, s);
    assert |l.wire| == 1 ==> l.wire == [l.wire[0]];
    assert s.count > 0 ==> l.wire + l.snapshot != [];
  }

  lemma NextIsAhead(l: Link, s: Session)
    requires l.Up? && l.wire != [] && (s.count > 0 && l.wire + l.snapshot != [] ==> l.pos == s.End())
    ensures Extended(s, l.pos).End() == l.pos + 1
  {
    assert (l.wire + l.snapshot)[0] == l.wire[0];
  }

  lemma ReceiveKeepsInv(w: World, t: Trail)
    requires Inv(w, t) && Happens(w, Receive)
    ensures Inv(Step(w, Receive), Follow(w, t, Receive))
  {
    hide Ordered, FrameReplay.Inv, LinkOk, LinkFollows, UrlOk, Republished, Begins, Ahead;
    var n := |t.sessions| - 1;
    var init, s, l := t.sessions[..n], t.sessions[n], w.link;
    assert t.sessions == init + [s];
    ReceivedFrame(w.up, l);
    NextFrame(w.up, l, s, t.decodedEnd);
    ReceivedFollows(w.up, l, s);
    var w', t' := Step(w, Receive), Follow(w, t, Receive);
    RepublishedReceive(w.up.log, init, s, l.pos, t.decodedEnd, w, w');
    ReceivedDecodes(w.up, l);
    assert Ahead(Extended(s, l.pos), t'.decodedEnd) by {
      StillAhead(s, l.pos, t.decodedEnd, t'.decodedEnd);
    }
  }

  lemma StillAhead(s: Session, pos: nat, before: nat, after: nat)
    requires before <= pos && after <= pos + 1 && (s.count > 0 ==> pos == s.End())
    ensures Ahead(Extended(s, pos), after)
  {
  }

  lemma ReceivedDecodes(u: FrameReplay.Upstream, l: Link)
    requires Ordered(u) && l.Up? && l.wire != [] && l.pos < |u.log| && l.wire[0] == u.log[l.pos]
    ensures l.wire[0].decoded == 0 || l.wire[0].decoded == u.log[l.pos].lastSequence < POW_64
  {
  }

  // ----- runs -----

  lemma RestartKeepsInv(w: World, t: Trail)
    requires Inv(w, t) && Happens(w, UpstreamRestarts)
    ensures Inv(Step(w, UpstreamRestarts), t)
  {
    hide UrlOk, Frontier, Joined, BeganRight, LinkFollows;
    FrameReplay.RestartKeepsInv(w.up);
  }

  lemma EndKeepsInv(w: World, t: Trail, e: Event)
    requires Inv(w, t) && Happens(w, e) && (e.ReceiveClose? || e.Disconnect?)
    ensures Inv(Step(w, e), t)
  {
    hide UrlOk, Ordered, Frontier, Joined, BeganRight, LinkFollows, LinkOk;
    NoLink(w.up);
  }

  lemma NoLink(u: FrameReplay.Upstream)
    ensures LinkOk(u, Down)
  {
  }

  lemma StepKeepsInv(w: World, t: Trail, e: Event)
    requires Inv(w, t) && Happens(w, e)
    ensures Inv(Step(w, e), Follow(w, t, e))
  {
    hide Inv, Step, Happens;
    match e
    case NewFrame(f) => NewFrameKeepsInv(w, t, f);
    case UpstreamRestarts => RestartKeepsInv(w, t);
    case Dial => DialKeepsInv(w, t);
    case Read => ReadKeepsInv(w, t);
    case Write => WriteKeepsInv(w, t);
    case Receive => ReceiveKeepsInv(w, t);
    case ReceiveClose => EndKeepsInv(w, t, e);
    case Disconnect => EndKeepsInv(w, t, e);
  }

  // In every run, with frames the edge cannot decode and whatever cursor is
  // rejected whenever: the edge republishes one stretch of the server's log per
  // session. Once a frame was decoded and until a cursor is rejected, a session
  // begins right behind the last decoded frame, so that nothing is skipped and only
  // frames that could not be decoded come again; after a rejection it begins no earlier than the log
  // ended when it was dialled, so that nothing comes again.
  lemma {:induction false} RepublishesBySessions(w: World, t: Trail, events: seq<Event>, w': World, t': Trail)
    requires Inv(w, t) && Run(w, t, events, w', t')
    ensures Inv(w', t') && Republished(w', t')
    decreases |events|
  {
    hide Step, Happens, Follow, Republished, LinkFollows, Ordered, LinkOk, UrlOk, CursorIs;
    if events != [] {
      StepKeepsInv(w, t, events[0]);
      RepublishesBySessions(Step(w, events[0]), Follow(w, t, events[0]), events[1..], w', t');
    }
  }

  // ----- when it is one unbroken stretch -----

  // Where the last session that brought something ended.
  function LastEnd(ss: seq<Session>): Option<nat> {
    if ss == [] then None
    else if ss[|ss| - 1].count > 0 then Some(ss[|ss| - 1].End())
    else LastEnd(ss[..|ss| - 1])
  }

  // Every session that brought something went on where the one before ended.
  predicate FollowOn(ss: seq<Session>) {
    ss == [] ||
    var init, s := ss[..|ss| - 1], ss[|ss| - 1];
    FollowOn(init) && (s.count > 0 && LastEnd(init).Some? ==> s.first == LastEnd(init).value)
  }

  lemma SamePlace(prior: nat, log: Frames, i: nat, j: nat)
    requires FrameReplay.Increasing(prior, log) && i < |log| && j < |log| && log[i] == log[j]
    ensures i == j
  {
    FrameReplay.LastsGrow(prior, log, i, j);
    FrameReplay.LastsGrow(prior, log, j, i);
  }

  lemma {:induction false} JoinedEnds(log: Frames, ss: seq<Session>)
    requires Fit(log, ss)
    ensures Joined(log, ss) == [] <==> LastEnd(ss).None?
    ensures LastEnd(ss).Some? ==>
      0 < LastEnd(ss).value <= |log| && Joined(log, ss)[|Joined(log, ss)| - 1] == log[LastEnd(ss).value - 1]
  {
    if ss != [] {
      JoinedEnds(log, ss[..|ss| - 1]);
    }
  }

  // A slice that ends at the frame before `e` ends there.
  lemma SliceEnds(prior: nat, log: Frames, p: Frames, k: nat, e: nat)
    requires FrameReplay.Increasing(prior, log) && p != [] && EdgeRejection.IsSlice(p, log, k)
    requires 0 < e <= |log| && p[|p| - 1] == log[e - 1]
    ensures k + |p| == e
  {
    assert p[|p| - 1] == log[k + |p| - 1];
    SamePlace(prior, log, k + |p| - 1, e - 1);
  }

  lemma SliceGoesOn(prior: nat, log: Frames, p: Frames, s: Session, k: nat)
    requires FrameReplay.Increasing(prior, log) && s.End() <= |log| && s.count > 0 && p != []
    requires EdgeRejection.IsSlice(p, log, k)
    ensures EdgeRejection.IsSlice(p + log[s.first..s.End()], log, k) <==> s.first == k + |p|
  {
    var more := log[s.first..s.End()];
    if EdgeRejection.IsSlice(p + more, log, k) {
      assert (p + more)[|p|] == more[0] == log[s.first];
      assert (p + more)[|p|] == log[k + |p|];
      SamePlace(prior, log, s.first, k + |p|);
    }
  }

  lemma FirstPart(log: Frames, p: Frames, more: Frames, k: nat)
    requires EdgeRejection.IsSlice(p + more, log, k)
    ensures EdgeRejection.IsSlice(p, log, k)
  {
    assert (p + more)[..|p|] == p;
  }

  lemma {:induction false} ContiguousIffFollowOn(prior: nat, log: Frames, ss: seq<Session>)
    requires Fit(log, ss) && FrameReplay.Increasing(prior, log)
    ensures EdgeRejection.Contiguous(Joined(log, ss), log) <==> FollowOn(ss)
  {
    hide FrameReplay.Increasing, EdgeRejection.IsSlice;
    if ss == [] {
      assert EdgeRejection.IsSlice([], log, 0) by {
        EmptySlice(log);
      }
    } else {
      var init, s := ss[..|ss| - 1], ss[|ss| - 1];
      var p, more := Joined(log, init), log[s.first..s.End()];
      ContiguousIffFollowOn(prior, log, init);
      JoinedEnds(log, init);
      if p == [] {
        assert p + more == more && FollowOn(init) by {
          NothingFollowsOn(init);
        }
        SessionIsSlice(log, s);
      } else if s.count == 0 {
        assert p + more == p;
      } else {
        if EdgeRejection.Contiguous(p + more, log) {
          var k: nat :| EdgeRejection.IsSlice(p + more, log, k);
          FirstPart(log, p, more, k);
          SliceEnds(prior, log, p, k, LastEnd(init).value);
          SliceGoesOn(prior, log, p, s, k);
        }
        if FollowOn(ss) {
          var k: nat :| EdgeRejection.IsSlice(p, log, k);
          SliceEnds(prior, log, p, k, LastEnd(init).value);
          SliceGoesOn(prior, log, p, s, k);
        }
      }
    }
  }

  lemma EmptySlice(log: Frames)
    ensures EdgeRejection.IsSlice([], log, 0)
  {
  }

  lemma SessionIsSlice(log: Frames, s: Session)
    requires s.End() <= |log|
    ensures EdgeRejection.IsSlice(log[s.first..s.End()], log, s.first)
  {
  }

  lemma {:induction false} NothingFollowsOn(ss: seq<Session>)
    requires LastEnd(ss).None?
    ensures FollowOn(ss)
  {
    if ss != [] {
      NothingFollowsOn(ss[..|ss| - 1]);
    }
  }

  // In every run, however early a cursor was rejected: what the edge has
  // republished is an unbroken stretch of the log if and only if every session
  // that brought something went on where the one before it ended.
  lemma UnbrokenIffSessionsFollowOn(w: World, t: Trail, events: seq<Event>, w': World, t': Trail)
    requires Inv(w, t) && Run(w, t, events, w', t')
    ensures EdgeRejection.Contiguous(w'.edge.published, w'.up.log) <==> FollowOn(t'.sessions)
  {
    RepublishesBySessions(w, t, events, w', t');
    hide Run, EdgeRejection.Contiguous, FollowOn, Frontier, LinkOk, LinkFollows, UrlOk, CursorIs, BeganRight;
    ContiguousIffFollowOn(w'.up.prior, w'.up.log, t'.sessions);
  }

  // ----- a frame that comes again -----

  const FIRST := FrameReplay.WireFrame(1, 1, 1, 1, [])
  const BLANK := FrameReplay.WireFrame(2, 2, 2, 0, [])

  // The server after it has broadcast a frame the edge can decode and one it
  // cannot.
  const BOTH := FrameReplay.Upstream(2, 0, [FIRST, BLANK], 0, 0, 2)

  lemma {:induction false} RunSnoc(w: World, t: Trail, events: seq<Event>, mid: World, u: Trail, e: Event)
    requires Run(w, t, events, mid, u) && Happens(mid, e)
    ensures Run(w, t, events + [e], Step(mid, e), Follow(mid, u, e))
    decreases |events|
  {
    hide Step, Happens, Follow;
    if events == [] {
      assert [e][1..] == [];
    } else {
      RunSnoc(Step(w, events[0]), Follow(w, t, events[0]), events[1..], mid, u, e);
      assert (events + [e])[1..] == events[1..] + [e];
    }
  }

  lemma Then(w: World, events: seq<Event>, mid: World, u: Trail, e: Event) returns (events': seq<Event>, w': World, t': Trail)
    requires Run(w, NOTHING, events, mid, u) && Happens(mid, e)
    ensures Run(w, NOTHING, events', w', t') && w' == Step(mid, e) && t' == Follow(mid, u, e)
  {
    hide Run, Step, Happens, Follow;
    RunSnoc(w, NOTHING, events, mid, u, e);
    events', w', t' := events + [e], Step(mid, e), Follow(mid, u, e);
  }

  const NOTHING := Trail([], 0)

  lemma BothReads(c: nat)
    requires c <= 1
    ensures FrameReplay.After(BOTH, c) == Ok(if c == 0 then [FIRST, BLANK] else [BLANK])
  {
    var log := [FIRST, BLANK];
    assert BOTH.log[BOTH.gone..] == log == [FIRST] + [BLANK] && log[..1] == [FIRST] && [FIRST][..0] == [];
    assert FrameReplay.Past([], c) == [];
    assert FrameReplay.Past([FIRST], c) == if c == 0 then [FIRST] else [];
    assert FrameReplay.Past(log, c) == FrameReplay.Past([FIRST], c) + [BLANK];
    assert [] + [BLANK] == [BLANK];
  }

  const ONE := FrameReplay.Upstream(2, 0, [FIRST], 0, 0, 1)

  lemma Publishes()
    ensures var u := FrameReplay.Start(2, 0);
      && FrameReplay.Inv(u) && FrameFits(0, [], FIRST) && FrameReplay.Publish(u, FIRST) == ONE
      && FrameReplay.Inv(ONE) && FrameFits(0, [FIRST], BLANK) && FrameReplay.Publish(ONE, BLANK) == BOTH
  {
    assert [] + [FIRST] == [FIRST] && [FIRST] + [BLANK] == [FIRST, BLANK];
  }

  lemma BothInv()
    ensures FrameReplay.Inv(BOTH) && FrameReplay.Inv(Init(2, 0, "/").up)
  {
  }

  // The first session has been dialled and both frames are broadcast.
  lemma Broadcasts() returns (events: seq<Event>, w: World, t: Trail)
    ensures Run(Init(2, 0, "/"), NOTHING, events, w, t)
    ensures w == World(BOTH, Up(0, [], [], false, 0), Edge(0, false, []), "/", 0)
  {
    hide Asked, Run, DialUrl.ServerCursor, DialUrl.Plain, FrameReplay.Publish, FrameReplay.Inv, FrameFits, Follow;
    var w0 := Init(2, 0, "/");
    Publishes();
    DialUrl.BareUrl("/");
    AskedIsIntended(w0);
    assert Run(w0, NOTHING, [], w0, NOTHING) by {
      Starts(w0);
    }
    events, w, t := Then(w0, [], w0, NOTHING, Dial);
    events, w, t := Then(w0, events, w, t, NewFrame(FIRST));
    events, w, t := Then(w0, events, w, t, NewFrame(BLANK));
  }

  lemma Starts(w: World)
    ensures Run(w, NOTHING, [], w, NOTHING)
  {
  }

  // Both come over, and the link breaks.
  lemma Delivers() returns (events: seq<Event>, w: World, t: Trail)
    ensures Run(Init(2, 0, "/"), NOTHING, events, w, t)
    ensures w == World(BOTH, Down, Edge(1, false, [FIRST, BLANK]), "/", 0)
  {
    hide Asked, Run, FrameReplay.After, FrameReplay.Inv, Follow;
    var w0 := Init(2, 0, "/");
    BothInv();
    BothReads(0);
    events, w, t := Broadcasts();
    events, w, t := Then(w0, events, w, t, Read);
    events, w, t := Then(w0, events, w, t, Write);
    events, w, t := Then(w0, events, w, t, Write);
    assert w.link == Up(2, [], [FIRST, BLANK], false, 0);
    events, w, t := Then(w0, events, w, t, Receive);
    events, w, t := Then(w0, events, w, t, Receive);
    events, w, t := Then(w0, events, w, t, Disconnect);
  }

  // The edge redials with the cursor of the first frame and republishes the
  // second one again.
  lemma UndecodedComesAgain() returns (events: seq<Event>, w: World, t: Trail)
    ensures Run(Init(2, 0, "/"), NOTHING, events, w, t)
    ensures w.up.log == [FIRST, BLANK] && w.edge.published == [FIRST, BLANK, BLANK]
  {
    hide Asked, Run, FrameReplay.After, FrameReplay.Inv, Follow, DialUrl.ServerCursor, DialUrl.Plain;
    var w0 := Init(2, 0, "/");
    BothInv();
    BothReads(1);
    DialUrl.BareUrl("/");
    events, w, t := Delivers();
    AskedIsIntended(w);
    events, w, t := Then(w0, events, w, t, Dial);
    events, w, t := Then(w0, events, w, t, Read);
    events, w, t := Then(w0, events, w, t, Write);
    events, w, t := Then(w0, events, w, t, Receive);
  }
}
