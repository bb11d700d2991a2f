/** The edge's single upstream connection (src/edge/upstream.rs): which cursor
    it dials with, how a received frame moves that cursor, and what the whole
    chain of upstream ring, session, wire and edge delivers across reconnects. */
module DialUrl {
  import opened Basics
  import opened Decimal
  import opened TextSearch
  import Hex

  const CURSOR := "after_sequence="

  predicate StartsWith(s: string, prefix: string) {
    prefix <= s
  }

  function Path(url: string): string {
    url[..Find(url, '?')]
  }

  function Query(url: string): string {
    var i := Find(url, '?');
    if i < |url| then url[i + 1..] else ""
  }

  function Split(s: string): (parts: seq<string>)
    ensures parts != [] && forall k :: 0 <= k < |parts| ==> '&' !in parts[k]
    decreases |s|
  {
    var i := Find(s, '&');
    if i == |s| then assert s[..i] == s; [s] else [s[..i]] + Split(s[i + 1..])
  }

  function Join(parts: seq<string>): string {
    if parts == [] then ""
    else if |parts| == 1 then parts[0]
    else parts[0] + "&" + Join(parts[1..])
  }

  // The query parameters worth keeping: non-empty, and without the configured
  // cursor unless `keepCursor`.
  function Kept(parts: seq<string>, keepCursor: bool): seq<string> {
    if parts == [] then []
    else (if parts[0] != "" && (keepCursor || !StartsWith(parts[0], CURSOR)) then [parts[0]] else [])
         + Kept(parts[1..], keepCursor)
  }

  function Dial(base: string, lastEventSequence: nat, cursorRejected: bool): string {
    var keep := lastEventSequence == 0 && !cursorRejected;
    var params := Kept(Split(Query(base)), keep)
      + if lastEventSequence > 0 && !cursorRejected then [CURSOR + Format(lastEventSequence)] else [];
    if params == [] then Path(base) else Path(base) + "?" + Join(params)
  }

  // ----- the server's reading of a URL -----

  const CURSOR_KEY := "after_sequence"

  // Percent-decoding of a form value, for the ASCII characters that matter here.
  function PercentDecode(s: string): string {
    if s == "" then ""
    else if s[0] == '+' then " " + PercentDecode(s[1..])
    else if s[0] == '%' && |s| >= 3 && Hex.HexValue(s[1]).Some? && Hex.HexValue(s[2]).Some? then
      var code := 16 * Hex.HexValue(s[1]).value + Hex.HexValue(s[2]).value;
      [if code < 256 then code as char else ' '] + PercentDecode(s[3..])
    else [s[0]] + PercentDecode(s[1..])
  }

  function Params(url: string): seq<string> {
    Kept(Split(Query(url)), true)
  }

  function KeyOf(part: string): string {
    PercentDecode(part[..Find(part, '=')])
  }

  function ValueOf(part: string): string {
    var i := Find(part, '=');
    if i < |part| then PercentDecode(part[i + 1..]) else ""
  }

  function CursorValues(parts: seq<string>): seq<string> {
    if parts == [] then []
    else (if KeyOf(parts[0]) == CURSOR_KEY then [ValueOf(parts[0])] else []) + CursorValues(parts[1..])
  }

  // Rust's `u64::from_str`: digits, with an optional plus sign.
  function ParseU64(s: string): Option<nat> {
    var digits := if s != "" && s[0] == '+' then s[1..] else s;
    if digits != "" && IsDigits(digits) && Value(digits) < POW_64 then Some(Value(digits)) else None
  }

  // `after_sequence` as the server sees it: absent, one number, or refused.
  function ServerCursor(url: string): Result<Option<nat>, ()> {
    var vs := CursorValues(Params(url));
    if vs == [] then Ok(None)
    else if |vs| == 1 && ParseU64(vs[0]).Some? then Ok(ParseU64(vs[0]))
    else Err(())
  }

  // What the server accepts is digits after an optional plus sign, of a number
  // below 2^64.
  lemma ServerCursorIs(url: string, n: nat)
    ensures ServerCursor(url) == Ok(Some(n)) <==>
      var vs := CursorValues(Params(url));
      |vs| == 1 && n < 0x1_0000_0000_0000_0000 &&
      exists digits :: (vs[0] == digits || vs[0] == "+" + digits) && digits != "" && IsDigits(digits) && Value(digits) == n
  {
    var vs := CursorValues(Params(url));
    if |vs| == 1 {
      U64TextIs(vs[0], n);
    }
  }

  lemma U64TextIs(s: string, n: nat)
    ensures ParseU64(s) == Some(n) <==>
      n < 0x1_0000_0000_0000_0000 &&
      exists digits :: (s == digits || s == "+" + digits) && digits != "" && IsDigits(digits) && Value(digits) == n
  {
    if s != "" && s[0] == '+' {
      assert s == "+" + s[1..];
      forall digits | s == "+" + digits ensures digits == s[1..] {
      }
      assert !IsDigits(s) by {
        assert s[0] == '+';
      }
    }
  }

  // The cursor the edge means to ask for.
  function IntendedCursor(configured: Option<nat>, lastEventSequence: nat, cursorRejected: bool): Option<nat> {
    if cursorRejected then None
    else if lastEventSequence > 0 then Some(lastEventSequence)
    else configured
  }

  // A configured cursor is spelled out, not percent-encoded.
  predicate PlainPart(part: string) {
    KeyOf(part) == CURSOR_KEY ==> StartsWith(part, CURSOR)
  }

  ghost predicate Plain(url: string) {
    AllPlain(Params(url))
  }

  ghost predicate Separable(parts: seq<string>) {
    forall k :: 0 <= k < |parts| ==> '&' !in parts[k]
  }

  lemma {:induction false} SplitOfJoin(parts: seq<string>)
    requires parts != [] && Separable(parts)
    ensures Split(Join(parts)) == parts
  {
    if |parts| == 1 {
      FindNone(parts[0], '&');
    } else {
      var rest := Join(parts[1..]);
      var all := Join(parts);
      FindStops(parts[0], rest, '&');
      assert all == parts[0] + ['&'] + rest;
      assert all[..|parts[0]|] == parts[0] && all[|parts[0]| + 1..] == rest;
      SplitOfJoin(parts[1..]);
      assert Split(all) == [parts[0]] + Split(rest);
    }
  }

  lemma {:induction false} KeptFacts(parts: seq<string>, keep: bool)
    requires Separable(parts)
    ensures Separable(Kept(parts, keep))
    ensures Kept(Kept(parts, keep), true) == Kept(parts, keep)
  {
    if parts != [] {
      var k := Kept(parts[1..], keep);
      KeptFacts(parts[1..], keep);
      if Kept(parts, keep) != k {
        assert Kept(parts, keep)[1..] == k;
      } else {
        assert [] + k == k;
      }
    }
  }

  ghost predicate AllPlain(parts: seq<string>) {
    forall part <- parts :: PlainPart(part)
  }

  lemma AllPlainCons(part: string, parts: seq<string>)
    ensures AllPlain([part] + parts) <==> PlainPart(part) && AllPlain(parts)
  {
    hide PlainPart;
    assert part in [part] + parts;
    assert forall p <- parts :: p in [part] + parts;
  }

  // Dropping the plain cursors drops them all exactly when all are plain.
  lemma {:induction false} CursorsDropIff(parts: seq<string>)
    ensures CursorValues(Kept(parts, false)) == [] <==> AllPlain(Kept(parts, true))
  {
    hide KeyOf, ValueOf, StartsWith, AllPlain;
    if parts == [] {
      NoneIsPlain();
    } else {
      var rest, all := parts[1..], Kept(parts[1..], true);
      CursorsDropIff(rest);
      assert [] + Kept(rest, false) == Kept(rest, false);
      if parts[0] == "" {
        assert [] + all == all;
      } else {
        AllPlainCons(parts[0], all);
        if StartsWith(parts[0], CURSOR) {
          PlainKey(parts[0]);
        } else {
          assert ([parts[0]] + Kept(rest, false))[1..] == Kept(rest, false);
        }
      }
    }
  }

  lemma NoneIsPlain()
    ensures AllPlain([])
  {
  }

  lemma {:induction false} NothingToDecode(s: string)
    requires '%' !in s && '+' !in s
    ensures PercentDecode(s) == s
  {
    if s != "" {
      NothingToDecode(s[1..]);
    }
  }

  lemma PlainKey(part: string)
    requires StartsWith(part, CURSOR)
    ensures KeyOf(part) == CURSOR_KEY && ValueOf(part) == PercentDecode(part[|CURSOR|..])
  {
    var rest := part[|CURSOR|..];
    assert CURSOR == CURSOR_KEY + "=" && '=' !in CURSOR_KEY;
    assert part == CURSOR_KEY + ['='] + rest;
    FindStops(CURSOR_KEY, rest, '=');
    assert part[..|CURSOR_KEY|] == CURSOR_KEY;
    NothingToDecode(CURSOR_KEY);
  }

  lemma {:induction false} KeptConcat(a: seq<string>, b: seq<string>)
    ensures Kept(a + b, true) == Kept(a, true) + Kept(b, true)
  {
    if a == [] {
      assert a + b == b;
    } else {
      KeptConcat(a[1..], b);
      assert (a + b)[1..] == a[1..] + b;
    }
  }

  lemma {:induction false} CursorValuesConcat(a: seq<string>, b: seq<string>)
    ensures CursorValues(a + b) == CursorValues(a) + CursorValues(b)
  {
    hide KeyOf, ValueOf;
    if a == [] {
      assert a + b == b;
    } else {
      CursorValuesConcat(a[1..], b);
      assert (a + b)[1..] == a[1..] + b;
    }
  }

  // Path and query of the dialled URL are what was put in.
  lemma DialParts(base: string, params: seq<string>)
    requires Separable(params) && Kept(params, true) == params
    ensures var url := if params == [] then Path(base) else Path(base) + "?" + Join(params);
            Path(url) == Path(base) && Params(url) == params
  {
    if params == [] {
      FindNone(Path(base), '?');
      FindNone("", '&');
      assert Split("") == [""] && Kept([""], true) == [];
    } else {
      var url := Path(base) + "?" + Join(params);
      FindStops(Path(base), Join(params), '?');
      assert url == Path(base) + ['?'] + Join(params);
      assert Query(url) == Join(params);
      SplitOfJoin(params);
    }
  }

  lemma OwnCursor(n: nat)
    requires n < POW_64
    ensures var own := CURSOR + Format(n);
            && '&' !in own && Kept([own], true) == [own]
            && CursorValues([own]) == [Format(n)] && ParseU64(Format(n)) == Some(n)
  {
    var own := CURSOR + Format(n);
    ValueOfFormat(n);
    assert '&' !in CURSOR;
    assert own[|CURSOR|..] == Format(n);
    PlainKey(own);
    NothingToDecode(Format(n));
    hide KeyOf, ValueOf;
    assert CursorValues([own]) == [ValueOf(own)] + CursorValues([own][1..]);
  }

  // The URL the edge dials asks the server for exactly the cursor it means: its
  // own once it has one, the configured one before that, none after a rejection.
  // This is so exactly when the configured URL does not hide a cursor behind
  // percent-encoding, which the edge would neither drop nor replace. The path is
  // untouched.
  lemma DialAsksForTheCursorIff(base: string, configured: Option<nat>, lastEventSequence: nat, cursorRejected: bool)
    requires ServerCursor(base) == Ok(configured) && lastEventSequence < POW_64
    ensures Path(Dial(base, lastEventSequence, cursorRejected)) == Path(base)
    ensures ServerCursor(Dial(base, lastEventSequence, cursorRejected))
            == Ok(IntendedCursor(configured, lastEventSequence, cursorRejected))
            <==> (lastEventSequence == 0 && !cursorRejected) || Plain(base)
  {
    hide Split, Find, Join, Format, KeyOf, ValueOf, AllPlain, ParseU64;
    var parts := Split(Query(base));
    var keep := lastEventSequence == 0 && !cursorRejected;
    var kept := Kept(parts, keep);
    KeptFacts(parts, keep);
    CursorsDropIff(parts);
    if lastEventSequence > 0 && !cursorRejected {
      var own := CURSOR + Format(lastEventSequence);
      OwnCursor(lastEventSequence);
      KeptConcat(kept, [own]);
      CursorValuesConcat(kept, [own]);
      DialParts(base, kept + [own]);
    } else {
      assert kept + [] == kept;
      DialParts(base, kept);
    }
  }

  // With an encoded cursor in the configured URL, the first dial works and every
  // later one is refused for naming the cursor twice.
  lemma EncodedCursorIsAskedTwice(path: string, part: string, n: nat)
    requires '?' !in path && '&' !in part && part != "" && KeyOf(part) == CURSOR_KEY && !StartsWith(part, CURSOR)
    requires ParseU64(ValueOf(part)).Some? && 0 < n < POW_64
    ensures ServerCursor(path + ['?'] + part) == Ok(ParseU64(ValueOf(part)))
    ensures ServerCursor(Dial(path + ['?'] + part, n, false)) == Err(())
  {
    hide KeyOf, ValueOf, Find, Format, ParseU64, Split;
    var base := path + ['?'] + part;
    FindStops(path, part, '?');
    assert Path(base) == path && Query(base) == part;
    SplitOfJoin([part]);
    assert Kept([part], true) == [part] && Kept([part], false) == [part];
    assert CursorValues([part]) == [ValueOf(part)] + CursorValues([part][1..]) == [ValueOf(part)];
    var own := CURSOR + Format(n);
    OwnCursor(n);
    KeptConcat([part], [own]);
    CursorValuesConcat([part], [own]);
    DialParts(base, [part] + [own]);
  }

  // `after%5Fsequence=5` is such a parameter.
  lemma EncodedCursorExists()
    ensures var part := "after" + "%5F" + "sequence" + ['='] + "5";
            && '&' !in part && part != "" && KeyOf(part) == CURSOR_KEY && !StartsWith(part, CURSOR)
            && ParseU64(ValueOf(part)) == Some(5)
  {
    hide KeyOf, ValueOf, PercentDecode;
    EncodedKey("after", "sequence", "5");
    assert "after" + "_" + "sequence" == CURSOR_KEY;
    var part := "after" + "%5F" + "sequence" + ['='] + "5";
    assert part[5] == '%' && CURSOR[5] == '_';
    FiveIsFive();
  }

  lemma FiveIsFive()
    ensures ParseU64("5") == Some(5)
  {
    assert "5"[..0] == "";
  }

  predicate NeedsNoDecoding(s: string) {
    '%' !in s && '+' !in s
  }

  lemma EncodedKey(a: string, b: string, v: string)
    requires NeedsNoDecoding(a) && NeedsNoDecoding(b) && NeedsNoDecoding(v) && '=' !in a && '=' !in b
    ensures var part := a + "%5F" + b + ['='] + v; KeyOf(part) == a + "_" + b && ValueOf(part) == v
  {
    hide Find, PercentDecode;
    var key := a + "%5F" + b;
    var part := key + ['='] + v;
    FindStops(key, v, '=');
    assert part[..|key|] == key && part[|key| + 1..] == v;
    NothingToDecode(v);
    NothingToDecode(b);
    assert key == a + ("%5F" + b);
    DecodeAfter(a, "%5F" + b);
    DecodeUnderscore(b);
    assert a + ("_" + b) == a + "_" + b;
  }

  lemma DecodeUnderscore(b: string)
    ensures PercentDecode("%5F" + b) == "_" + PercentDecode(b)
  {
    var s := "%5F" + b;
    assert s[0] == '%' && s[1] == '5' && s[2] == 'F' && s[3..] == b;
  }

  lemma PlainCharacter(s: string)
    requires s != "" && s[0] != '%' && s[0] != '+'
    ensures PercentDecode(s) == [s[0]] + PercentDecode(s[1..])
  {
  }

  lemma {:induction false} DecodeAfter(a: string, b: string)
    requires NeedsNoDecoding(a)
    ensures PercentDecode(a + b) == a + PercentDecode(b)
  {
    hide PercentDecode;
    if a == "" {
      assert a + b == b && a + PercentDecode(b) == PercentDecode(b);
    } else {
      PlainCharacter(a + b);
      DecodeAfter(a[1..], b);
      assert (a + b)[1..] == a[1..] + b;
      assert [a[0]] + (a[1..] + PercentDecode(b)) == a + PercentDecode(b);
    }
  }

  // A URL without a query asks for no cursor.
  lemma BareUrl(path: string)
    requires '?' !in path
    ensures ServerCursor(path) == Ok(None) && Plain(path)
  {
    FindNone(path, '?');
    FindNone("", '&');
    assert Split("") == [""] && Kept([""], true) == [];
  }
}

module EdgeDelivery {
  import opened Basics
  import opened FrameReplay
  import DialUrl

  // An established connection: the server's cursor, what it still has to
  // write, and what is on the wire, possibly followed by a 1013 close. `pos`
  // is the log position of the first frame on the wire or in the snapshot.
  datatype Link = Down | Up(cursor: nat, snapshot: seq<WireFrame>, wire: seq<WireFrame>, closing: bool, pos: nat)

  datatype Edge = Edge(lastEventSequence: nat, cursorRejected: bool, published: seq<WireFrame>)

  // `base` is the configured URL, `first` the log position of the first frame
  // the edge published.
  datatype World = World(up: Upstream, link: Link, edge: Edge, base: string, first: nat)

  datatype Event =
    | NewFrame(frame: WireFrame)
    | UpstreamRestarts
    | Dial
    | Read          // the session takes a snapshot
    | Write         // and writes its next frame
    | Receive
    | ReceiveClose
    | Disconnect

  function Init(capacity: nat, prior: nat, base: string): World {
    World(Start(capacity, prior), Down, Edge(0, false, []), base, 0)
  }

  // `on_frame`: a frame whose sequence cannot be read inherits the last one.
  function OnFrame(e: Edge, f: WireFrame): Edge {
    e.(lastEventSequence := if f.decoded > 0 then f.decoded else e.lastEventSequence, published := e.published + [f])
  }

  // What the server makes of the URL the edge dials.
  function Asked(w: World): Result<Option<nat>, ()> {
    DialUrl.ServerCursor(DialUrl.Dial(w.base, w.edge.lastEventSequence, w.edge.cursorRejected))
  }

  // Sequences go on rising, and the edge reads the last one off the frame or none.
  ghost predicate FrameFits(prior: nat, log: seq<WireFrame>, f: WireFrame) {
    Increasing(prior, log + [f]) && f.lastSequence < POW_64 && (f.decoded == 0 || f.decoded == f.lastSequence)
  }

  ghost predicate FrameOk(prior: nat, log: seq<WireFrame>, f: WireFrame) {
    FrameFits(prior, log, f) && f.decoded == f.lastSequence
  }

  // What can happen at all; any frame may be broadcast.
  predicate Possible(w: World, e: Event) {
    match e
    case NewFrame(_) => true
    case UpstreamRestarts => true
    case Dial => w.link.Down? && Asked(w).Ok?
    case Read => w.link.Up? && !w.link.closing && w.link.snapshot == []
    case Write => w.link.Up? && w.link.snapshot != []
    case Receive => w.link.Up? && w.link.wire != []
    case ReceiveClose => w.link.Up? && w.link.wire == [] && w.link.closing
    case Disconnect => w.link.Up?
  }

  ghost predicate Enabled(w: World, e: Event): (yes: bool)
    ensures yes ==> Possible(w, e)
  {
    Possible(w, e) && (e.NewFrame? ==> FrameOk(w.up.prior, w.up.log, e.frame))
  }

  ghost function Step(w: World, e: Event): World
    requires FrameReplay.Inv(w.up) && Possible(w, e)
  {
    match e
    case NewFrame(f) => w.(up := Publish(w.up, f))
    case UpstreamRestarts => w.(up := Restart(w.up), link := Down)
    case Dial => w.(link := Up(Asked(w).value.GetOr(w.up.latest), [], [], false, 0))
    case Read =>
      (match After(w.up, w.link.cursor)
       case Err(_) => w.(link := w.link.(closing := true))
       case Ok(frames) =>
         w.(link := w.link.(snapshot := frames, pos := if w.link.wire == [] then SatSub(|w.up.log|, |frames|) else w.link.pos)))
    case Write => w.(link := Written(w.link))
    case Receive =>
      w.(link := w.link.(wire := w.link.wire[1..], pos := w.link.pos + 1),
         edge := OnFrame(w.edge, w.link.wire[0]),
         first := if w.edge.published == [] then w.link.pos else w.first)
    case ReceiveClose => w.(link := Down, edge := w.edge.(cursorRejected := true))
    case Disconnect => w.(link := Down)
  }

  ghost predicate Run(w: World, events: seq<Event>, w': World)
    decreases |events|
  {
    if events == [] then w' == w
    else FrameReplay.Inv(w.up) && Enabled(w, events[0]) && Run(Step(w, events[0]), events[1..], w')
  }

  // ----- what every run keeps -----

  ghost predicate Ordered(u: Upstream) {
    && FrameReplay.Inv(u) && Increasing(u.prior, u.log)
    && (forall i :: 0 <= i < |u.log| ==>
          u.log[i].lastSequence < POW_64 && (u.log[i].decoded == 0 || u.log[i].decoded == u.log[i].lastSequence))
    && (if u.latest == 0 then u.gone == |u.log| else u.log != [] && u.latest == u.log[|u.log| - 1].lastSequence)
  }

  predicate AllDecode(log: seq<WireFrame>) {
    forall i :: 0 <= i < |log| ==> log[i].decoded == log[i].lastSequence
  }

  ghost predicate UrlOk(base: string) {
    DialUrl.ServerCursor(base).Ok? && DialUrl.Plain(base)
  }

  // What is on its way is a stretch of the log, and a close is sent only once
  // the frame after that stretch is out of reach.
  ghost predicate LinkOk(u: Upstream, link: Link) {
    link.Up? ==>
      var ahead := link.wire + link.snapshot;
      && (ahead != [] ==> link.pos + |ahead| <= |u.log| && ahead == u.log[link.pos..link.pos + |ahead|])
      && (link.wire != [] ==> link.cursor == link.wire[|link.wire| - 1].lastSequence)
      && (link.snapshot != [] ==> link.cursor < link.snapshot[0].lastSequence)
      && (link.closing ==> link.snapshot == [] && (link.wire != [] ==> link.pos + |link.wire| < u.gone))
  }

  // What the edge has published is an unbroken stretch of the upstream's log
  // and its cursor is the stretch's last sequence.
  ghost predicate PublishedIsSlice(log: seq<WireFrame>, edge: Edge, first: nat) {
    var p := edge.published;
    if p == [] then edge.lastEventSequence == 0
    else && first + |p| <= |log|
         && p == log[first..first + |p|]
         && edge.lastEventSequence == p[|p| - 1].lastSequence
  }

  // What is still on its way continues that stretch.
  ghost predicate LinkContinues(u: Upstream, link: Link, edge: Edge, first: nat) {
    link.Up? && edge.published != [] ==>
      && (link.wire + link.snapshot != [] ==> link.pos == first + |edge.published|)
      && (link.wire == [] ==> link.cursor == edge.lastEventSequence)
      && (link.wire == [] && link.closing ==> first + |edge.published| < u.gone)
  }

  ghost predicate Inv(w: World) {
    && Ordered(w.up) && AllDecode(w.up.log) && UrlOk(w.base) && w.edge.lastEventSequence < POW_64 && LinkOk(w.up, w.link)
    && (!w.edge.cursorRejected ==>
          PublishedIsSlice(w.up.log, w.edge, w.first) && LinkContinues(w.up, w.link, w.edge, w.first))
  }

  lemma OrderedInv(u: Upstream)
    requires Ordered(u)
    ensures FrameReplay.Inv(u)
  {
  }

  lemma GoneIsInLog(u: Upstream)
    requires Ordered(u)
    ensures u.gone <= |u.log|
  {
  }

  lemma {:induction false} PastIsShorter(s: seq<WireFrame>, c: nat)
    ensures |Past(s, c)| <= |s|
  {
    if s != [] {
      PastIsShorter(s[..|s| - 1], c);
    }
  }

  // A successful read is the part of the log behind the cursor.
  lemma ReadIsSuffix(u: Upstream, c: nat)
    requires Ordered(u) && After(u, c).Ok?
    ensures var frames := After(u, c).value;
            && |frames| <= |u.log| - u.gone && frames == u.log[|u.log| - |frames|..]
            && (frames != [] ==> c < frames[0].lastSequence)
  {
    hide Past, Increasing;
    PastIsShorter(u.log[u.gone..], c);
    if c > 0 {
      AfterIsComplete(u, c);
      var k := PastIsSuffix(u.prior, u.log, c);
    } else {
      var ring := u.log[u.gone..];
      forall i | 0 <= i < |ring| ensures ring[i].lastSequence > c {
        LastsGrow(u.prior, u.log, u.gone + i, u.gone + i);
      }
      PastAll(ring, c);
    }
  }

  lemma ReadContinues(u: Upstream, i: nat)
    requires Ordered(u) && i < |u.log| && After(u, u.log[i].lastSequence).Ok?
    ensures After(u, u.log[i].lastSequence).value == u.log[i + 1..]
  {
    LastsGrow(u.prior, u.log, i, i);
    AfterIsComplete(u, u.log[i].lastSequence);
    PastContinues(u.prior, u.log, i);
  }

  // A read that is refused at the end of frame `i` has lost the next one.
  lemma RefusedMeansLost(u: Upstream, i: nat)
    requires Ordered(u) && i < |u.log| && After(u, u.log[i].lastSequence).Err?
    ensures i + 1 < u.gone
  {
    hide Increasing, Past, Highest;
    LastsGrow(u.prior, u.log, i, i);
    LaggedExactly(u, u.log[i].lastSequence);
    var j :| 0 <= j < u.gone && u.log[j].lastSequence > u.log[i].lastSequence;
    LastsGrow(u.prior, u.log, i, j);
  }

  lemma ReadBehindWire(u: Upstream, l: Link, frames: seq<WireFrame>)
    requires Ordered(u) && LinkOk(u, l) && l.Up? && l.snapshot == [] && l.wire != []
    requires After(u, l.cursor) == Ok(frames) && !l.closing
    ensures LinkOk(u, l.(snapshot := frames))
  {
    hide Ordered, After, FrameReplay.Inv;
    assert l.wire + [] == l.wire;
    var i := l.pos + |l.wire| - 1;
    assert u.log[i] == l.wire[|l.wire| - 1];
    ReadContinues(u, i);
    ReadIsSuffix(u, l.cursor);
    assert l.wire + frames == u.log[l.pos..];
  }

  lemma RefusedBehindWire(u: Upstream, l: Link)
    requires Ordered(u) && LinkOk(u, l) && l.Up? && l.snapshot == []
    requires After(u, l.cursor).Err?
    ensures LinkOk(u, l.(closing := true))
  {
    hide Ordered, After, FrameReplay.Inv;
    if l.wire != [] {
      assert l.wire + [] == l.wire;
      var i := l.pos + |l.wire| - 1;
      assert u.log[i] == l.wire[|l.wire| - 1];
      RefusedMeansLost(u, i);
    }
  }

  lemma ReadFirst(u: Upstream, l: Link, frames: seq<WireFrame>)
    requires Ordered(u) && l.Up? && l.wire == [] && !l.closing && After(u, l.cursor) == Ok(frames)
    ensures |frames| <= |u.log| - u.gone
    ensures LinkOk(u, l.(snapshot := frames, pos := |u.log| - |frames|))
  {
    hide Ordered, After, FrameReplay.Inv;
    ReadIsSuffix(u, l.cursor);
    assert [] + frames == frames;
  }

  // The first read of a link, or the next one after everything was received,
  // picks up where the published stretch ends.
  lemma ReadPicksUp(w: World)
    requires Inv(w) && Enabled(w, Read) && !w.edge.cursorRejected && w.edge.published != [] && w.link.wire == []
    ensures FrameReplay.Inv(w.up) && w.first + |w.edge.published| <= |w.up.log|
    ensures var r, end := After(w.up, w.link.cursor), w.first + |w.edge.published|;
            if r.Ok? then r.value == w.up.log[end..] else end < w.up.gone
  {
    OrderedInv(w.up);
    hide Ordered, After, FrameReplay.Inv, UrlOk, LinkOk;
    var i := w.first + |w.edge.published| - 1;
    assert w.up.log[i] == w.edge.published[|w.edge.published| - 1];
    if After(w.up, w.link.cursor).Ok? {
      ReadContinues(w.up, i);
    } else {
      RefusedMeansLost(w.up, i);
    }
  }

  lemma ReadLinkContinues(w: World)
    requires Inv(w) && Enabled(w, Read) && !w.edge.cursorRejected
    ensures FrameReplay.Inv(w.up) && LinkContinues(w.up, Step(w, Read).link, w.edge, w.first)
  {
    OrderedInv(w.up);
    hide Ordered, FrameReplay.Inv, PublishedIsSlice, LinkOk, UrlOk, After, Asked;
    if w.edge.published != [] && w.link.wire == [] {
      ReadPicksUp(w);
    }
  }

  lemma ReadKeepsInv(w: World)
    requires Inv(w) && Enabled(w, Read)
    ensures FrameReplay.Inv(w.up) && Inv(Step(w, Read))
  {
    hide Ordered, FrameReplay.Inv, PublishedIsSlice, LinkOk, LinkContinues, UrlOk, After, Asked;
    OrderedInv(w.up);
    var l, r := w.link, After(w.up, w.link.cursor);
    if !w.edge.cursorRejected {
      ReadLinkContinues(w);
    }
    if r.Err? {
      RefusedBehindWire(w.up, l);
    } else if l.wire != [] {
      ReadBehindWire(w.up, l, r.value);
    } else {
      ReadFirst(w.up, l, r.value);
    }
  }

  // The link after its next frame is written.
  function Written(l: Link): Link
    requires l.Up? && l.snapshot != []
  {
    var f := l.snapshot[0];
    l.(snapshot := l.snapshot[1..], wire := l.wire + [f], cursor := Max(l.cursor, f.lastSequence))
  }

  lemma WriteLinkOk(u: Upstream, l: Link)
    requires Ordered(u) && LinkOk(u, l) && l.Up? && l.snapshot != []
    ensures LinkOk(u, Written(l))
  {
    hide FrameReplay.Inv;
    var ahead := l.wire + l.snapshot;
    assert (l.wire + [l.snapshot[0]]) + l.snapshot[1..] == ahead;
    if |l.snapshot| > 1 {
      var i := l.pos + |l.wire|;
      assert u.log[i] == ahead[|l.wire|] && u.log[i + 1] == ahead[|l.wire| + 1];
      LastsGrow(u.prior, u.log, i, i + 1);
    }
  }

  lemma WriteKeepsInv(w: World)
    requires Inv(w) && Enabled(w, Write)
    ensures FrameReplay.Inv(w.up) && Inv(Step(w, Write))
  {
    hide UrlOk, Asked, Ordered, FrameReplay.Inv, LinkOk, PublishedIsSlice;
    OrderedInv(w.up);
    WriteLinkOk(w.up, w.link);
    var l := w.link;
    assert (l.wire + [l.snapshot[0]]) + l.snapshot[1..] == l.wire + l.snapshot;
  }

  // The frame received is the one at the link's position.
  lemma ReceivedFrame(u: Upstream, l: Link)
    requires Ordered(u) && LinkOk(u, l) && l.Up? && l.wire != []
    ensures l.pos < |u.log| && l.wire[0] == u.log[l.pos] && 0 < l.wire[0].lastSequence < POW_64
    ensures LinkOk(u, l.(wire := l.wire[1..], pos := l.pos + 1))
  {
    hide FrameReplay.Inv;
    var ahead := l.wire + l.snapshot;
    assert u.log[l.pos] == ahead[0] == l.wire[0];
    LastsGrow(u.prior, u.log, l.pos, l.pos);
    assert l.wire[1..] + l.snapshot == ahead[1..];
  }

  lemma ReceivedExtends(log: seq<WireFrame>, edge: Edge, first: nat, pos: nat, f: WireFrame)
    requires PublishedIsSlice(log, edge, first) && pos < |log| && f == log[pos] && 0 < f.decoded == f.lastSequence
    requires edge.published != [] ==> pos == first + |edge.published|
    ensures PublishedIsSlice(log, OnFrame(edge, f), if edge.published == [] then pos else first)
  {
    var p := edge.published;
    assert (p + [f])[|p|] == f;
  }

  lemma ReceivedLeaves(u: Upstream, l: Link, edge: Edge, first: nat)
    requires LinkOk(u, l) && LinkContinues(u, l, edge, first) && l.Up? && l.wire != []
    requires l.wire[0].decoded == l.wire[0].lastSequence > 0
    ensures edge.published != [] ==> l.pos == first + |edge.published|
    ensures LinkContinues(u, l.(wire := l.wire[1..], pos := l.pos + 1), OnFrame(edge, l.wire[0]),
                          if edge.published == [] then l.pos else first)
  {
    assert l.wire + l.snapshot != [];
    assert |l.wire| == 1 ==> l.wire == [l.wire[0]];
  }

  lemma ReceiveKeepsInv(w: World)
    requires Inv(w) && Enabled(w, Receive)
    ensures FrameReplay.Inv(w.up) && Inv(Step(w, Receive))
  {
    hide UrlOk, Asked, Ordered, FrameReplay.Inv, LinkOk, PublishedIsSlice, LinkContinues;
    OrderedInv(w.up);
    ReceivedFrame(w.up, w.link);
    if !w.edge.cursorRejected {
      ReceivedLeaves(w.up, w.link, w.edge, w.first);
      ReceivedExtends(w.up.log, w.edge, w.first, w.link.pos, w.link.wire[0]);
    }
  }

  lemma NewFrameKeepsInv(w: World, f: WireFrame)
    requires Inv(w) && Enabled(w, NewFrame(f))
    ensures FrameReplay.Inv(w.up) && Inv(Step(w, NewFrame(f)))
  {
    hide UrlOk, Asked, Ordered, FrameReplay.Inv, FrameFits;
    OrderedInv(w.up);
    NewFrameKeepsOrder(w.up, f);
    var log := Publish(w.up, f).log;
    assert forall i :: 0 <= i < |w.up.log| ==> log[i] == w.up.log[i];
  }

  lemma NewFrameKeepsOrder(u: Upstream, f: WireFrame)
    requires Ordered(u) && FrameFits(u.prior, u.log, f)
    ensures FrameReplay.Inv(u) && Ordered(Publish(u, f)) && Publish(u, f).gone >= u.gone
  {
    PublishKeepsInv(u, f);
    LastsGrow(u.prior, u.log + [f], |u.log|, |u.log|);
  }

  // The server hears the cursor the edge means.
  lemma AskedIsIntended(w: World)
    requires UrlOk(w.base) && w.edge.lastEventSequence < POW_64
    ensures Asked(w) == Ok(DialUrl.IntendedCursor(DialUrl.ServerCursor(w.base).value, w.edge.lastEventSequence,
                                                  w.edge.cursorRejected))
  {
    hide DialUrl.ServerCursor, DialUrl.Dial, DialUrl.Plain;
    DialUrl.DialAsksForTheCursorIff(w.base, DialUrl.ServerCursor(w.base).value, w.edge.lastEventSequence, w.edge.cursorRejected);
  }

  lemma CursorIsPositive(w: World)
    requires Ordered(w.up) && PublishedIsSlice(w.up.log, w.edge, w.first) && w.edge.published != []
    ensures w.edge.lastEventSequence > 0
  {
    var i := w.first + |w.edge.published| - 1;
    LastsGrow(w.up.prior, w.up.log, i, i);
  }

  lemma DialKeepsInv(w: World)
    requires Inv(w) && w.link.Down?
    ensures FrameReplay.Inv(w.up) && Enabled(w, Dial) && Inv(Step(w, Dial))
  {
    hide Asked, UrlOk, FrameReplay.Inv, DialUrl.ServerCursor;
    OrderedInv(w.up);
    AskedIsIntended(w);
    if !w.edge.cursorRejected && w.edge.published != [] {
      CursorIsPositive(w);
    }
  }

  lemma StepKeepsInv(w: World, e: Event)
    requires Inv(w) && Enabled(w, e)
    ensures FrameReplay.Inv(w.up) && Inv(Step(w, e))
    ensures w.edge.published <= Step(w, e).edge.published && w.up.log <= Step(w, e).up.log
    ensures w.edge.cursorRejected ==> Step(w, e).edge.cursorRejected
    ensures Step(w, e).base == w.base && Step(w, e).up.prior == w.up.prior
  {
    OrderedInv(w.up);
    hide Asked, UrlOk;
    match e
    case NewFrame(f) => NewFrameKeepsInv(w, f);
    case UpstreamRestarts => RestartKeepsInv(w.up);
    case Read => ReadKeepsInv(w);
    case Write => WriteKeepsInv(w);
    case Receive => ReceiveKeepsInv(w);
    case Dial => DialKeepsInv(w);
    case ReceiveClose | Disconnect =>
  }

  // End to end: over any interleaving of broadcasts, ring evictions, upstream
  // restarts and disconnects that lose whatever was under way, and until the
  // first 1013, the edge re-publishes consecutive frames of the upstream's
  // log, in order and once each, from its first received frame on.
  lemma {:induction false} RepublishesWithoutGapOrRepeat(w: World, events: seq<Event>, w': World)
    requires Inv(w) && Run(w, events, w')
    ensures Inv(w') && w.edge.published <= w'.edge.published && w.up.log <= w'.up.log
    ensures !w'.edge.cursorRejected && w'.edge.published != [] ==>
              && w'.first + |w'.edge.published| <= |w'.up.log|
              && w'.edge.published == w'.up.log[w'.first..w'.first + |w'.edge.published|]
              && w'.edge.lastEventSequence == w'.edge.published[|w'.edge.published| - 1].lastSequence
    decreases |events|
  {
    hide Ordered, LinkOk, LinkContinues, UrlOk, FrameReplay.Inv, Step, Enabled;
    if events != [] {
      StepKeepsInv(w, events[0]);
      RepublishesWithoutGapOrRepeat(Step(w, events[0]), events[1..], w');
    }
  }

  lemma InitInv(capacity: nat, prior: nat, base: string)
    requires UrlOk(base)
    ensures Inv(Init(capacity, prior, base))
  {
    hide UrlOk;
  }
}

/** After a 1013 the cursor is never used again: the file's header speaks of one
    dial without it, but the flag is never cleared. */
module EdgeRejection {
  import opened Basics
  import FrameReplay
  import opened EdgeDelivery
  import DialUrl

  // ----- one reconnect -----

  // What the next session of a link that is down starts with.
  ghost predicate NextReads(w: World, frames: seq<FrameReplay.WireFrame>) {
    && FrameReplay.Inv(w.up) && Enabled(w, Dial) && Enabled(Step(w, Dial), Read)
    && Step(Step(w, Dial), Read).link.snapshot == frames
  }

  // The link is down and the log has grown past what was published, but not out
  // of the ring's reach. The next session reads exactly the frames the edge is
  // missing if and only if no cursor was ever rejected.
  lemma OutageIsReadIff(w: World)
    requires Inv(w) && w.link.Down? && w.edge.published != []
    requires PublishedIsSlice(w.up.log, w.edge, w.first) && w.first + |w.edge.published| < |w.up.log|
    requires FrameReplay.After(w.up, w.edge.lastEventSequence).Ok?
    ensures NextReads(w, w.up.log[w.first + |w.edge.published|..]) <==> !w.edge.cursorRejected
    ensures w.edge.cursorRejected ==> NextReads(w, [])
  {
    hide Asked, UrlOk, DialUrl.ServerCursor, FrameReplay.After;
    OrderedInv(w.up);
    DialKeepsInv(w);
    AskedIsIntended(w);
    CursorIsPositive(w);
    var i := w.first + |w.edge.published| - 1;
    assert w.up.log[i] == w.edge.published[|w.edge.published| - 1];
    ReadContinues(w.up, i);
    if w.edge.cursorRejected {
      LatestReadsNothing(w.up, i);
    }
  }

  lemma LatestReadsNothing(u: FrameReplay.Upstream, i: nat)
    requires Ordered(u) && i + 1 < |u.log| && FrameReplay.After(u, u.log[i].lastSequence).Ok?
    ensures FrameReplay.After(u, u.latest) == Ok([])
  {
    hide FrameReplay.Increasing, FrameReplay.Past, FrameReplay.Highest;
    var n := |u.log| - 1;
    FrameReplay.LastsGrow(u.prior, u.log, i, n);
    FrameReplay.LastsGrow(u.prior, u.log, n, n);
    FrameReplay.LaggedExactly(u, u.log[i].lastSequence);
    assert u.latest != 0;
    FrameReplay.LaggedExactly(u, u.latest);
    forall j: nat | j < |u.log| ensures u.log[j].lastSequence <= u.latest {
      FrameReplay.LastsGrow(u.prior, u.log, n, j);
    }
    ReadContinues(u, n);
  }

  // ----- whole runs -----

  ghost predicate Contiguous(p: seq<FrameReplay.WireFrame>, log: seq<FrameReplay.WireFrame>) {
    exists k: nat :: IsSlice(p, log, k)
  }

  ghost predicate IsSlice(p: seq<FrameReplay.WireFrame>, log: seq<FrameReplay.WireFrame>, k: nat) {
    k + |p| <= |log| && p == log[k..k + |p|]
  }

  predicate Receives(events: seq<Event>) {
    exists i :: 0 <= i < |events| && events[i].Receive?
  }

  // A frame is received at some point after a 1013.
  predicate ReceivesAfterClose(events: seq<Event>) {
    events != [] &&
    if events[0].ReceiveClose? then Receives(events[1..]) else ReceivesAfterClose(events[1..])
  }

  // The 1013 came after `cut` published frames; the next one was out of reach by
  // then, and whatever has been published or is under way since lies behind it.
  ghost predicate Lost(w: World, cut: nat) {
    && Inv(w) && w.edge.cursorRejected && 1 <= cut <= |w.edge.published|
    && w.first + cut < w.up.gone
    && w.edge.published[..cut] == w.up.log[w.first..w.first + cut]
    && (|w.edge.published| > cut ==> exists q :: w.first + cut < q < |w.up.log| && w.edge.published[cut] == w.up.log[q])
    && (w.link.Up? && w.link.wire + w.link.snapshot != [] ==> w.link.pos > w.first + cut)
  }

  lemma CloseLoses(w: World)
    requires Inv(w) && !w.edge.cursorRejected && w.edge.published != [] && Enabled(w, ReceiveClose)
    ensures FrameReplay.Inv(w.up) && Lost(Step(w, ReceiveClose), |w.edge.published|)
  {
    hide Ordered, UrlOk, Asked, LinkOk;
    OrderedInv(w.up);
    StepKeepsInv(w, ReceiveClose);
    hide Inv;
    GoneIsInLog(w.up);
    var p := w.edge.published;
    assert p[..|p|] == p;
  }

  lemma ReadStaysBehind(w: World, cut: nat)
    requires Lost(w, cut) && Enabled(w, Read)
    ensures FrameReplay.Inv(w.up) && Lost(Step(w, Read), cut)
  {
    hide Ordered, UrlOk, Asked, LinkOk, FrameReplay.After, FrameReplay.Inv, PublishedIsSlice, LinkContinues;
    OrderedInv(w.up);
    StepKeepsInv(w, Read);
    hide Inv;
    if FrameReplay.After(w.up, w.link.cursor).Ok? && w.link.wire == [] {
      ReadFirst(w.up, w.link, FrameReplay.After(w.up, w.link.cursor).value);
    }
  }

  lemma ReceiveStaysBehind(w: World, cut: nat)
    requires Lost(w, cut) && Enabled(w, Receive)
    ensures FrameReplay.Inv(w.up) && Lost(Step(w, Receive), cut)
    ensures |Step(w, Receive).edge.published| == |w.edge.published| + 1
  {
    hide Ordered, UrlOk, Asked, LinkOk, FrameReplay.Inv, PublishedIsSlice, LinkContinues;
    OrderedInv(w.up);
    ReceivedFrame(w.up, w.link);
    StepKeepsInv(w, Receive);
    hide Inv;
    var p, f := w.edge.published, w.link.wire[0];
    assert (p + [f])[..cut] == p[..cut];
    assert w.link.wire + w.link.snapshot != [];
    if |p| == cut {
      assert (p + [f])[cut] == w.up.log[w.link.pos];
    } else {
      assert (p + [f])[cut] == p[cut];
    }
  }

  lemma OtherStaysBehind(w: World, e: Event, cut: nat)
    requires Lost(w, cut) && Enabled(w, e) && !e.Read? && !e.Receive?
    ensures FrameReplay.Inv(w.up) && Lost(Step(w, e), cut)
    ensures Step(w, e).edge.published == w.edge.published
  {
    hide Ordered, UrlOk, Asked, LinkOk, FrameReplay.Inv, PublishedIsSlice, LinkContinues, FrameOk;
    OrderedInv(w.up);
    StepKeepsInv(w, e);
    GoneIsInLog(w.up);
    hide Inv;
    var w' := Step(w, e);
    assert forall i :: 0 <= i < |w.up.log| ==> w'.up.log[i] == w.up.log[i];
    if e.Write? {
      var l := w.link;
      assert (l.wire + [l.snapshot[0]]) + l.snapshot[1..] == l.wire + l.snapshot;
    }
  }

  lemma {:induction false} AfterClose(w: World, cut: nat, events: seq<Event>, w': World)
    requires Lost(w, cut) && Run(w, events, w')
    ensures Lost(w', cut) && |w.edge.published| <= |w'.edge.published|
    ensures |w'.edge.published| == |w.edge.published| <==> !Receives(events)
    decreases |events|
  {
    hide Lost, Step, Enabled, FrameReplay.Inv;
    if events != [] {
      var e := events[0];
      if e.Read? {
        ReadStaysBehind(w, cut);
        ReadPublishesNothing(w);
      } else if e.Receive? {
        ReceiveStaysBehind(w, cut);
      } else {
        OtherStaysBehind(w, e, cut);
      }
      AfterClose(Step(w, e), cut, events[1..], w');
      assert events == [e] + events[1..];
      assert Receives(events) <==> e.Receive? || Receives(events[1..]) by {
        ReceivesCons(e, events[1..]);
      }
    }
  }

  lemma ReadPublishesNothing(w: World)
    requires FrameReplay.Inv(w.up) && Enabled(w, Read)
    ensures Step(w, Read).edge == w.edge
  {
  }

  lemma ReceivesCons(e: Event, events: seq<Event>)
    ensures Receives([e] + events) <==> e.Receive? || Receives(events)
  {
    var all := [e] + events;
    assert all[0] == e && forall i :: 0 <= i < |events| ==> all[i + 1] == events[i];
    if Receives(all) && !e.Receive? {
      var i :| 0 <= i < |all| && all[i].Receive?;
      assert events[i - 1].Receive?;
    }
  }

  lemma ContiguousWhenKept(w: World)
    requires Inv(w) && !w.edge.cursorRejected && w.edge.published != []
    ensures Contiguous(w.edge.published, w.up.log)
  {
    hide Ordered, UrlOk, LinkOk, LinkContinues;
    assert IsSlice(w.edge.published, w.up.log, w.first);
  }

  lemma ContiguousAfterLossIff(w: World, cut: nat)
    requires Lost(w, cut)
    ensures Contiguous(w.edge.published, w.up.log) <==> |w.edge.published| == cut
  {
    hide UrlOk, LinkOk, FrameReplay.Increasing, FrameReplay.Inv;
    var p, log := w.edge.published, w.up.log;
    GoneIsInLog(w.up);
    if |p| == cut {
      assert p[..cut] == p;
      assert IsSlice(p, log, w.first);
    } else if Contiguous(p, log) {
      var k: nat :| IsSlice(p, log, k);
      assert p[0] == p[..cut][0] == log[w.first] == log[k];
      FrameReplay.LastsGrow(w.up.prior, log, w.first, k);
      FrameReplay.LastsGrow(w.up.prior, log, k, w.first);
      var q :| w.first + cut < q < |log| && p[cut] == log[q];
      assert p[cut] == log[k + cut];
      FrameReplay.LastsGrow(w.up.prior, log, k + cut, q);
    }
  }

  // Once something has been published, and in every run from there: what the
  // edge has republished is an unbroken stretch of the upstream's log if and only
  // if it has received nothing after a 1013.
  lemma {:induction false} UnbrokenIffNothingAfterClose(w: World, events: seq<Event>, w': World)
    requires Inv(w) && !w.edge.cursorRejected && w.edge.published != [] && Run(w, events, w')
    ensures Contiguous(w'.edge.published, w'.up.log) <==> !ReceivesAfterClose(events)
    decreases |events|
  {
    hide Inv, Step, Enabled, FrameReplay.Inv, Contiguous, Lost;
    if events == [] {
      ContiguousWhenKept(w);
    } else if events[0].ReceiveClose? {
      CloseLoses(w);
      var cut, w1 := |w.edge.published|, Step(w, ReceiveClose);
      ClosePublishesNothing(w);
      AfterClose(w1, cut, events[1..], w');
      ContiguousAfterLossIff(w', cut);
    } else {
      StepKeepsInv(w, events[0]);
      OnlyCloseRejects(w, events[0]);
      UnbrokenIffNothingAfterClose(Step(w, events[0]), events[1..], w');
    }
  }

  lemma ClosePublishesNothing(w: World)
    requires FrameReplay.Inv(w.up) && Enabled(w, ReceiveClose)
    ensures Step(w, ReceiveClose).edge.published == w.edge.published
  {
  }

  lemma OnlyCloseRejects(w: World, e: Event)
    requires FrameReplay.Inv(w.up) && Enabled(w, e) && !e.ReceiveClose?
    ensures Step(w, e).edge.cursorRejected == w.edge.cursorRejected
    ensures w.edge.published != [] ==> Step(w, e).edge.published != []
  {
    hide Asked;
  }

  // ----- a run that loses frames -----

  function F(i: nat): FrameReplay.WireFrame {
    FrameReplay.WireFrame(i, i, i, i, [])
  }

  function Frames(n: nat): (s: seq<FrameReplay.WireFrame>)
    ensures |s| == n && forall i :: 0 <= i < n ==> s[i] == F(i + 1)
  {
    seq(n, i requires 0 <= i => F(i + 1))
  }

  // A server whose ring holds one frame, after `n` broadcasts.
  function Ring(n: nat): FrameReplay.Upstream {
    var gone := SatSub(n, 1);
    FrameReplay.Upstream(1, 0, Frames(n), gone, gone, n)
  }

  lemma RingPublishes(n: nat)
    requires n + 1 < POW_64
    ensures FrameReplay.Inv(Ring(n)) && FrameOk(0, Ring(n).log, F(n + 1)) && FrameReplay.Publish(Ring(n), F(n + 1)) == Ring(n + 1)
  {
    assert Frames(n) + [F(n + 1)] == Frames(n + 1);
    RingFloor(SatSub(n, 1));
    assert Frames(n)[..SatSub(n, 1)] == Frames(SatSub(n, 1));
  }

  lemma {:induction false} RingFloor(n: nat)
    ensures FrameReplay.Highest(0, Frames(n)) == n
  {
    if n > 0 {
      RingFloor(n - 1);
      assert Frames(n)[..n - 1] == Frames(n - 1);
    }
  }

  lemma PastOfOne(f: FrameReplay.WireFrame, c: nat)
    ensures FrameReplay.Past([f], c) == if f.lastSequence > c then [f] else []
  {
    assert [f][..0] == [];
    assert FrameReplay.Past([], c) == [];
  }

  lemma RingReads(n: nat, c: nat)
    requires n > 0
    ensures FrameReplay.After(Ring(n), c) ==
      if 0 < c < n - 1 then Err(FrameReplay.Lagged) else Ok(if n > c then [F(n)] else [])
  {
    var u := Ring(n);
    assert u.gone == n - 1 == u.floor && u.log[u.gone..] == [F(n)];
    PastOfOne(F(n), c);
  }

  lemma {:induction false} RunSnoc(w: World, events: seq<Event>, mid: World, e: Event)
    requires Run(w, events, mid) && FrameReplay.Inv(mid.up) && Enabled(mid, e)
    ensures Run(w, events + [e], Step(mid, e))
    decreases |events|
  {
    hide Step, Enabled, FrameReplay.Inv;
    if events == [] {
      assert [e][1..] == [];
    } else {
      RunSnoc(Step(w, events[0]), events[1..], mid, e);
      assert (events + [e])[1..] == events[1..] + [e];
    }
  }

  lemma Then(w: World, events: seq<Event>, mid: World, e: Event) returns (events': seq<Event>, w': World)
    requires Run(w, events, mid) && FrameReplay.Inv(mid.up) && Enabled(mid, e)
    ensures Run(w, events', w') && w' == Step(mid, e)
  {
    hide Run, Step, Enabled, FrameReplay.Inv;
    RunSnoc(w, events, mid, e);
    events', w' := events + [e], Step(mid, e);
  }

  // The server has broadcast `n` frames, the link is down.
  function Waiting(n: nat, edge: Edge): World {
    World(Ring(n), Down, edge, "/", 0)
  }

  // A dial, which asks for the edge's own cursor or, after a rejection, none.
  lemma Dials(w0: World, events: seq<Event>, n: nat, edge: Edge) returns (events': seq<Event>, w': World)
    requires Run(w0, events, Waiting(n, edge)) && edge.lastEventSequence < POW_64 && n + 1 < POW_64
    ensures Run(w0, events', w')
    ensures var c := if edge.lastEventSequence > 0 && !edge.cursorRejected then edge.lastEventSequence else n;
            w' == Waiting(n, edge).(link := Up(c, [], [], false, 0))
  {
    hide Run, Ring, Asked, FrameReplay.Inv, DialUrl.ServerCursor, DialUrl.Plain;
    RingPublishes(n);
    assert Ring(n).latest == n by {
      RingLatest(n);
    }
    DialUrl.BareUrl("/");
    AskedIsIntended(Waiting(n, edge));
    events', w' := Then(w0, events, Waiting(n, edge), Dial);
  }

  lemma RingLatest(n: nat)
    ensures Ring(n).latest == n && Ring(n).log == Frames(n) && Ring(n).prior == 0
  {
  }

  lemma RingGone(n: nat)
    ensures Ring(n).gone <= |Ring(n).log|
  {
  }

  // One more broadcast.
  lemma Broadcasts(w0: World, events: seq<Event>, n: nat, w: World) returns (events': seq<Event>, w': World)
    requires Run(w0, events, w) && w.up == Ring(n) && n + 1 < POW_64
    ensures Run(w0, events', w') && w' == w.(up := Ring(n + 1))
  {
    hide Run, Ring, Asked, FrameReplay.Inv, FrameReplay.Publish, FrameOk;
    RingPublishes(n);
    RingLatest(n);
    events', w' := Then(w0, events, w, NewFrame(F(n + 1)));
  }

  // A link at cursor `n - 1` fetches, sends and delivers frame `n`, and breaks.
  lemma Delivers(w0: World, events: seq<Event>, n: nat, edge: Edge) returns (events': seq<Event>, w': World)
    requires 0 < n < POW_64 - 1 && Run(w0, events, Waiting(n, edge).(link := Up(n - 1, [], [], false, 0)))
    ensures Run(w0, events', w')
    ensures w' == Waiting(n, OnFrame(edge, F(n))).(first := if edge.published == [] then n - 1 else 0)
  {
    hide Run, Ring, Asked, FrameReplay.Inv, FrameReplay.After;
    RingPublishes(n);
    RingLatest(n);
    RingReads(n, n - 1);
    var w := Waiting(n, edge).(link := Up(n - 1, [], [], false, 0));
    events', w' := Then(w0, events, w, Read);
    events', w' := Then(w0, events', w', Write);
    assert w'.link == Up(n, [], [F(n)], false, n - 1);
    events', w' := Then(w0, events', w', Receive);
    events', w' := Then(w0, events', w', Disconnect);
  }

  // A link whose cursor is lagged is closed with 1013.
  lemma IsRejected(w0: World, events: seq<Event>, n: nat, c: nat, edge: Edge) returns (events': seq<Event>, w': World)
    requires 0 < c < n - 1 && n + 1 < POW_64 && Run(w0, events, Waiting(n, edge).(link := Up(c, [], [], false, 0)))
    ensures Run(w0, events', w') && w' == Waiting(n, edge.(cursorRejected := true))
  {
    hide Run, Ring, Asked, FrameReplay.Inv, FrameReplay.After;
    RingPublishes(n);
    RingReads(n, c);
    var w := Waiting(n, edge).(link := Up(c, [], [], false, 0));
    events', w' := Then(w0, events, w, Read);
    events', w' := Then(w0, events', w', ReceiveClose);
  }

  // From a fresh start: the edge republishes frame 1, is away for frames 2 and 3
  // and rejected, and goes on with frame 4. Then it is away for frame 5 alone,
  // which the ring still holds and its cursor would get, and does not fetch it.
  lemma RejectedEdgeSkipsTheOutage() returns (events: seq<Event>, w: World)
    ensures Run(Init(1, 0, "/"), events, w) && w.link.Down? && w.edge.cursorRejected
    ensures w.edge.published == [F(1), F(4)] && w.up.log == Frames(5) && w.edge.lastEventSequence == 4
    ensures w.up.gone <= |w.up.log| && FrameReplay.After(w.up, 4) == Ok([F(5)]) && NextReads(w, [])
  {
    hide Run, Ring, Asked, FrameReplay.Inv, FrameReplay.After, NextReads;
    var w0 := Init(1, 0, "/");
    StartIsRing();
    events, w := Dials(w0, [], 0, Edge(0, false, []));
    events, w := Broadcasts(w0, events, 0, w);
    events, w := Delivers(w0, events, 1, Edge(0, false, []));
    var e1 := Edge(1, false, [F(1)]);
    assert w == Waiting(1, e1);
    events, w := Broadcasts(w0, events, 1, w);
    events, w := Broadcasts(w0, events, 2, w);
    events, w := Dials(w0, events, 3, e1);
    events, w := IsRejected(w0, events, 3, 1, e1);
    var e2 := e1.(cursorRejected := true);
    events, w := Dials(w0, events, 3, e2);
    events, w := Broadcasts(w0, events, 3, w);
    events, w := Delivers(w0, events, 4, e2);
    var e3 := Edge(4, true, [F(1), F(4)]);
    assert w == Waiting(4, e3);
    events, w := Broadcasts(w0, events, 4, w);
    RingReads(5, 4);
    RingReads(5, 5);
    RingLatest(5);
    RejectedDial(5, e3);
  }

  lemma StartIsRing()
    ensures Run(Init(1, 0, "/"), [], Waiting(0, Edge(0, false, [])))
  {
    assert Frames(0) == [];
  }

  lemma RejectedDial(n: nat, edge: Edge)
    requires edge.cursorRejected && edge.lastEventSequence < POW_64 && 0 < n < POW_64 - 1
    ensures Ring(n).gone <= |Ring(n).log| && NextReads(Waiting(n, edge), [])
  {
    hide Ring, Asked, FrameReplay.Inv, FrameReplay.After, DialUrl.ServerCursor, DialUrl.Plain;
    RingPublishes(n);
    RingGone(n);
    RingReads(n, n);
    RingLatest(n);
    DialUrl.BareUrl("/");
    AskedIsIntended(Waiting(n, edge));
  }
}

module EdgeUpstreamLoop {
  import opened Basics
  import opened EdgeDelivery
  import FrameReplay
  import DialUrl

  const BACKOFF_MIN := 1
  const BACKOFF_MAX := 15
  const HEALTHY_AFTER := 30

  function Pow2(k: nat): nat {
    if k == 0 then 1 else 2 * Pow2(k - 1)
  }

  // The variables of `run_upstream`; times in seconds. `world` is the delivery
  // machine the loop is part of, `waits` the number of waits since the start or
  // the last healthy session.
  class UpstreamLoop {
    const base: string
    var lastEventSequence: nat
    var cursorRejected: bool
    var backoff: nat
    var first: bool
    ghost var world: World
    ghost var waits: nat

    ghost predicate Valid()
      reads this
    {
      && Inv(world) && world.base == base
      && world.edge.lastEventSequence == lastEventSequence && world.edge.cursorRejected == cursorRejected
      && backoff == Min(Pow2(waits), BACKOFF_MAX)
    }

    constructor (base: string, ghost world: World)
      requires Inv(world) && world.base == base && world.edge == Edge(0, false, [])
      ensures Valid() && this.base == base && this.world == world && first && waits == 0
    {
      this.base := base;
      lastEventSequence, cursorRejected, backoff, first := 0, false, BACKOFF_MIN, true;
      this.world, this.waits := world, 0;
    }

    // The wait before a dial doubles with every dial that no healthy session
    // came of, from one second up to fifteen; the very first dial does not wait.
    // What the server is asked for is what the edge means, and the dial is the
    // machine's.
    method NextDial() returns (wait: nat, url: string)
      requires Valid() && world.link.Down?
      modifies this
      ensures Valid() && FrameReplay.Inv(old(world).up) && Enabled(old(world), Dial) && world == Step(old(world), Dial)
      ensures wait == if old(first) then 0 else Min(Pow2(old(waits)), BACKOFF_MAX)
      ensures waits == old(waits) + (if old(first) then 0 else 1) && !first
      ensures DialUrl.ServerCursor(base).Ok? && DialUrl.ServerCursor(url)
              == Ok(DialUrl.IntendedCursor(DialUrl.ServerCursor(base).value, lastEventSequence, cursorRejected))
    {
      hide Inv, Enabled, Step, FrameReplay.Inv, DialUrl.ServerCursor, DialUrl.Dial;
      DialIsTheMachines(world);
      wait := 0;
      if !first {
        wait := backoff;
        backoff := if backoff * 2 <= BACKOFF_MAX then backoff * 2 else BACKOFF_MAX;
        waits := waits + 1;
      }
      first := false;
      url := DialUrl.Dial(base, lastEventSequence, cursorRejected);
      world := Step(world, Dial);
    }

    // `on_frame` is the machine's step, so that what is republished stays the
    // stretch of the upstream's log that its invariant speaks of.
    method FrameArrives(f: FrameReplay.WireFrame)
      requires Valid() && world.link.Up? && world.link.wire != [] && world.link.wire[0] == f
      modifies `lastEventSequence, `world
      ensures Valid() && FrameReplay.Inv(old(world).up) && Enabled(old(world), Receive)
      ensures world == Step(old(world), Receive)
      ensures !cursorRejected ==> PublishedIsSlice(world.up.log, world.edge, world.first)
    {
      hide Inv, Asked, Step, Enabled, FrameReplay.Inv, PublishedIsSlice;
      FrameIsTheMachines(world);
      var eventSequence := lastEventSequence;
      if f.decoded > 0 {
        eventSequence := f.decoded;
      }
      lastEventSequence := eventSequence;
      world := Step(world, Receive);
    }

    // A session ends with a 1013, which is remembered for good, or otherwise;
    // only one that lasted starts the waits over.
    method SessionEnds(rejected: bool, lasted: nat)
      requires Valid() && world.link.Up? && (rejected ==> Enabled(world, ReceiveClose))
      modifies this
      ensures Valid() && FrameReplay.Inv(old(world).up)
      ensures world == Step(old(world), if rejected then ReceiveClose else Disconnect)
      ensures waits == (if lasted >= HEALTHY_AFTER then 0 else old(waits)) && first == old(first)
    {
      hide Inv, Asked, Step, Enabled, FrameReplay.Inv;
      EndIsTheMachines(world, rejected);
      if rejected {
        cursorRejected := true;
      }
      if lasted >= HEALTHY_AFTER {
        backoff, waits := BACKOFF_MIN, 0;
      }
      world := Step(world, if rejected then ReceiveClose else Disconnect);
    }
  }

  lemma FrameIsTheMachines(w: World)
    requires Inv(w) && w.link.Up? && w.link.wire != []
    ensures FrameReplay.Inv(w.up) && Enabled(w, Receive) && Inv(Step(w, Receive))
    ensures var w' := Step(w, Receive);
            && w'.base == w.base && w'.edge == OnFrame(w.edge, w.link.wire[0])
            && (!w.edge.cursorRejected ==> PublishedIsSlice(w'.up.log, w'.edge, w'.first))
  {
    hide Ordered, UrlOk, LinkOk, LinkContinues, PublishedIsSlice, Asked, FrameReplay.Inv;
    StepKeepsInv(w, Receive);
  }

  lemma EndIsTheMachines(w: World, rejected: bool)
    requires Inv(w) && w.link.Up? && (rejected ==> Enabled(w, ReceiveClose))
    ensures var e := if rejected then ReceiveClose else Disconnect;
            && FrameReplay.Inv(w.up) && Enabled(w, e) && Inv(Step(w, e)) && Step(w, e).base == w.base
            && Step(w, e).edge == w.edge.(cursorRejected := w.edge.cursorRejected || rejected)
  {
    hide Inv, Asked, FrameReplay.Inv;
    StepKeepsInv(w, if rejected then ReceiveClose else Disconnect);
  }

  lemma DialIsTheMachines(w: World)
    requires Inv(w) && w.link.Down?
    ensures FrameReplay.Inv(w.up) && Enabled(w, Dial) && Inv(Step(w, Dial))
    ensures Step(w, Dial).base == w.base && Step(w, Dial).edge == w.edge && DialUrl.ServerCursor(w.base).Ok?
    ensures DialUrl.ServerCursor(DialUrl.Dial(w.base, w.edge.lastEventSequence, w.edge.cursorRejected))
         == Ok(DialUrl.IntendedCursor(DialUrl.ServerCursor(w.base).value, w.edge.lastEventSequence, w.edge.cursorRejected))
  {
    hide Ordered, LinkOk, DialUrl.ServerCursor, DialUrl.Dial, DialUrl.Plain;
    DialKeepsInv(w);
    AskedIsIntended(w);
  }
}
