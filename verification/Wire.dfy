/** The broadcast frame: how the server writes one (src/wire.rs) and how the
    edge reads its sequence numbers back without decoding it (src/edge/frame.rs).
    The zstd codec is a parameter. */
module FrameWire {
  import opened Basics
  import opened BigEndian
  import opened ProtoWire
  import FrameReplay

  const MAGIC: Bytes := [0x55, 0x4D, 0x41, 0x31]
  const HEADER_LEN := 12
  const MAX_DECOMPRESSED := 262144

  datatype BadFrame = TooShort | BadMagic | TruncatedVarint | TruncatedField | WireType(wire: nat)

  datatype FrameInfo = FrameInfo(
    compressed: bool, schema: nat, payloadSize: nat,
    batchSequence: nat, sentAt: nat, lastEventSequence: nat)

  // ---- Reading -----------------------------------------------------------

  // At most eleven bytes, and the value keeps its low 64 bits.
  function TakeVarint(s: Bytes): (r: Result<(nat, Bytes), BadFrame>)
    ensures r.Ok? ==> |r.value.1| < |s|
  {
    var v := Read(s);
    if v.Some? && v.value.1 <= 11 then Ok((v.value.0 % POW_64, s[v.value.1..])) else Err(TruncatedVarint)
  }

  // The number ends with the first byte below 128, after `n` bytes.
  predicate EndsAfter(s: Bytes, n: nat) {
    1 <= n <= |s| && s[n - 1] < 128 && forall i :: 0 <= i < n - 1 ==> s[i] >= 128
  }

  // Groups of seven bits, the lowest first.
  function SevenBits(s: Bytes): nat {
    if s == [] then 0 else s[0] % 128 + 128 * SevenBits(s[1..])
  }

  lemma {:induction false} ReadIs(s: Bytes, n: nat)
    requires EndsAfter(s, n)
    ensures Read(s) == Some((SevenBits(s[..n]), n))
  {
    assert s[..n][1..] == s[1..][..n - 1];
    if n > 1 {
      ReadIs(s[1..], n - 1);
    } else {
      assert SevenBits([]) == 0;
    }
  }

  lemma {:induction false} NumberEnds(s: Bytes)
    ensures Read(s).Some? ==> EndsAfter(s, Read(s).value.1)
  {
    if s != [] && s[0] >= 128 {
      NumberEnds(s[1..]);
      if Read(s).Some? {
        var n := Read(s).value.1;
        assert forall i :: 1 <= i < n ==> s[i] == s[1..][i - 1];
      }
    }
  }

  // A number is read exactly when it ends within eleven bytes; it keeps its low
  // 64 bits, and what follows is left.
  lemma TakeVarintIff(s: Bytes, n: nat)
    ensures EndsAfter(s, n) && n <= 11 ==> TakeVarint(s) == Ok((SevenBits(s[..n]) % POW_64, s[n..]))
    ensures TakeVarint(s).Ok? ==> exists k :: 1 <= k <= 11 && EndsAfter(s, k)
  {
    NumberEnds(s);
    if EndsAfter(s, n) {
      ReadIs(s, n);
    }
  }

  function TakeN(s: Bytes, n: nat): (r: Result<(Bytes, Bytes), BadFrame>)
    ensures r.Ok? ==> |r.value.1| <= |s|
  {
    if n <= |s| then Ok((s[..n], s[n..])) else Err(TruncatedField)
  }

  function TakeBytes(s: Bytes): (r: Result<(Bytes, Bytes), BadFrame>)
    ensures r.Ok? ==> |r.value.1| < |s|
  {
    var n := TakeVarint(s);
    if n.Err? then Err(n.error) else TakeN(n.value.1, n.value.0)
  }

  function TakeBody(s: Bytes, no: nat, wire: nat): (r: Result<(Field, Bytes), BadFrame>)
    ensures r.Ok? ==> |r.value.1| <= |s|
  {
    match wire
    case 0 => var t := TakeVarint(s); if t.Err? then Err(t.error) else Ok((VarintField(no, t.value.0), t.value.1))
    case 1 => var t := TakeN(s, 8); if t.Err? then Err(t.error) else Ok((Fixed64(no, t.value.0), t.value.1))
    case 2 => var t := TakeBytes(s); if t.Err? then Err(t.error) else Ok((LenField(no, t.value.0), t.value.1))
    case 5 => var t := TakeN(s, 4); if t.Err? then Err(t.error) else Ok((Fixed32(no, t.value.0), t.value.1))
    case other => Err(WireType(other))
  }

  function TakeField(s: Bytes): (r: Result<(Field, Bytes), BadFrame>)
    ensures r.Ok? ==> |r.value.1| < |s|
  {
    var k := TakeVarint(s);
    if k.Err? then Err(k.error) else TakeBody(k.value.1, k.value.0 / 8, k.value.0 % 8)
  }

  function WalkEvent(s: Bytes, sequence: nat): Result<nat, BadFrame>
    decreases |s|
  {
    if s == [] then Ok(sequence)
    else
      var t := TakeField(s);
      if t.Err? then Err(t.error) else WalkEvent(t.value.1, EventSequence(t.value.0, sequence))
  }

  function EventSequence(f: Field, sequence: nat): nat {
    if f.VarintField? && f.no == 1 then f.value else sequence
  }

  // What one field of the batch tells the walker.
  function Absorb(info: FrameInfo, f: Field): Result<FrameInfo, BadFrame> {
    if f.VarintField? && f.no == 2 then Ok(info.(batchSequence := f.value))
    else if f.VarintField? && f.no == 3 then Ok(info.(sentAt := f.value))
    else if f.LenField? && f.no == 4 then
      var e := WalkEvent(f.bytes, 0);
      if e.Err? then Err(e.error) else Ok(info.(lastEventSequence := Max(info.lastEventSequence, e.value)))
    else Ok(info)
  }

  function WalkBatch(s: Bytes, info: FrameInfo): Result<FrameInfo, BadFrame>
    decreases |s|
  {
    if s == [] then Ok(info)
    else
      var t := TakeField(s);
      if t.Err? then Err(t.error)
      else
        var i := Absorb(info, t.value.0);
        if i.Err? then i else WalkBatch(t.value.1, i.value)
  }

  function ParseFrame(s: Bytes, decompress: (Bytes, nat) -> Option<Bytes>): Result<FrameInfo, BadFrame> {
    if |s| < HEADER_LEN then Err(TooShort)
    else if s[..4] != MAGIC then Err(BadMagic)
    else
      var size := Number(s[8..12]);
      var info := FrameInfo(s[4] % 2 == 1, s[5], size, 0, 0, 0);
      if info.compressed then
        var payload := decompress(s[HEADER_LEN..], Min(size, MAX_DECOMPRESSED));
        if payload.None? then Ok(info) else WalkBatch(payload.value, info)
      else WalkBatch(s[HEADER_LEN..], info)
  }

  // ---- What a well-formed batch says -------------------------------------

  // The value of the last varint field numbered `no`.
  function LastVarint(fs: seq<Field>, no: nat, default: nat): nat {
    if fs == [] then default
    else
      var f := fs[|fs| - 1];
      if f.VarintField? && f.no == no then f.value else LastVarint(fs[..|fs| - 1], no, default)
  }

  // The batch's fields: its events, and any others in any order.
  datatype BatchField = Plain(field: Field) | Event(fields: seq<Field>)

  ghost predicate BatchFieldOk(b: BatchField) {
    match b
    case Plain(f) => FieldOk(f) && !(f.LenField? && f.no == 4)
    case Event(fs) => (forall f <- fs :: FieldOk(f)) && |EncodeFields(fs)| < POW_64
  }

  function OnWire(b: BatchField): Field {
    match b
    case Plain(f) => f
    case Event(fs) => LenField(4, EncodeFields(fs))
  }

  function AllOnWire(bs: seq<BatchField>): (fs: seq<Field>)
    ensures |fs| == |bs|
    ensures forall i :: 0 <= i < |bs| ==> fs[i] == OnWire(bs[i])
  {
    seq(|bs|, i requires 0 <= i < |bs| => OnWire(bs[i]))
  }

  // The highest event sequence, at least `floor`.
  function HighestEvent(bs: seq<BatchField>, floor: nat): nat {
    if bs == [] then floor
    else
      var b := bs[|bs| - 1];
      var before := HighestEvent(bs[..|bs| - 1], floor);
      if b.Event? then Max(before, LastVarint(b.fields, 1, 0)) else before
  }

  // ---- The walker reads exactly that -------------------------------------

  lemma TakesVarint(n: nat, rest: Bytes)
    requires n < POW_64
    ensures TakeVarint(Varint(n) + rest) == Ok((n, rest))
  {
    ReadOfVarint(n, rest);
    U64Fits(n);
    assert (Varint(n) + rest)[|Varint(n)|..] == rest;
  }

  lemma TakesBytes(b: Bytes, rest: Bytes)
    requires |b| < POW_64
    ensures TakeBytes(Varint(|b|) + b + rest) == Ok((b, rest))
  {
    hide TakeVarint, Varint;
    assert Varint(|b|) + b + rest == Varint(|b|) + (b + rest);
    TakesVarint(|b|, b + rest);
    assert (b + rest)[..|b|] == b && (b + rest)[|b|..] == rest;
  }

  lemma TakesBody(f: Field, rest: Bytes)
    requires FieldOk(f)
    ensures TakeBody(f.Body() + rest, f.no, f.WireType()) == Ok((f, rest))
  {
    hide TakeVarint, TakeBytes, Varint;
    match f
    case VarintField(_, v) => TakesVarint(v, rest);
    case LenField(_, b) => TakesBytes(b, rest);
    case Fixed64(_, b) => assert (b + rest)[..8] == b && (b + rest)[8..] == rest;
    case Fixed32(_, b) => assert (b + rest)[..4] == b && (b + rest)[4..] == rest;
  }

  lemma TakesField(f: Field, rest: Bytes)
    requires FieldOk(f)
    ensures TakeField(EncodeField(f) + rest) == Ok((f, rest))
  {
    hide TakeVarint, TakeBody, Varint;
    var key := f.no * 8 + f.WireType();
    assert EncodeField(f) + rest == Varint(key) + (f.Body() + rest);
    TakesVarint(key, f.Body() + rest);
    KeySplits(f);
    TakesBody(f, rest);
  }

  lemma {:induction false} LastVarintConcat(a: seq<Field>, b: seq<Field>, no: nat, default: nat)
    ensures LastVarint(a + b, no, default) == LastVarint(b, no, LastVarint(a, no, default))
  {
    if b == [] {
      assert a + b == a;
    } else {
      LastVarintConcat(a, b[..|b| - 1], no, default);
      assert (a + b)[..|a + b| - 1] == a + b[..|b| - 1];
    }
  }

  // However an event's fields are ordered and whatever else it carries.
  lemma {:induction false} EventWalkFindsSequence(fs: seq<Field>, sequence: nat)
    requires forall f <- fs :: FieldOk(f)
    ensures WalkEvent(EncodeFields(fs), sequence) == Ok(LastVarint(fs, 1, sequence))
  {
    hide TakeField, EncodeField, FieldOk;
    if fs != [] {
      TakesField(fs[0], EncodeFields(fs[1..]));
      FieldIsNotEmpty(fs[0]);
      LastVarintConcat([fs[0]], fs[1..], 1, sequence);
      assert [fs[0]] + fs[1..] == fs;
      assert LastVarint([fs[0]], 1, sequence) == EventSequence(fs[0], sequence);
      EventWalkFindsSequence(fs[1..], LastVarint([fs[0]], 1, sequence));
    }
  }

  lemma {:induction false} HighestConcat(a: seq<BatchField>, b: seq<BatchField>, floor: nat)
    ensures HighestEvent(a + b, floor) == HighestEvent(b, HighestEvent(a, floor))
  {
    if b == [] {
      assert a + b == a;
    } else {
      HighestConcat(a, b[..|b| - 1], floor);
      assert (a + b)[..|a + b| - 1] == a + b[..|b| - 1];
    }
  }

  // What the walker must report for a batch, given what it held before.
  function Reading(bs: seq<BatchField>, info: FrameInfo): FrameInfo {
    var fs := AllOnWire(bs);
    info.(batchSequence := LastVarint(fs, 2, info.batchSequence),
          sentAt := LastVarint(fs, 3, info.sentAt),
          lastEventSequence := HighestEvent(bs, info.lastEventSequence))
  }

  lemma AbsorbsOne(b: BatchField, info: FrameInfo)
    requires BatchFieldOk(b)
    ensures Absorb(info, OnWire(b)) == Ok(Reading([b], info))
  {
    hide WalkEvent, EncodeFields;
    if b.Event? {
      EventWalkFindsSequence(b.fields, 0);
    }
    var f := OnWire(b);
    assert AllOnWire([b]) == [f] && [f][..0] == [] && [b][..0] == [];
    assert LastVarint([f], 2, info.batchSequence) == if f.VarintField? && f.no == 2 then f.value else info.batchSequence;
    assert LastVarint([f], 3, info.sentAt) == if f.VarintField? && f.no == 3 then f.value else info.sentAt;
    var floor := info.lastEventSequence;
    assert HighestEvent([b], floor) == if b.Event? then Max(floor, LastVarint(b.fields, 1, 0)) else floor;
  }

  lemma ReadingSplits(b: BatchField, rest: seq<BatchField>, info: FrameInfo)
    ensures Reading([b] + rest, info) == Reading(rest, Reading([b], info))
  {
    hide OnWire;
    assert AllOnWire([b]) == [OnWire(b)];
    assert AllOnWire([b] + rest) == [OnWire(b)] + AllOnWire(rest);
    LastVarintConcat([OnWire(b)], AllOnWire(rest), 2, info.batchSequence);
    LastVarintConcat([OnWire(b)], AllOnWire(rest), 3, info.sentAt);
    HighestConcat([b], rest, info.lastEventSequence);
  }

  // The walker reports the last batch sequence, the last send time and the
  // highest event sequence, for fields in any order and of any known wire type.
  lemma {:induction false} WalkReadsTheBatch(bs: seq<BatchField>, info: FrameInfo)
    requires forall b <- bs :: BatchFieldOk(b)
    ensures WalkBatch(EncodeFields(AllOnWire(bs)), info) == Ok(Reading(bs, info))
  {
    hide TakeField, EncodeField, Absorb, Reading, BatchFieldOk, OnWire;
    var fs := AllOnWire(bs);
    if bs == [] {
      EmptyReading(info);
    } else {
      assert fs[1..] == AllOnWire(bs[1..]);
      WireFieldOk(bs[0]);
      TakesField(fs[0], EncodeFields(fs[1..]));
      FieldIsNotEmpty(fs[0]);
      AbsorbsOne(bs[0], info);
      assert [bs[0]] + bs[1..] == bs;
      ReadingSplits(bs[0], bs[1..], info);
      WalkReadsTheBatch(bs[1..], Reading([bs[0]], info));
    }
  }

  lemma EmptyReading(info: FrameInfo)
    ensures Reading([], info) == info
  {
    assert AllOnWire([]) == [];
  }

  lemma WireFieldOk(b: BatchField)
    requires BatchFieldOk(b)
    ensures FieldOk(OnWire(b))
  {
  }

  // ---- Writing -----------------------------------------------------------

  const FLAG_ZSTD := 1
  const SCHEMA_VERSION := 1

  // An event as the writer sees it: its sequence and its other encoded fields.
  datatype EventFields = EventFields(sequence: nat, others: seq<Field>)

  datatype WireConfig = WireConfig(zstdThreshold: nat, maxDecompressed: nat)

  datatype EncodedFrame = EncodedFrame(batchSequence: nat, firstSequence: nat, lastSequence: nat, bytes: Bytes)

  datatype WireError = EmptyBatch | Oversized | Zstd

  // A field left at its default is not written.
  function Scalar(no: nat, value: nat): seq<Field> {
    if value == 0 then [] else [VarintField(no, value)]
  }

  function EventFieldList(e: EventFields): seq<Field> {
    Scalar(1, e.sequence) + e.others
  }

  function Batch(batchSequence: nat, sentAt: nat, events: seq<EventFields>): seq<BatchField> {
    Plains(Head(batchSequence, sentAt))
    + seq(|events|, i requires 0 <= i < |events| => Event(EventFieldList(events[i])))
  }

  function Plains(fs: seq<Field>): (bs: seq<BatchField>)
    ensures |bs| == |fs| && forall i :: 0 <= i < |fs| ==> bs[i] == Plain(fs[i])
  {
    seq(|fs|, i requires 0 <= i < |fs| => Plain(fs[i]))
  }

  function Payload(batchSequence: nat, sentAt: nat, events: seq<EventFields>): Bytes {
    EncodeFields(AllOnWire(Batch(batchSequence, sentAt, events)))
  }

  function Framed(flags: byte, payloadSize: nat, body: Bytes): Bytes {
    MAGIC + [flags, SCHEMA_VERSION, 0, 0] + ToBytes(payloadSize % POW_32, 4) + body
  }

  function EncodeFrame(batchSequence: nat, sentAt: nat, events: seq<EventFields>, config: WireConfig,
                       compress: Bytes -> Option<Bytes>): Result<EncodedFrame, WireError>
  {
    if events == [] then Err(EmptyBatch)
    else
      var payload := Payload(batchSequence, sentAt, events);
      if |payload| > config.maxDecompressed then Err(Oversized)
      else
        var zstd := |payload| >= config.zstdThreshold;
        var body := if zstd then compress(payload) else Some(payload);
        if body.None? then Err(Zstd)
        else Ok(EncodedFrame(batchSequence, events[0].sequence, events[|events| - 1].sequence,
                             Framed(if zstd then FLAG_ZSTD else 0, |payload|, body.value)))
  }

  // When a batch is not sent: it is empty, its payload is over the limit, or it is
  // to be compressed and cannot be.
  lemma EncodesIff(batchSequence: nat, sentAt: nat, events: seq<EventFields>, config: WireConfig,
                   compress: Bytes -> Option<Bytes>)
    ensures var frame, payload := EncodeFrame(batchSequence, sentAt, events, config, compress), Payload(batchSequence, sentAt, events);
      && (frame == Err(EmptyBatch) <==> events == [])
      && (frame == Err(Oversized) <==> events != [] && |payload| > config.maxDecompressed)
      && (frame == Err(Zstd) <==> && events != [] && config.zstdThreshold <= |payload| <= config.maxDecompressed
                                  && compress(payload) == None)
  {
    hide Payload, Framed;
  }

  // ---- The walker inverts the writer -------------------------------------

  // Decompressing what was compressed gives it back, unless it outgrows the cap.
  ghost predicate ZstdOk(compress: Bytes -> Option<Bytes>, decompress: (Bytes, nat) -> Option<Bytes>) {
    forall p, cap: nat :: compress(p).Some? ==>
      decompress(compress(p).value, cap) == if |p| <= cap then Some(p) else None
  }

  ghost predicate EventOk(e: EventFields) {
    && e.sequence < POW_64
    && (forall f <- e.others :: FieldOk(f) && f.no != 1)
    && |EncodeFields(EventFieldList(e))| < POW_64
  }

  function HighestSequence(events: seq<EventFields>): nat {
    if events == [] then 0 else Max(HighestSequence(events[..|events| - 1]), events[|events| - 1].sequence)
  }

  lemma {:induction false} NoSuchVarint(fs: seq<Field>, no: nat, default: nat)
    requires forall f <- fs :: f.no != no
    ensures LastVarint(fs, no, default) == default
  {
    if fs != [] {
      NoSuchVarint(fs[..|fs| - 1], no, default);
    }
  }

  lemma EventSaysItsSequence(e: EventFields)
    requires EventOk(e)
    ensures LastVarint(EventFieldList(e), 1, 0) == e.sequence
    ensures BatchFieldOk(Event(EventFieldList(e)))
  {
    LastVarintConcat(Scalar(1, e.sequence), e.others, 1, 0);
    NoSuchVarint(e.others, 1, LastVarint(Scalar(1, e.sequence), 1, 0));
    assert Scalar(1, e.sequence) != [] ==> Scalar(1, e.sequence)[..0] == [];
  }

  lemma {:induction false} HighestOfEvents(events: seq<EventFields>, bs: seq<BatchField>, floor: nat)
    requires |bs| == |events|
    requires forall i :: 0 <= i < |events| ==> EventOk(events[i]) && bs[i] == Event(EventFieldList(events[i]))
    ensures HighestEvent(bs, floor) == Max(floor, HighestSequence(events))
  {
    hide EventOk, EventFieldList, LastVarint;
    if events != [] {
      var n := |events| - 1;
      HighestOfEvents(events[..n], bs[..n], floor);
      EventSaysItsSequence(events[n]);
    }
  }

  lemma {:induction false} PlainsHaveNoEvent(bs: seq<BatchField>, floor: nat)
    requires forall b <- bs :: b.Plain?
    ensures HighestEvent(bs, floor) == floor
  {
    if bs != [] {
      assert bs[|bs| - 1].Plain?;
      PlainsHaveNoEvent(bs[..|bs| - 1], floor);
    }
  }

  function Head(batchSequence: nat, sentAt: nat): seq<Field> {
    [VarintField(1, SCHEMA_VERSION)] + Scalar(2, batchSequence) + Scalar(3, sentAt)
  }

  lemma HeadSays(batchSequence: nat, sentAt: nat)
    ensures LastVarint(Head(batchSequence, sentAt), 2, 0) == batchSequence
    ensures LastVarint(Head(batchSequence, sentAt), 3, 0) == sentAt
  {
    var a, b, c := [VarintField(1, SCHEMA_VERSION)], Scalar(2, batchSequence), Scalar(3, sentAt);
    forall no | no == 2 || no == 3
      ensures LastVarint(a + b + c, no, 0) == if no == 2 then batchSequence else sentAt
    {
      LastVarintConcat(a + b, c, no, 0);
      LastVarintConcat(a, b, no, 0);
      NoSuchVarint(a, no, 0);
      ScalarSays(2, batchSequence, no, 0);
      ScalarSays(3, sentAt, no, LastVarint(b, no, 0));
    }
  }

  lemma ScalarSays(no: nat, value: nat, asked: nat, default: nat)
    ensures LastVarint(Scalar(no, value), asked, default) == if no == asked && value != 0 then value else default
  {
    assert Scalar(no, value) != [] ==> Scalar(no, value)[..0] == [];
  }

  // A batch is its head and then its events, all well-formed.
  lemma BatchShape(batchSequence: nat, sentAt: nat, events: seq<EventFields>) returns (tail: seq<BatchField>)
    requires batchSequence < POW_64 && sentAt < POW_64 && forall e <- events :: EventOk(e)
    ensures Batch(batchSequence, sentAt, events) == Plains(Head(batchSequence, sentAt)) + tail
    ensures |tail| == |events| && forall i :: 0 <= i < |events| ==> tail[i] == Event(EventFieldList(events[i]))
    ensures forall b <- Batch(batchSequence, sentAt, events) :: BatchFieldOk(b)
  {
    hide EventOk, EventFieldList, EncodeFields;
    tail := seq(|events|, i requires 0 <= i < |events| => Event(EventFieldList(events[i])));
    forall i | 0 <= i < |events| ensures BatchFieldOk(tail[i]) {
      EventSaysItsSequence(events[i]);
    }
    assert forall b <- tail :: BatchFieldOk(b);
    assert forall b <- Plains(Head(batchSequence, sentAt)) :: BatchFieldOk(b);
  }

  lemma WireOfBoth(head: seq<Field>, tail: seq<BatchField>)
    requires forall i :: 0 <= i < |tail| ==> tail[i].Event?
    ensures AllOnWire(Plains(head) + tail) == head + AllOnWire(tail)
    ensures forall f <- AllOnWire(tail) :: f.no == 4
  {
    hide EncodeFields;
  }

  lemma BatchReading(batchSequence: nat, sentAt: nat, events: seq<EventFields>, info: FrameInfo)
    requires batchSequence < POW_64 && sentAt < POW_64
    requires forall e <- events :: EventOk(e)
    requires info.batchSequence == info.sentAt == info.lastEventSequence == 0
    ensures forall b <- Batch(batchSequence, sentAt, events) :: BatchFieldOk(b)
    ensures Reading(Batch(batchSequence, sentAt, events), info)
         == info.(batchSequence := batchSequence, sentAt := sentAt, lastEventSequence := HighestSequence(events))
  {
    hide EventOk, EventFieldList, LastVarint, HighestEvent, AllOnWire, Batch, BatchFieldOk, Head;
    var head := Head(batchSequence, sentAt);
    var tail := BatchShape(batchSequence, sentAt, events);
    WireOfBoth(head, tail);
    HighestConcat(Plains(head), tail, 0);
    PlainsHaveNoEvent(Plains(head), 0);
    HighestOfEvents(events, tail, 0);
    HeadDecides(head, AllOnWire(tail), 2);
    HeadDecides(head, AllOnWire(tail), 3);
    HeadSays(batchSequence, sentAt);
  }

  lemma HeadDecides(head: seq<Field>, tail: seq<Field>, no: nat)
    requires forall f <- tail :: f.no != no
    ensures LastVarint(head + tail, no, 0) == LastVarint(head, no, 0)
  {
    LastVarintConcat(head, tail, no, 0);
    NoSuchVarint(tail, no, LastVarint(head, no, 0));
  }

  lemma HeaderReadsBack(flags: byte, size: nat, body: Bytes)
    ensures var s := Framed(flags, size, body);
      && |s| >= HEADER_LEN && s[..4] == MAGIC && s[4] == flags && s[5] == SCHEMA_VERSION
      && Number(s[8..12]) == size % POW_32 && s[HEADER_LEN..] == body
  {
    Widths();
    NumberOfBytes(size % POW_32, 4);
    var s := Framed(flags, size, body);
    assert s[8..12] == ToBytes(size % POW_32, 4);
  }

  // The edge reads back the batch sequence, the send time and the highest event
  // sequence of every frame the server writes; it learns nothing from a frame
  // exactly when that frame is compressed and its payload outgrows the walker's
  // cap (the smaller of 256 KiB and the 32-bit size in the header).
  lemma ParseInvertsEncode(batchSequence: nat, sentAt: nat, events: seq<EventFields>, config: WireConfig,
                           compress: Bytes -> Option<Bytes>, decompress: (Bytes, nat) -> Option<Bytes>)
    requires batchSequence < POW_64 && sentAt < POW_64
    requires forall e <- events :: EventOk(e)
    requires ZstdOk(compress, decompress)
    ensures var frame := EncodeFrame(batchSequence, sentAt, events, config, compress);
      var payload := Payload(batchSequence, sentAt, events);
      var zstd := |payload| >= config.zstdThreshold;
      var size := |payload| % POW_32;
      var blank := FrameInfo(zstd, SCHEMA_VERSION, size, 0, 0, 0);
      frame.Ok? ==> ParseFrame(frame.value.bytes, decompress) == Ok(
        if zstd && |payload| > Min(size, MAX_DECOMPRESSED) then blank
        else blank.(batchSequence := batchSequence, sentAt := sentAt, lastEventSequence := HighestSequence(events)))
  {
    hide Payload, Framed, Batch, EventOk, Reading, WalkBatch, HighestSequence;
    var payload := Payload(batchSequence, sentAt, events);
    var zstd := |payload| >= config.zstdThreshold;
    var blank := FrameInfo(zstd, SCHEMA_VERSION, |payload| % POW_32, 0, 0, 0);
    PayloadReading(batchSequence, sentAt, events, blank);
    var body := if zstd then compress(payload) else Some(payload);
    if body.Some? {
      HeaderReadsBack(if zstd then FLAG_ZSTD else 0, |payload|, body.value);
    }
  }

  lemma PayloadReading(batchSequence: nat, sentAt: nat, events: seq<EventFields>, info: FrameInfo)
    requires batchSequence < POW_64 && sentAt < POW_64
    requires forall e <- events :: EventOk(e)
    requires info.batchSequence == info.sentAt == info.lastEventSequence == 0
    ensures WalkBatch(Payload(batchSequence, sentAt, events), info)
         == Ok(info.(batchSequence := batchSequence, sentAt := sentAt, lastEventSequence := HighestSequence(events)))
  {
    hide Batch, EventOk, Reading, WalkBatch, HighestSequence, AllOnWire, EncodeFields, BatchFieldOk;
    BatchReading(batchSequence, sentAt, events, info);
    WalkReadsTheBatch(Batch(batchSequence, sentAt, events), info);
  }

  // With rising sequences, the highest is the last: what the edge decodes is
  // the frame's own last sequence, which is what its cursor relies on.
  lemma {:induction false} HighestIsLast(events: seq<EventFields>)
    requires events != []
    requires forall i, j :: 0 <= i < j < |events| ==> events[i].sequence < events[j].sequence
    ensures HighestSequence(events) == events[|events| - 1].sequence
  {
    if |events| > 1 {
      HighestIsLast(events[..|events| - 1]);
    }
  }

  // The frame as the rest of the pipeline handles it: `decoded` is what the
  // edge's walker finds in its bytes.
  function Announced(f: EncodedFrame, decompress: (Bytes, nat) -> Option<Bytes>): FrameReplay.WireFrame {
    var info := ParseFrame(f.bytes, decompress);
    FrameReplay.WireFrame(f.batchSequence, f.firstSequence, f.lastSequence,
                          if info.Ok? then info.value.lastEventSequence else 0, f.bytes)
  }

  // The hypothesis of the delivery theorems about every frame, as a condition
  // on its payload that the writer can check.
  lemma EdgeDecodesLastIff(batchSequence: nat, sentAt: nat, events: seq<EventFields>, config: WireConfig,
                           compress: Bytes -> Option<Bytes>, decompress: (Bytes, nat) -> Option<Bytes>)
    requires batchSequence < POW_64 && sentAt < POW_64
    requires forall e <- events :: EventOk(e) && e.sequence > 0
    requires forall i, j :: 0 <= i < j < |events| ==> events[i].sequence < events[j].sequence
    requires ZstdOk(compress, decompress)
    ensures var frame := EncodeFrame(batchSequence, sentAt, events, config, compress);
      var size := |Payload(batchSequence, sentAt, events)|;
      frame.Ok? ==>
        var f := Announced(frame.value, decompress);
        && (forall e <- events :: f.firstSequence <= e.sequence <= f.lastSequence)
        && (f.decoded == f.lastSequence <==> size < config.zstdThreshold || size <= Min(size % POW_32, MAX_DECOMPRESSED))
        && (config.maxDecompressed <= MAX_DECOMPRESSED ==> f.decoded == f.lastSequence)
  {
    hide Payload, Framed, EventOk, ParseFrame, ZstdOk;
    ParseInvertsEncode(batchSequence, sentAt, events, config, compress, decompress);
    if events != [] {
      HighestIsLast(events);
    }
  }
}

/** The edge's cursor over a frame, moved by its readers. */
module FrameCursor {
  import opened Basics
  import opened FrameWire
  import opened ProtoWire

  lemma Powers()
    ensures Pow128(9) == 0x8000_0000_0000_0000 && Pow128(10) == 128 * Pow128(9)
  {
    assert Pow128(4) == 0x1000_0000;
    assert Pow128(8) == 0x100_0000_0000_0000;
  }

  lemma {:induction false} PowerBelow(k: nat)
    requires k <= 8
    ensures 0 < Pow128(k) && Pow128(k + 1) == 128 * Pow128(k) <= 0x8000_0000_0000_0000
  {
    Powers();
    PowerGrows(k, 8);
    assert Pow128(9) == 128 * Pow128(8);
  }

  lemma {:induction false} PowerGrows(k: nat, n: nat)
    requires k <= n
    ensures 0 < Pow128(k) <= Pow128(n)
    decreases n
  {
    if k < n {
      PowerGrows(k, n - 1);
    } else if k > 0 {
      PowerGrows(k - 1, k - 1);
    }
  }

  // Or-ing a group of seven bits into a 64-bit accumulator: the groups do not
  // overlap, so it is an addition, and what leaves the top is lost.
  function OrShifted(value: nat, group: nat, k: nat): nat {
    value + (group * Pow128(k)) % POW_64
  }

  lemma OrKeepsLow(value: nat, low: nat, group: nat, k: nat)
    requires k <= 9 && group < 128 && value == low < Pow128(k)
    ensures OrShifted(value, group, k) == (low + group * Pow128(k)) % POW_64
    ensures k < 9 ==> OrShifted(value, group, k) == low + group * Pow128(k) < Pow128(k + 1)
  {
    hide Pow128;
    var p := Pow128(k);
    if k < 9 {
      PowerBelow(k);
      SmallGroup(low, group, p);
    } else {
      Powers();
      TopGroup(low, group);
    }
  }

  lemma SmallGroup(low: nat, group: nat, p: nat)
    requires low < p && group < 128 && 128 * p <= 0x8000_0000_0000_0000
    ensures (group * p) % POW_64 == group * p && (low + group * p) % POW_64 == low + group * p < 128 * p
  {
    ProductBelow(group, p);
    SmallMod(group * p);
    SmallMod(low + group * p);
  }

  lemma ProductBelow(group: nat, p: nat)
    requires group < 128
    ensures group * p <= 127 * p
  {
  }

  lemma SmallMod(x: nat)
    requires x < POW_64
    ensures x % POW_64 == x
  {
  }

  lemma TopGroup(low: nat, group: nat)
    requires low < 0x8000_0000_0000_0000 && group < 128
    ensures low + (group * 0x8000_0000_0000_0000) % POW_64 == (low + group * 0x8000_0000_0000_0000) % POW_64
  {
    var half := 0x8000_0000_0000_0000;
    var q, bit := group / 2, group % 2;
    assert group * half == bit * half + q * POW_64;
  }

  lemma HighGroupIsLost(low: nat, group: nat, k: nat)
    requires k == 10
    ensures (low + group * Pow128(k)) % POW_64 == low % POW_64
  {
    Powers();
    assert group * Pow128(k) == (group * 64) * POW_64;
  }

  // The accumulator holds the low 64 bits of what the first `k` bytes spell.
  ghost predicate Accumulated(value: nat, s: Bytes, k: nat)
    requires k <= |s|
  {
    && value == Low(s[..k]) % POW_64
    && (k <= 9 ==> value == Low(s[..k]) < Pow128(k))
  }

  lemma NothingRead(s: Bytes)
    ensures Accumulated(0, s, 0)
  {
    assert s[..0] == [];
  }

  lemma AccumulatesOne(value: nat, s: Bytes, k: nat)
    requires k < |s| && k <= 10 && Accumulated(value, s, k)
    ensures Accumulated(if k < 10 then OrShifted(value, s[k] % 128, k) else value, s, k + 1)
  {
    hide Low, OrShifted, Pow128;
    LowSnoc(s, k);
    if k < 10 {
      OrKeepsLow(value, Low(s[..k]), s[k] % 128, k);
    } else {
      HighGroupIsLost(Low(s[..k]), s[k] % 128, k);
    }
  }

  class Cursor {
    const buf: Bytes
    var pos: nat

    ghost predicate Valid()
      reads this
    {
      pos <= |buf|
    }

    ghost function Rest(): Bytes
      reads this
      requires Valid()
    {
      buf[pos..]
    }

    constructor (payload: Bytes)
      ensures Valid() && buf == payload && pos == 0 && Rest() == payload
    {
      buf, pos := payload, 0;
    }

    method Varint() returns (r: Result<nat, BadFrame>)
      requires Valid()
      modifies this
      ensures Valid() && old(pos) <= pos
      ensures var t := TakeVarint(old(Rest()));
        if t.Ok? then r == Ok(t.value.0) && Rest() == t.value.1 else r == Err(t.error)
    {
      hide Read, Low, Pow128, OrShifted;
      ghost var s := Rest();
      ghost var start := pos;
      var value, shift := 0, 0;
      NothingRead(s);
      while true
        invariant start <= pos <= |buf| && shift == 7 * (pos - start) <= 70
        invariant forall j :: 0 <= j < pos - start ==> s[j] >= 128
        invariant Accumulated(value, s, pos - start)
        decreases |buf| - pos
      {
        ghost var k := pos - start;
        ReadEnds(s, k);
        if pos == |buf| {
          return Err(TruncatedVarint);
        }
        var b := buf[pos];
        assert s[k] == b;
        pos := pos + 1;
        AccumulatesOne(value, s, k);
        if shift < 64 {
          value := OrShifted(value, b % 128, shift / 7);
        }
        if b < 128 {
          assert buf[pos..] == s[k + 1..];
          return Ok(value);
        }
        shift := shift + 7;
        if shift > 70 {
          ReadEnds(s, k + 1);
          return Err(TruncatedVarint);
        }
      }
    }

    method Advance(n: nat) returns (r: Result<Bytes, BadFrame>)
      requires Valid()
      modifies this
      ensures Valid() && old(pos) <= pos
      ensures var t := TakeN(old(Rest()), n);
        if t.Ok? then r == Ok(t.value.0) && Rest() == t.value.1 else r == Err(t.error)
    {
      if pos + n > |buf| {
        return Err(TruncatedField);
      }
      assert Rest()[..n] == buf[pos..pos + n];
      r := Ok(buf[pos..pos + n]);
      pos := pos + n;
    }

    method Take() returns (r: Result<Bytes, BadFrame>)
      requires Valid()
      modifies this
      ensures Valid() && old(pos) <= pos
      ensures var t := TakeBytes(old(Rest()));
        if t.Ok? then r == Ok(t.value.0) && Rest() == t.value.1 else r == Err(t.error)
    {
      hide TakeVarint, TakeN;
      var n := Varint();
      if n.Err? {
        return Err(n.error);
      }
      r := Advance(n.value);
    }

    method Skip(ghost no: nat, wire: nat) returns (r: Option<BadFrame>)
      requires Valid()
      modifies this
      ensures Valid() && old(pos) <= pos
      ensures var t := TakeBody(old(Rest()), no, wire);
        if t.Ok? then r == None && Rest() == t.value.1 else r == Some(t.error)
    {
      hide TakeVarint, TakeN, TakeBytes;
      match wire {
        case 0 => var v := Varint(); r := if v.Ok? then None else Some(v.error);
        case 1 => var v := Advance(8); r := if v.Ok? then None else Some(v.error);
        case 2 => var v := Take(); r := if v.Ok? then None else Some(v.error);
        case 5 => var v := Advance(4); r := if v.Ok? then None else Some(v.error);
        case other => r := Some(WireType(other));
      }
    }
  }

  lemma EventStep(s: Bytes, sequence: nat)
    ensures WalkEvent(s, sequence) ==
      if s == [] then Ok(sequence)
      else
        var t := TakeField(s);
        if t.Err? then Err(t.error) else WalkEvent(t.value.1, EventSequence(t.value.0, sequence))
  {
  }

  lemma BatchStep(s: Bytes, info: FrameInfo)
    ensures WalkBatch(s, info) ==
      if s == [] then Ok(info)
      else
        var t := TakeField(s);
        if t.Err? then Err(t.error)
        else
          var i := Absorb(info, t.value.0);
          if i.Err? then i else WalkBatch(t.value.1, i.value)
  {
  }

  lemma BodyCases(s: Bytes, no: nat)
    ensures TakeBody(s, no, 0) ==
      var t := TakeVarint(s); if t.Err? then Err(t.error) else Ok((VarintField(no, t.value.0), t.value.1))
    ensures TakeBody(s, no, 2) ==
      var t := TakeBytes(s); if t.Err? then Err(t.error) else Ok((LenField(no, t.value.0), t.value.1))
  {
  }

  // A field the walker does not look for keeps its number and wire type.
  lemma BodyKeeps(s: Bytes, no: nat, wire: nat)
    ensures var t := TakeBody(s, no, wire); t.Ok? ==> t.value.0.no == no && t.value.0.WireType() == wire
  {
  }

  method ReadEvent(payload: Bytes) returns (r: Result<nat, BadFrame>)
    ensures r == WalkEvent(payload, 0)
  {
    hide TakeVarint, TakeBytes, TakeN, TakeBody, WalkEvent;
    var cursor := new Cursor(payload);
    var sequence := 0;
    while cursor.pos < |cursor.buf|
      invariant cursor.Valid() && cursor.buf == payload
      invariant WalkEvent(payload, 0) == WalkEvent(cursor.Rest(), sequence)
      decreases |payload| - cursor.pos
    {
      EventStep(cursor.Rest(), sequence);
      var key := cursor.Varint();
      if key.Err? {
        return Err(key.error);
      }
      var wire := key.value % 8;
      BodyCases(cursor.Rest(), key.value / 8);
      BodyKeeps(cursor.Rest(), key.value / 8, wire);
      if key.value / 8 == 1 && wire == 0 {
        var v := cursor.Varint();
        if v.Err? {
          return Err(v.error);
        }
        sequence := v.value;
      } else {
        var skipped := cursor.Skip(key.value / 8, wire);
        if skipped.Some? {
          return Err(skipped.value);
        }
      }
    }
    EventStep(cursor.Rest(), sequence);
    r := Ok(sequence);
  }

  method ReadBatch(payload: Bytes, before: FrameInfo) returns (r: Result<FrameInfo, BadFrame>)
    ensures r == WalkBatch(payload, before)
  {
    hide TakeVarint, TakeBytes, TakeN, TakeBody, WalkEvent, WalkBatch;
    var cursor := new Cursor(payload);
    var info := before;
    while cursor.pos < |cursor.buf|
      invariant cursor.Valid() && cursor.buf == payload
      invariant WalkBatch(payload, before) == WalkBatch(cursor.Rest(), info)
      decreases |payload| - cursor.pos
    {
      BatchStep(cursor.Rest(), info);
      var key := cursor.Varint();
      if key.Err? {
        return Err(key.error);
      }
      var wire := key.value % 8;
      BodyCases(cursor.Rest(), key.value / 8);
      BodyKeeps(cursor.Rest(), key.value / 8, wire);
      if key.value / 8 == 2 && wire == 0 {
        var v := cursor.Varint();
        if v.Err? {
          return Err(v.error);
        }
        info := info.(batchSequence := v.value);
      } else if key.value / 8 == 3 && wire == 0 {
        var v := cursor.Varint();
        if v.Err? {
          return Err(v.error);
        }
        info := info.(sentAt := v.value);
      } else if key.value / 8 == 4 && wire == 2 {
        var event := cursor.Take();
        if event.Err? {
          return Err(event.error);
        }
        var sequence := ReadEvent(event.value);
        if sequence.Err? {
          return Err(sequence.error);
        }
        info := info.(lastEventSequence := Max(info.lastEventSequence, sequence.value));
      } else {
        var skipped := cursor.Skip(key.value / 8, wire);
        if skipped.Some? {
          return Err(skipped.value);
        }
      }
    }
    BatchStep(cursor.Rest(), info);
    r := Ok(info);
  }
}
