/** An event and its stored form (src/model.rs, `EventRecord`). An enumeration
    value stands for its number in the wire schema; which numbers that schema
    knows is a parameter, 0 being the unspecified value of each. */
module EventProto {
  import opened Basics
  import opened Catalog

  datatype Kind = Propose | Dispute

  datatype ChainLog = ChainLog(blockNumber: nat, transactionHash: Bytes, logIndex: nat, receivedAt: nat, removed: bool)

  datatype PriceRequest = PriceRequest(
    requester: Bytes, conditionId: Bytes, questionId: Bytes, marketId: Option<nat>, proposedPrice: Bytes)

  datatype EventRecord = EventRecord(
    sequence: nat, kind: Kind, chain: ChainLog, request: PriceRequest, enrichment: Option<Market>, priceOutcome: nat)

  datatype Proto = Proto(
    sequence: nat, eventType: int, transactionHash: Bytes, logIndex: nat, marketId: nat, conditionId: Bytes,
    tokenIds: seq<Bytes>, tagIds: seq<nat>, receivedAt: nat, removed: bool, enrichmentStatus: int,
    priceOutcome: int, category: int, betType: int, negRisk: bool)

  datatype Schema = Schema(
    propose: int, dispute: int, hit: int, miss: int, outcomes: set<nat>, categories: set<nat>, betTypes: set<nat>)

  ghost predicate SchemaOk(s: Schema) {
    && s.propose != s.dispute && s.hit != s.miss
    && 0 in s.outcomes && 0 in s.categories && 0 in s.betTypes
  }

  // The fixed-size arrays have their sizes and enumerations their values.
  ghost predicate RecordOk(s: Schema, r: EventRecord) {
    && |r.chain.transactionHash| == 32 && |r.request.conditionId| == 32 && r.priceOutcome in s.outcomes
    && (r.enrichment.Some? ==>
          var e := r.enrichment.value;
          && |e.conditionId| == 32 && e.category in s.categories && e.betType in s.betTypes
          && forall i :: 0 <= i < |e.tokenIds| ==> |e.tokenIds[i]| == 32)
  }

  function ResolvedConditionId(r: EventRecord): Bytes {
    if r.enrichment.Some? then r.enrichment.value.conditionId else r.request.conditionId
  }

  function ToProto(s: Schema, r: EventRecord): Proto {
    var e := r.enrichment;
    Proto(r.sequence, if r.kind == Propose then s.propose else s.dispute, r.chain.transactionHash, r.chain.logIndex,
          r.request.marketId.GetOr(0), ResolvedConditionId(r),
          if e.Some? then e.value.tokenIds else [], if e.Some? then e.value.tagIds else [],
          r.chain.receivedAt, r.chain.removed, if e.Some? then s.hit else s.miss, r.priceOutcome,
          if e.Some? then e.value.category else 0, if e.Some? then e.value.betType else 0, e.Some? && e.value.negRisk)
  }

  function Known(numbers: set<nat>, n: int): nat {
    if n >= 0 && n in numbers then n else 0
  }

  // The 32-byte values among `s`.
  function Only32(s: seq<Bytes>): seq<Bytes> {
    if s == [] then [] else Only32(s[..|s| - 1]) + if |s[|s| - 1]| == 32 then [s[|s| - 1]] else []
  }

  // Requester, question, price and block are not stored and come back as zero.
  function FromProto(s: Schema, p: Proto): Option<EventRecord> {
    if |p.conditionId| != 32 || |p.transactionHash| != 32 || p.eventType !in {s.propose, s.dispute} then None
    else
      Some(EventRecord(
        p.sequence, if p.eventType == s.propose then Propose else Dispute,
        ChainLog(0, p.transactionHash, p.logIndex, p.receivedAt, p.removed),
        PriceRequest(Zeros(20), p.conditionId, Zeros(32), if p.marketId != 0 then Some(p.marketId) else None, Zeros(32)),
        if p.enrichmentStatus == s.hit then
          Some(Market(p.marketId, p.conditionId, Only32(p.tokenIds), p.tagIds,
                          Known(s.categories, p.category), Known(s.betTypes, p.betType), p.negRisk))
        else None,
        Known(s.outcomes, p.priceOutcome)))
  }

  // The dedup key of an event.
  function Key(r: EventRecord): (Bytes, nat, bool) {
    (r.chain.transactionHash, r.chain.logIndex, r.chain.removed)
  }

  lemma {:induction false} Only32KeepsAll(s: seq<Bytes>)
    requires forall i :: 0 <= i < |s| ==> |s[i]| == 32
    ensures Only32(s) == s
  {
    if s != [] {
      Only32KeepsAll(s[..|s| - 1]);
    }
  }

  // What any stored form comes back as: none at all if an id has not 32 bytes or the
  // event is of no known kind; numbers the schema does not know count as 0, and
  // token ids that have not 32 bytes are left out.
  lemma ComesBackIff(s: Schema, p: Proto)
    ensures FromProto(s, p).Some? <==>
      |p.conditionId| == 32 && |p.transactionHash| == 32 && (p.eventType == s.propose || p.eventType == s.dispute)
    ensures FromProto(s, p).Some? ==>
      var r := FromProto(s, p).value;
      && (r.priceOutcome == p.priceOutcome || (r.priceOutcome == 0 && !(p.priceOutcome >= 0 && p.priceOutcome in s.outcomes)))
      && (r.enrichment.Some? <==> p.enrichmentStatus == s.hit)
      && (r.enrichment.Some? ==>
            var e := r.enrichment.value;
            && (e.category == p.category || (e.category == 0 && !(p.category >= 0 && p.category in s.categories)))
            && (e.betType == p.betType || (e.betType == 0 && !(p.betType >= 0 && p.betType in s.betTypes)))
            && (0 in s.categories ==> e.category in s.categories) && (0 in s.betTypes ==> e.betType in s.betTypes)
            && e.tagIds == p.tagIds && forall t <- e.tokenIds :: |t| == 32 && t in p.tokenIds)
      && (0 in s.outcomes ==> r.priceOutcome in s.outcomes)
  {
    Only32AreSome(p.tokenIds);
  }

  lemma {:induction false} Only32AreSome(s: seq<Bytes>)
    ensures forall t :: t in Only32(s) <==> t in s && |t| == 32
  {
    if s != [] {
      Only32AreSome(s[..|s| - 1]);
      assert s == s[..|s| - 1] + [s[|s| - 1]];
    }
  }

  // What of a record outlives a restart: everything but the block, the requester,
  // the question and the price. The market id is the one the event itself names,
  // 0 counting as none; the condition id is the catalog's once there is a hit.
  function Remembered(r: EventRecord): EventRecord {
    var named := r.request.marketId.GetOr(0);
    var conditionId := if r.enrichment.Some? then r.enrichment.value.conditionId else r.request.conditionId;
    r.(chain := r.chain.(blockNumber := 0),
       request := PriceRequest(Zeros(20), conditionId, Zeros(32), if named == 0 then None else Some(named), Zeros(32)),
       enrichment := if r.enrichment.Some? then Some(r.enrichment.value.(marketId := named)) else None)
  }

  // A stored record comes back as just that.
  lemma ComesBackAs(s: Schema, r: EventRecord)
    requires SchemaOk(s) && RecordOk(s, r)
    ensures FromProto(s, ToProto(s, r)) == Some(Remembered(r))
  {
    if r.enrichment.Some? {
      Only32KeepsAll(r.enrichment.value.tokenIds);
    }
  }

  // What is dropped is not needed again: what comes back stores to the same
  // bytes, comes back unchanged, and is recognised as the same event.
  lemma RecoveredStoresTheSame(s: Schema, r: EventRecord)
    requires SchemaOk(s) && RecordOk(s, r)
    ensures var r' := Remembered(r);
      && RecordOk(s, r') && ToProto(s, r') == ToProto(s, r) && Remembered(r') == r' && Key(r') == Key(r)
      && r'.kind == r.kind && r'.sequence == r.sequence && r'.priceOutcome == r.priceOutcome
  {
  }
}

/** The event write-ahead log (src/storage.rs, `Journal` and `load_events`).
    The checksum and the protobuf codec are parameters. */
module Wal {
  import opened Basics
  import opened BigEndian
  import opened EventProto

  const WAL_MAGIC: Bytes := [0x55, 0x4D, 0x41, 0x57, 0x41, 0x4C, 0x31, 0x00]
  const MAX_WAL_RECORD := 0x10_0000

  datatype Codec = Codec(
    schema: Schema, crc: Bytes -> nat, encode: Proto -> Bytes, decode: Bytes -> Option<Proto>)

  ghost predicate CodecOk(c: Codec) {
    && SchemaOk(c.schema)
    && (forall b :: c.crc(b) < POW_32)
    && (forall p :: c.decode(c.encode(p)) == Some(p))
  }

  datatype StorageError = Io | Format | Protobuf

  function Payload(c: Codec, r: EventRecord): Bytes {
    c.encode(ToProto(c.schema, r))
  }

  function Framed(c: Codec, payload: Bytes): Bytes {
    ToBytes(|payload| % POW_32, 4) + ToBytes(c.crc(payload), 4) + payload
  }

  function Log(c: Codec, records: seq<EventRecord>): Bytes {
    if records == [] then [] else Log(c, records[..|records| - 1]) + Framed(c, Payload(c, records[|records| - 1]))
  }

  function File(c: Codec, records: seq<EventRecord>): Bytes {
    WAL_MAGIC + Log(c, records)
  }

  // ---- Recovery ----------------------------------------------------------

  // The next record, if a whole one of admissible length with a matching
  // checksum is there: its payload and what follows it.
  function NextRecord(c: Codec, s: Bytes): (r: Option<(Bytes, Bytes)>)
    ensures r.Some? ==> |r.value.1| < |s|
  {
    if |s| < 4 then None
    else
      var n := Number(s[..4]);
      if n > MAX_WAL_RECORD || |s| < 8 + n then None
      else
        var payload := s[8..8 + n];
        if c.crc(payload) != Number(s[4..8]) then None else Some((payload, s[8 + n..]))
  }

  function Recover(c: Codec, s: Bytes): Result<seq<EventRecord>, StorageError>
    decreases |s|
  {
    var next := NextRecord(c, s);
    if next.None? then Ok([])
    else
      var proto := c.decode(next.value.0);
      if proto.None? then Err(Protobuf)
      else
        var r := FromProto(c.schema, proto.value);
        var rest := Recover(c, next.value.1);
        if r.None? || rest.Err? then rest else Ok([r.value] + rest.value)
  }

  function Load(c: Codec, file: Bytes, capacity: nat): Result<seq<EventRecord>, StorageError> {
    if |file| < 8 then Err(Io)
    else if file[..8] != WAL_MAGIC then Err(Format)
    else
      var all := Recover(c, file[8..]);
      if all.Err? then all else Ok(LastOf(all.value, Max(capacity, 1)))
  }

  // Recovery meets a record whose checksum is right but which is no event.
  predicate Undecodable(c: Codec, s: Bytes)
    decreases |s|
  {
    var next := NextRecord(c, s);
    next.Some? && (c.decode(next.value.0).None? || Undecodable(c, next.value.1))
  }

  lemma {:induction false} RecoverFailsIff(c: Codec, s: Bytes)
    ensures Recover(c, s) == Err(Protobuf) <==> Undecodable(c, s)
    ensures Recover(c, s).Err? ==> Recover(c, s) == Err(Protobuf)
    decreases |s|
  {
    hide NextRecord, FromProto;
    var next := NextRecord(c, s);
    if next.Some? && c.decode(next.value.0).Some? {
      RecoverFailsIff(c, next.value.1);
    }
  }

  // When recovery fails: the file is shorter than the magic, has another one, or
  // holds a record that passes its checksum and cannot be decoded.
  lemma LoadFailsIff(c: Codec, file: Bytes, capacity: nat)
    ensures Load(c, file, capacity) == Err(Io) <==> |file| < 8
    ensures Load(c, file, capacity) == Err(Format) <==> |file| >= 8 && file[..8] != WAL_MAGIC
    ensures Load(c, file, capacity) == Err(Protobuf) <==> WAL_MAGIC <= file && Undecodable(c, file[8..])
  {
    hide Recover;
    if |file| >= 8 {
      RecoverFailsIff(c, file[8..]);
    }
  }

  // ---- What survives a cut -----------------------------------------------

  function Small(c: Codec, r: EventRecord): bool {
    |Payload(c, r)| <= MAX_WAL_RECORD
  }

  // How many records lie whole within the first `n` bytes of the log, counting
  // up to the first that is too large to be read back.
  function Surviving(c: Codec, records: seq<EventRecord>, n: nat): (k: nat)
    ensures k <= |records|
  {
    if records == [] then 0
    else
      var size := |Framed(c, Payload(c, records[0]))|;
      if size <= n && Small(c, records[0]) then 1 + Surviving(c, records[1..], n - size) else 0
  }

  // It is the longest such prefix.
  lemma {:induction false} SurvivingIsLongest(c: Codec, records: seq<EventRecord>, n: nat)
    ensures var k := Surviving(c, records, n);
      && |Log(c, records[..k])| <= n && (forall r <- records[..k] :: Small(c, r))
      && (k < |records| ==> |Log(c, records[..k + 1])| > n || !Small(c, records[k]))
  {
    hide Framed, Payload, Small, Log;
    var k := Surviving(c, records, n);
    EmptyLog(c);
    if records != [] {
      var size := |Framed(c, Payload(c, records[0]))|;
      LogCons(c, records[..1]);
      if k > 0 {
        SurvivingIsLongest(c, records[1..], n - size);
        LogCons(c, records[..k]);
        assert records[..k][1..] == records[1..][..k - 1];
        if k < |records| {
          LogCons(c, records[..k + 1]);
          assert records[..k + 1][1..] == records[1..][..k];
        }
      }
    }
  }

  lemma {:induction false} LogCons(c: Codec, records: seq<EventRecord>)
    requires records != []
    ensures Log(c, records) == Framed(c, Payload(c, records[0])) + Log(c, records[1..])
  {
    hide Framed, Payload;
    if |records| > 1 {
      var n := |records| - 1;
      LogCons(c, records[..n]);
      assert records[..n][1..] == records[1..][..n - 1];
    } else {
      assert records[..0] == [];
    }
  }

  function AllRemembered(records: seq<EventRecord>): (s: seq<EventRecord>)
    ensures |s| == |records| && forall i :: 0 <= i < |s| ==> s[i] == Remembered(records[i])
  {
    seq(|records|, i requires 0 <= i < |records| => Remembered(records[i]))
  }

  // A record's frame, wherever it is cut, followed by anything if it is not.
  lemma NextIsFirst(c: Codec, payload: Bytes, rest: Bytes)
    requires CodecOk(c) && |payload| < POW_32
    ensures NextRecord(c, Framed(c, payload) + rest) ==
      if |payload| <= MAX_WAL_RECORD then Some((payload, rest)) else None
  {
    hide ToBytes, Number, Pow256;
    var s := Framed(c, payload) + rest;
    Widths();
    NumberOfBytes(|payload|, 4);
    NumberOfBytes(c.crc(payload), 4);
    assert s[..4] == ToBytes(|payload|, 4);
    assert s[4..8] == ToBytes(c.crc(payload), 4);
    assert s[8..8 + |payload|] == payload;
    assert s[8 + |payload|..] == rest;
  }

  lemma CutRecordIsSkipped(c: Codec, payload: Bytes, n: nat)
    requires |payload| < POW_32 && n < |Framed(c, payload)|
    ensures NextRecord(c, Framed(c, payload)[..n]) == None
  {
    hide ToBytes, Number, Pow256;
    if n >= 4 {
      Widths();
      NumberOfBytes(|payload|, 4);
      assert Framed(c, payload)[..n][..4] == ToBytes(|payload|, 4);
    }
  }

  ghost predicate Storable(c: Codec, r: EventRecord) {
    RecordOk(c.schema, r) && |Payload(c, r)| < POW_32
  }

  lemma RecoverStep(c: Codec, r: EventRecord, s: Bytes, rest: Bytes)
    requires CodecOk(c) && Storable(c, r) && NextRecord(c, s) == Some((Payload(c, r), rest))
    ensures Recover(c, s) == if Recover(c, rest).Ok? then Ok([Remembered(r)] + Recover(c, rest).value) else Recover(c, rest)
  {
    hide ToProto, FromProto, NextRecord, Remembered;
    ComesBackAs(c.schema, r);
  }

  lemma {:induction false} RecoverCut(c: Codec, records: seq<EventRecord>, n: nat)
    requires CodecOk(c) && n <= |Log(c, records)|
    requires forall r <- records :: Storable(c, r)
    ensures Recover(c, Log(c, records)[..n]) == Ok(AllRemembered(records[..Surviving(c, records, n)]))
  {
    hide Framed, Payload, ToProto, FromProto, NextRecord, CodecOk, RecordOk, Storable, Log, Remembered, Small;
    if records == [] {
      EmptyLog(c);
    } else {
      var first := Framed(c, Payload(c, records[0]));
      LogCons(c, records);
      SmallMeans(c, records[0]);
      if n < |first| {
        assert Log(c, records)[..n] == first[..n];
        CutRecordIsSkipped(c, Payload(c, records[0]), n);
      } else {
        var rest := Log(c, records[1..])[..n - |first|];
        assert Log(c, records)[..n] == first + rest;
        NextIsFirst(c, Payload(c, records[0]), rest);
        if Small(c, records[0]) {
          RecoverCut(c, records[1..], n - |first|);
          RecoverStep(c, records[0], first + rest, rest);
          var k := Surviving(c, records, n);
          assert records[..k] == [records[0]] + records[1..][..k - 1];
          assert AllRemembered(records[..k]) == [Remembered(records[0])] + AllRemembered(records[1..][..k - 1]);
        }
      }
    }
  }

  lemma EmptyLog(c: Codec)
    ensures Log(c, []) == [] && Recover(c, []) == Ok([])
  {
  }

  lemma SmallMeans(c: Codec, r: EventRecord)
    ensures Small(c, r) <==> |Payload(c, r)| <= MAX_WAL_RECORD
    ensures Storable(c, r) ==> |Payload(c, r)| < POW_32
  {
  }

  // ---- Runs of the journal -----------------------------------------------

  datatype Op = Append(record: EventRecord) | Rewrite(records: seq<EventRecord>)

  // An append refuses a record that recovery would not read back; a rewrite
  // does not look.
  function Write(c: Codec, file: Bytes, op: Op): Bytes {
    match op
    case Append(r) => if Small(c, r) then file + Framed(c, Payload(c, r)) else file
    case Rewrite(rs) => File(c, rs)
  }

  function WriteAll(c: Codec, file: Bytes, ops: seq<Op>): Bytes {
    if ops == [] then file else Write(c, WriteAll(c, file, ops[..|ops| - 1]), ops[|ops| - 1])
  }

  // The records the file holds after `ops`, oldest first.
  function Held(c: Codec, ops: seq<Op>): seq<EventRecord> {
    if ops == [] then []
    else
      var before := Held(c, ops[..|ops| - 1]);
      match ops[|ops| - 1]
      case Append(r) => if Small(c, r) then before + [r] else before
      case Rewrite(rs) => rs
  }

  lemma {:induction false} FileHolds(c: Codec, ops: seq<Op>)
    ensures WriteAll(c, WAL_MAGIC, ops) == File(c, Held(c, ops))
  {
    hide Framed, Payload, Small;
    if ops != [] {
      FileHolds(c, ops[..|ops| - 1]);
      var before := Held(c, ops[..|ops| - 1]);
      var op := ops[|ops| - 1];
      if op.Append? {
        assert (before + [op.record])[..|before|] == before;
      }
    }
  }

  // From a log holding only its magic, after any appends and rewrites and a cut
  // at any byte after the magic, recovery returns what is remembered of the
  // newest `capacity` records (one at least) among those that survive whole.
  lemma RecoversWhatSurvives(c: Codec, ops: seq<Op>, n: nat, capacity: nat)
    requires CodecOk(c) && 8 <= n <= |WriteAll(c, WAL_MAGIC, ops)|
    requires forall r <- Held(c, ops) :: Storable(c, r)
    ensures var kept := LastOf(Held(c, ops)[..Surviving(c, Held(c, ops), n - 8)], Max(capacity, 1));
      Load(c, WriteAll(c, WAL_MAGIC, ops)[..n], capacity) == Ok(AllRemembered(kept))
  {
    hide Recover, Log, Held, WriteAll, Surviving, CodecOk, Storable, Remembered;
    var held := Held(c, ops);
    FileHolds(c, ops);
    var file := WriteAll(c, WAL_MAGIC, ops)[..n];
    assert file[..8] == WAL_MAGIC && file[8..] == Log(c, held)[..n - 8];
    RecoverCut(c, held, n - 8);
    NewestRemembered(held[..Surviving(c, held, n - 8)], Max(capacity, 1));
  }

  lemma NewestRemembered(records: seq<EventRecord>, n: nat)
    ensures LastOf(AllRemembered(records), n) == AllRemembered(LastOf(records, n))
  {
    hide Remembered;
  }

  lemma {:induction false} AllSurviveUncut(c: Codec, records: seq<EventRecord>)
    ensures (forall r <- records :: Small(c, r)) <==> Surviving(c, records, |Log(c, records)|) == |records|
  {
    hide Framed, Payload, Small;
    if records != [] {
      LogCons(c, records);
      AllSurviveUncut(c, records[1..]);
      assert records == [records[0]] + records[1..];
      assert records[0] in records;
    }
  }

  // From an uncut log and with room for all of it, recovery brings back what is
  // remembered of every record, in order, exactly when none is oversized;
  // otherwise of those before the first oversized one.
  lemma NothingIsLostUncutIff(c: Codec, records: seq<EventRecord>, capacity: nat)
    requires CodecOk(c) && |records| <= capacity && forall r <- records :: Storable(c, r)
    ensures var loaded := Load(c, File(c, records), capacity);
      && loaded.Ok? && |loaded.value| <= |records| && loaded.value == AllRemembered(records[..|loaded.value|])
      && (loaded.value == AllRemembered(records) <==> forall r <- records :: Small(c, r))
      && (|loaded.value| < |records| ==> !Small(c, records[|loaded.value|]))
  {
    hide Recover, Log, Surviving, CodecOk, Storable, Small, Remembered;
    var all := Log(c, records);
    var file := File(c, records);
    assert file[..8] == WAL_MAGIC && file[8..] == all && all[..|all|] == all;
    RecoverCut(c, records, |all|);
    AllSurviveUncut(c, records);
    SurvivingIsLongest(c, records, |all|);
    var k := Surviving(c, records, |all|);
    assert k == |records| ==> records[..k] == records;
    PrefixIsNotLonger(c, records, if k < |records| then k + 1 else k);
  }

  // An oversized record hides everything from it on.
  lemma OversizedHides(c: Codec, records: seq<EventRecord>, capacity: nat)
    requires CodecOk(c) && records != [] && MAX_WAL_RECORD < |Payload(c, records[0])| < POW_32
    ensures Load(c, File(c, records), capacity) == Ok([])
  {
    hide Log, Payload, CodecOk, Framed;
    var file := File(c, records);
    assert file[..8] == WAL_MAGIC && file[8..] == Log(c, records);
    LogCons(c, records);
    NextIsFirst(c, Payload(c, records[0]), Log(c, records[1..]));
  }

  lemma {:induction false} PrefixIsNotLonger(c: Codec, records: seq<EventRecord>, n: nat)
    requires n <= |records|
    ensures |Log(c, records[..n])| <= |Log(c, records)|
  {
    hide Framed, Payload;
    if n < |records| {
      var k := |records| - 1;
      PrefixIsNotLonger(c, records[..k], n);
      assert records[..k][..n] == records[..n];
    } else {
      assert records[..n] == records;
    }
  }
}

/** A codec and a record that show the size limit missing from `rewrite`: a
    self-delimiting encoding, under which a record with enough tags is too large. */
module WalWitness {
  import opened Basics
  import opened ProtoWire
  import opened EventProto
  import opened Wal

  function PutInt(i: int): Bytes {
    Varint(if i >= 0 then 2 * i else -2 * i - 1)
  }

  function PutBool(b: bool): Bytes {
    Varint(if b then 1 else 0)
  }

  function PutBytes(b: Bytes): Bytes {
    Varint(|b|) + b
  }

  function PutNats(s: seq<nat>): Bytes {
    if s == [] then [] else Varint(s[0]) + PutNats(s[1..])
  }

  function PutAll(s: seq<Bytes>): Bytes {
    if s == [] then [] else PutBytes(s[0]) + PutAll(s[1..])
  }

  function Put(p: Proto): Bytes {
    Varint(p.sequence) + (PutInt(p.eventType) + (PutBytes(p.transactionHash) + (Varint(p.logIndex) + (Varint(p.marketId)
    + (PutBytes(p.conditionId) + (Varint(|p.tokenIds|) + (PutAll(p.tokenIds) + (Varint(|p.tagIds|) + (PutNats(p.tagIds)
    + PutRest(p))))))))))
  }

  function PutRest(p: Proto): Bytes {
    Varint(p.receivedAt) + (PutBool(p.removed) + (PutInt(p.enrichmentStatus) + (PutInt(p.priceOutcome)
    + (PutInt(p.category) + (PutInt(p.betType) + PutBool(p.negRisk))))))
  }

  // ---- Nothing is encoded like anything else -----------------------------

  lemma NatPeels(m: nat, n: nat, s: Bytes, t: Bytes)
    requires Varint(m) + s == Varint(n) + t
    ensures m == n && s == t
  {
    hide Varint, Read;
    ReadOfVarint(m, s);
    ReadOfVarint(n, t);
    Tails(Varint(m), s, t);
  }

  lemma Tails(a: Bytes, s: Bytes, t: Bytes)
    ensures a + s == a + t ==> s == t
  {
    assert (a + s)[|a|..] == s && (a + t)[|a|..] == t;
  }

  lemma IntPeels(m: int, n: int, s: Bytes, t: Bytes)
    requires PutInt(m) + s == PutInt(n) + t
    ensures m == n && s == t
  {
    hide Varint;
    NatPeels(if m >= 0 then 2 * m else -2 * m - 1, if n >= 0 then 2 * n else -2 * n - 1, s, t);
  }

  lemma BoolPeels(m: bool, n: bool, s: Bytes, t: Bytes)
    requires PutBool(m) + s == PutBool(n) + t
    ensures m == n && s == t
  {
    hide Varint;
    NatPeels(if m then 1 else 0, if n then 1 else 0, s, t);
  }

  lemma BytesPeel(a: Bytes, b: Bytes, s: Bytes, t: Bytes)
    requires PutBytes(a) + s == PutBytes(b) + t
    ensures a == b && s == t
  {
    hide Varint;
    assert PutBytes(a) + s == Varint(|a|) + (a + s) && PutBytes(b) + t == Varint(|b|) + (b + t);
    NatPeels(|a|, |b|, a + s, b + t);
    assert (a + s)[..|a|] == a && (b + t)[..|b|] == b;
    Tails(a, s, t);
  }

  lemma {:induction false} NatsPeel(a: seq<nat>, b: seq<nat>, s: Bytes, t: Bytes)
    requires |a| == |b| && PutNats(a) + s == PutNats(b) + t
    ensures a == b && s == t
  {
    hide Varint;
    if a == [] {
      assert [] + s == s && [] + t == t;
    } else {
      assert PutNats(a) + s == Varint(a[0]) + (PutNats(a[1..]) + s);
      assert PutNats(b) + t == Varint(b[0]) + (PutNats(b[1..]) + t);
      NatPeels(a[0], b[0], PutNats(a[1..]) + s, PutNats(b[1..]) + t);
      NatsPeel(a[1..], b[1..], s, t);
      assert a == [a[0]] + a[1..] && b == [b[0]] + b[1..];
    }
  }

  lemma {:induction false} AllPeel(a: seq<Bytes>, b: seq<Bytes>, s: Bytes, t: Bytes)
    requires |a| == |b| && PutAll(a) + s == PutAll(b) + t
    ensures a == b && s == t
  {
    hide PutBytes;
    if a == [] {
      assert [] + s == s && [] + t == t;
    } else {
      assert PutAll(a) + s == PutBytes(a[0]) + (PutAll(a[1..]) + s);
      assert PutAll(b) + t == PutBytes(b[0]) + (PutAll(b[1..]) + t);
      BytesPeel(a[0], b[0], PutAll(a[1..]) + s, PutAll(b[1..]) + t);
      AllPeel(a[1..], b[1..], s, t);
      assert a == [a[0]] + a[1..] && b == [b[0]] + b[1..];
    }
  }

  lemma RestPeels(p: Proto, q: Proto)
    requires PutRest(p) == PutRest(q)
    ensures p.receivedAt == q.receivedAt && p.removed == q.removed && p.enrichmentStatus == q.enrichmentStatus
         && p.priceOutcome == q.priceOutcome && p.category == q.category && p.betType == q.betType && p.negRisk == q.negRisk
  {
    hide Varint, PutInt, PutBool;
    var p5, q5 := PutInt(p.betType) + PutBool(p.negRisk), PutInt(q.betType) + PutBool(q.negRisk);
    var p4, q4 := PutInt(p.category) + p5, PutInt(q.category) + q5;
    var p3, q3 := PutInt(p.priceOutcome) + p4, PutInt(q.priceOutcome) + q4;
    var p2, q2 := PutInt(p.enrichmentStatus) + p3, PutInt(q.enrichmentStatus) + q3;
    var p1, q1 := PutBool(p.removed) + p2, PutBool(q.removed) + q2;
    NatPeels(p.receivedAt, q.receivedAt, p1, q1);
    BoolPeels(p.removed, q.removed, p2, q2);
    IntPeels(p.enrichmentStatus, q.enrichmentStatus, p3, q3);
    IntPeels(p.priceOutcome, q.priceOutcome, p4, q4);
    IntPeels(p.category, q.category, p5, q5);
    IntPeels(p.betType, q.betType, PutBool(p.negRisk), PutBool(q.negRisk));
    assert PutBool(p.negRisk) + [] == PutBool(q.negRisk) + [];
    BoolPeels(p.negRisk, q.negRisk, [], []);
  }

  lemma PutIsInjective(p: Proto, q: Proto)
    requires Put(p) == Put(q)
    ensures p == q
  {
    hide Varint, PutInt, PutBytes, PutNats, PutAll, PutRest;
    var p9, q9 := PutNats(p.tagIds) + PutRest(p), PutNats(q.tagIds) + PutRest(q);
    var p8, q8 := Varint(|p.tagIds|) + p9, Varint(|q.tagIds|) + q9;
    var p7, q7 := PutAll(p.tokenIds) + p8, PutAll(q.tokenIds) + q8;
    var p6, q6 := Varint(|p.tokenIds|) + p7, Varint(|q.tokenIds|) + q7;
    var p5, q5 := PutBytes(p.conditionId) + p6, PutBytes(q.conditionId) + q6;
    var p4, q4 := Varint(p.marketId) + p5, Varint(q.marketId) + q5;
    var p3, q3 := Varint(p.logIndex) + p4, Varint(q.logIndex) + q4;
    var p2, q2 := PutBytes(p.transactionHash) + p3, PutBytes(q.transactionHash) + q3;
    var p1, q1 := PutInt(p.eventType) + p2, PutInt(q.eventType) + q2;
    NatPeels(p.sequence, q.sequence, p1, q1);
    IntPeels(p.eventType, q.eventType, p2, q2);
    BytesPeel(p.transactionHash, q.transactionHash, p3, q3);
    NatPeels(p.logIndex, q.logIndex, p4, q4);
    NatPeels(p.marketId, q.marketId, p5, q5);
    BytesPeel(p.conditionId, q.conditionId, p6, q6);
    NatPeels(|p.tokenIds|, |q.tokenIds|, p7, q7);
    AllPeel(p.tokenIds, q.tokenIds, p8, q8);
    NatPeels(|p.tagIds|, |q.tagIds|, p9, q9);
    NatsPeel(p.tagIds, q.tagIds, PutRest(p), PutRest(q));
    RestPeels(p, q);
  }

  ghost function Take(b: Bytes): Option<Proto> {
    if exists p :: Put(p) == b then
      var p :| Put(p) == b;
      Some(p)
    else None
  }

  ghost function WitnessCodec(): Codec {
    Codec(Schema(1, 2, 1, 2, {0}, {0}, {0}), b => 0, p => Put(p), b => Take(b))
  }

  lemma WitnessIsCodec()
    ensures CodecOk(WitnessCodec())
  {
    hide Put;
    forall p ensures Take(Put(p)) == Some(p) {
      var q :| Put(q) == Put(p) && Take(Put(p)) == Some(q);
      PutIsInjective(p, q);
    }
  }

  // ---- An oversized record -----------------------------------------------

  function Tagged(tags: nat): EventRecord {
    EventRecord(1, Propose, ChainLog(0, Zeros(32), 0, 0, false), PriceRequest(Zeros(20), Zeros(32), Zeros(32), None, Zeros(32)),
                Some(Catalog.Market(0, Zeros(32), [], seq(tags, i => 0), 0, 0, false)), 0)
  }

  lemma {:induction false} ZeroTags(n: nat)
    ensures |PutNats(seq(n, i => 0))| == n
  {
    if n > 0 {
      ZeroTags(n - 1);
      assert seq(n, i => 0)[1..] == seq(n - 1, i => 0);
    }
  }

  lemma TaggedSize(tags: nat)
    requires tags < POW_64
    ensures tags < |Payload(WitnessCodec(), Tagged(tags))| < tags + 200
  {
    var p := ToProto(WitnessCodec().schema, Tagged(tags));
    assert p.tagIds == seq(tags, i => 0);
    ZeroTags(tags);
    U64Fits(tags);
    assert |Varint(32)| == 1 && |PutBytes(p.conditionId)| == 33 && |PutBytes(p.transactionHash)| == 33;
    hide Varint;
    SmallVarints();
  }

  lemma SmallVarints()
    ensures |Varint(0)| == |Varint(1)| == |Varint(2)| == |Varint(4)| == 1
  {
  }

  // A rewrite takes the record, and recovery finds neither it nor what follows.
  lemma RewriteLosesOversized(capacity: nat)
    ensures var c, big, small := WitnessCodec(), Tagged(0x10_0000), Tagged(0);
      && CodecOk(c) && !Small(c, big) && Small(c, small)
      && Load(c, WriteAll(c, WAL_MAGIC, [Rewrite([big, small])]), capacity) == Ok([])
  {
    var c, big, small := WitnessCodec(), Tagged(0x10_0000), Tagged(0);
    WitnessIsCodec();
    TaggedSize(0x10_0000);
    TaggedSize(0);
    hide Tagged, WitnessCodec, Payload, Put, CodecOk, Load, File;
    var ops := [Rewrite([big, small])];
    assert ops[..0] == [];
    FileHolds(c, ops);
    assert Held(c, ops) == [big, small];
    OversizedHides(c, [big, small], capacity);
  }
}

/** The journal writer and the recovery loop. */
module WalServer {
  import opened Basics
  import opened BigEndian
  import opened EventProto
  import opened Wal

  class Journal {
    const codec: Codec
    // The bytes written, flushed or not; a crash leaves a prefix of them.
    var file: Bytes
    var records: nat

    constructor (codec: Codec, existing: Bytes)
      ensures this.codec == codec && records == 0
      ensures file == if existing == [] then WAL_MAGIC else existing
    {
      this.codec := codec;
      file := if existing == [] then WAL_MAGIC else existing;
      records := 0;
    }

    method Append(r: EventRecord) returns (result: Result<(), StorageError>)
      modifies this
      ensures file == Write(codec, old(file), Op.Append(r))
      ensures result == if Small(codec, r) then Ok(()) else Err(Format)
      ensures records == old(records) + if Small(codec, r) then 1 else 0
    {
      var payload := codec.encode(ToProto(codec.schema, r));
      if |payload| > MAX_WAL_RECORD {
        return Err(Format);
      }
      file := file + ToBytes(|payload| % POW_32, 4);
      file := file + ToBytes(codec.crc(payload), 4);
      file := file + payload;
      assert file == old(file) + Framed(codec, payload);
      records := records + 1;
      result := Ok(());
    }

    method Rewrite(rs: seq<EventRecord>)
      modifies this
      ensures file == Write(codec, old(file), Op.Rewrite(rs)) && records == |rs|
    {
      var temp := WAL_MAGIC;
      for i := 0 to |rs|
        invariant temp == File(codec, rs[..i])
      {
        var payload := codec.encode(ToProto(codec.schema, rs[i]));
        assert rs[..i + 1][..i] == rs[..i];
        assert File(codec, rs[..i + 1]) == temp + Framed(codec, payload);
        temp := temp + ToBytes(|payload| % POW_32, 4) + ToBytes(codec.crc(payload), 4) + payload;
      }
      assert rs[..|rs|] == rs;
      file := temp;
      records := |rs|;
    }

    // The writer's reaction to one event: append it and, once twice the ring's
    // worth has been appended, rewrite the log from the ring's contents.
    method Handle(r: EventRecord, eventCapacity: nat, snapshot: seq<EventRecord>)
      modifies this
      ensures var appended := old(records) + if Small(codec, r) then 1 else 0;
        var compact := appended > Max(2 * eventCapacity, 2);
        && file == WriteAll(codec, old(file), [Op.Append(r)] + if compact then [Op.Rewrite(snapshot)] else [])
        && records == if compact then |snapshot| else appended
    {
      var result := Append(r);
      ghost var ops := [Op.Append(r)];
      assert ops[..0] == [] && ops + [] == ops;
      assert file == WriteAll(codec, old(file), ops);
      if records > Max(2 * eventCapacity, 2) {
        Rewrite(snapshot);
        assert (ops + [Op.Rewrite(snapshot)])[..1] == ops;
      }
    }
  }

  lemma {:induction false} LastOfSnoc<T>(s: seq<T>, x: T, n: nat)
    requires n > 0
    ensures LastOf(s + [x], n) == LastOf(LastOf(s, n) + [x], n)
  {
  }

  // `all` is everything recovered so far.
  ghost predicate SoFar(c: Codec, whole: Bytes, all: seq<EventRecord>, rest: Bytes) {
    var done := Recover(c, rest);
    Recover(c, whole) == if done.Err? then done else Ok(all + done.value)
  }

  lemma SoFarStep(c: Codec, whole: Bytes, all: seq<EventRecord>, rest: Bytes, r: EventRecord)
    requires SoFar(c, whole, all, rest) && NextRecord(c, rest).Some?
    requires var p := c.decode(NextRecord(c, rest).value.0); p.Some? && FromProto(c.schema, p.value) == Some(r)
    ensures SoFar(c, whole, all + [r], NextRecord(c, rest).value.1)
  {
    hide NextRecord, FromProto;
    var done := Recover(c, NextRecord(c, rest).value.1);
    if done.Ok? {
      assert all + ([r] + done.value) == all + [r] + done.value;
    }
  }

  lemma SoFarSkip(c: Codec, whole: Bytes, all: seq<EventRecord>, rest: Bytes)
    requires SoFar(c, whole, all, rest) && NextRecord(c, rest).Some?
    requires var p := c.decode(NextRecord(c, rest).value.0); p.Some? && FromProto(c.schema, p.value) == None
    ensures SoFar(c, whole, all, NextRecord(c, rest).value.1)
  {
  }

  lemma SoFarStop(c: Codec, whole: Bytes, all: seq<EventRecord>, rest: Bytes)
    requires SoFar(c, whole, all, rest)
    ensures NextRecord(c, rest).None? ==> Recover(c, whole) == Ok(all)
    ensures NextRecord(c, rest).Some? && c.decode(NextRecord(c, rest).value.0).None? ==> Recover(c, whole) == Err(Protobuf)
  {
    hide NextRecord;
    assert all + [] == all;
  }

  // One record at `pos`, and where it ends; none if the file ends first, the
  // length is inadmissible or the checksum does not match.
  method ReadRecord(c: Codec, file: Bytes, pos: nat) returns (payload: Option<Bytes>, end: nat)
    requires pos <= |file|
    ensures pos <= end <= |file| && (payload.Some? ==> pos < end)
    ensures NextRecord(c, file[pos..]) == if payload.Some? then Some((payload.value, file[end..])) else None
  {
    hide NextRecord, Number;
    payload, end := None, pos;
    ShortTail(c, file[pos..]);
    if pos + 4 > |file| {
      return;
    }
    NextAt(c, file, pos);
    var length := Number(file[pos..pos + 4]);
    if length > MAX_WAL_RECORD || pos + 8 > |file| {
      return;
    }
    var expected := Number(file[pos + 4..pos + 8]);
    if pos + 8 + length > |file| {
      return;
    }
    var read := file[pos + 8..pos + 8 + length];
    if c.crc(read) != expected {
      return;
    }
    payload, end := Some(read), pos + 8 + length;
  }

  method LoadEvents(c: Codec, file: Bytes, capacity: nat) returns (result: Result<seq<EventRecord>, StorageError>)
    ensures result == Load(c, file, capacity)
  {
    hide Recover, SoFar, FromProto, NextRecord;
    if |file| < 8 {
      return Err(Io);
    }
    if file[..8] != WAL_MAGIC {
      return Err(Format);
    }
    var events: seq<EventRecord> := [];
    ghost var all: seq<EventRecord> := [];
    SoFarStart(c, file[8..]);
    NoneKept<EventRecord>(Max(capacity, 1));
    var payload, pos := ReadRecord(c, file, 8);
    ghost var from := 8;
    while payload.Some?
      invariant 8 <= from <= pos <= |file|
      invariant NextRecord(c, file[from..]) == if payload.Some? then Some((payload.value, file[pos..])) else None
      invariant SoFar(c, file[8..], all, file[from..])
      invariant events == LastOf(all, Max(capacity, 1))
      decreases |file| - pos, if payload.Some? then 1 else 0
    {
      var proto := c.decode(payload.value);
      if proto.None? {
        SoFarStop(c, file[8..], all, file[from..]);
        return Err(Protobuf);
      }
      var r := FromProto(c.schema, proto.value);
      if r.Some? {
        SoFarStep(c, file[8..], all, file[from..], r.value);
        LastOfSnoc(all, r.value, Max(capacity, 1));
        all := all + [r.value];
        events := events + [r.value];
        if |events| > Max(capacity, 1) {
          events := events[1..];
        }
      } else {
        SoFarSkip(c, file[8..], all, file[from..]);
      }
      from := pos;
      payload, pos := ReadRecord(c, file, pos);
    }
    SoFarStop(c, file[8..], all, file[from..]);
    result := Ok(events);
  }

  lemma NoneKept<T>(n: nat)
    ensures LastOf<T>([], n) == []
  {
  }

  lemma ShortTail(c: Codec, s: Bytes)
    ensures |s| < 4 ==> NextRecord(c, s) == None
  {
  }

  // The next record, by its place in the file.
  lemma NextAt(c: Codec, file: Bytes, pos: nat)
    requires pos + 4 <= |file|
    ensures NextRecord(c, file[pos..]) ==
      var length := Number(file[pos..pos + 4]);
      if length > MAX_WAL_RECORD || pos + 8 + length > |file| then None
      else
        var payload := file[pos + 8..pos + 8 + length];
        if c.crc(payload) != Number(file[pos + 4..pos + 8]) then None
        else Some((payload, file[pos + 8 + length..]))
  {
    hide Number;
    var s := file[pos..];
    assert s[..4] == file[pos..pos + 4];
    var n := Number(s[..4]);
    if pos + 8 + n <= |file| {
      assert s[4..8] == file[pos + 4..pos + 8];
      assert s[8..8 + n] == file[pos + 8..pos + 8 + n];
      assert s[8 + n..] == file[pos + 8 + n..];
    }
  }

  lemma SoFarStart(c: Codec, whole: Bytes)
    ensures SoFar(c, whole, [], whole)
  {
    var done := Recover(c, whole);
    assert done.Ok? ==> [] + done.value == done.value;
  }
}
