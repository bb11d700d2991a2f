/** Reading Solidity ABI data: words of 32 bytes, and dynamic values behind an
    offset (Solidity Contract ABI Specification, section "Formal Specification
    of the Encoding"). */
module Abi {
  import opened Basics
  import opened BigEndian

  // Addition as the release build computes it on 64-bit sizes.
  function Add(a: nat, b: nat): nat {
    (a + b) % POW_64
  }

  // Rust's `get(i..j)`.
  function Get(b: Bytes, i: nat, j: nat): (r: Option<Bytes>)
    ensures r.Some? ==> i <= j && |r.value| == j - i
  {
    if i <= j <= |b| then Some(b[i..j]) else None
  }

  // The number in the word at `offset`, if it fits 64 bits.
  function UsizeAt(b: Bytes, offset: nat): (r: Option<nat>)
    ensures r.Some? ==> r.value < POW_64
  {
    var w := Get(b, offset, Add(offset, 32));
    if w.None? || |w.value| != 32 || w.value[..24] != Zeros(24) then None
    else
      NumberBound(w.value[24..]);
      Widths();
      Some(Number(w.value[24..]))
  }

  function WordAt(b: Bytes, i: nat): (r: Option<Bytes>)
    ensures r.Some? ==> |r.value| == 32
  {
    Get(b, 32 * i, 32 * i + 32)
  }

  function DynamicBytes(b: Bytes, headIndex: nat): Option<Bytes> {
    var off := UsizeAt(b, 32 * headIndex);
    if off.None? then None
    else
      var n := UsizeAt(b, off.value);
      if n.None? then None
      else
        var start := Add(off.value, 32);
        Get(b, start, Add(start, n.value))
  }

  // ---- Writing -----------------------------------------------------------

  function Word(n: nat): (w: Bytes)
    ensures |w| == 32
  {
    Zeros(24) + ToBytes(n, 8)
  }

  function PadLength(n: nat): (p: nat)
    ensures p < 32 && (n + p) % 32 == 0
  {
    (32 - n % 32) % 32
  }

  // A byte string in its place: length, contents, zeros up to a whole word.
  function Dynamic(b: Bytes): Bytes {
    Word(|b|) + b + Zeros(PadLength(|b|))
  }

  ghost predicate AllWords(ws: seq<Bytes>) {
    forall w <- ws :: |w| == 32
  }

  function Words(ws: seq<Bytes>): Bytes {
    if ws == [] then [] else Words(ws[..|ws| - 1]) + ws[|ws| - 1]
  }

  // ---- Reading what was written ------------------------------------------

  lemma {:induction false} WordsLength(ws: seq<Bytes>)
    requires AllWords(ws)
    ensures |Words(ws)| == 32 * |ws|
  {
    if ws != [] {
      WordsLength(ws[..|ws| - 1]);
      assert ws[|ws| - 1] in ws;
    }
  }

  lemma {:induction false} WordsAt(ws: seq<Bytes>, i: nat)
    requires AllWords(ws) && i < |ws|
    ensures |Words(ws)| == 32 * |ws| && Words(ws)[32 * i..32 * i + 32] == ws[i]
  {
    var n := |ws| - 1;
    WordsLength(ws);
    WordsLength(ws[..n]);
    assert ws[n] in ws;
    if i < n {
      WordsAt(ws[..n], i);
    }
  }

  lemma {:induction false} WordsConcat(a: seq<Bytes>, b: seq<Bytes>)
    ensures Words(a + b) == Words(a) + Words(b)
  {
    if b == [] {
      assert a + b == a;
    } else {
      WordsConcat(a, b[..|b| - 1]);
      assert (a + b)[..|a + b| - 1] == a + b[..|b| - 1];
    }
  }

  lemma ReadsWord(ws: seq<Bytes>, i: nat, rest: Bytes)
    requires AllWords(ws) && i < |ws|
    ensures WordAt(Words(ws) + rest, i) == Some(ws[i])
  {
    hide Words;
    WordsAt(ws, i);
    var b := Words(ws);
    assert (b + rest)[32 * i..32 * i + 32] == b[32 * i..32 * i + 32];
  }

  lemma WordIsNumber(n: nat)
    requires n < POW_64
    ensures Word(n)[..24] == Zeros(24) && Number(Word(n)[24..]) == n
  {
    Widths();
    NumberOfBytes(n, 8);
    assert Word(n)[24..] == ToBytes(n, 8);
  }

  // A number word found at `at` reads as that number.
  lemma ReadsUsize(b: Bytes, at: nat, n: nat)
    requires at + 32 <= |b| < POW_64 && n < POW_64 && b[at..at + 32] == Word(n)
    ensures UsizeAt(b, at) == Some(n)
  {
    hide Word, Number;
    WordIsNumber(n);
  }

  // A byte string written at `at` reads back whole.
  lemma ReadsDynamicAt(a: Bytes, value: Bytes, rest: Bytes)
    requires |a + Dynamic(value) + rest| < POW_64
    ensures var b := a + Dynamic(value) + rest; var at := |a|;
      && UsizeAt(b, at) == Some(|value|)
      && Add(at, 32) == at + 32 && Add(at + 32, |value|) == at + 32 + |value|
      && Get(b, at + 32, at + 32 + |value|) == Some(value)
  {
    hide Word, Number, UsizeAt;
    var b := a + Dynamic(value) + rest;
    assert b[|a|..|a| + 32] == Word(|value|);
    ReadsUsize(b, |a|, |value|);
    assert b[|a| + 32..|a| + 32 + |value|] == value;
  }

  // Head words followed by one dynamic value, to which head word `i` points.
  lemma ReadsDynamic(ws: seq<Bytes>, i: nat, value: Bytes, rest: Bytes)
    requires AllWords(ws) && i < |ws| && ws[i] == Word(32 * |ws|)
    requires |Words(ws) + Dynamic(value) + rest| < POW_64
    ensures DynamicBytes(Words(ws) + Dynamic(value) + rest, i) == Some(value)
  {
    hide Word, UsizeAt, Dynamic, Words;
    WordsAt(ws, i);
    var b := Words(ws) + Dynamic(value) + rest;
    assert b[32 * i..32 * i + 32] == Words(ws)[32 * i..32 * i + 32];
    ReadsUsize(b, 32 * i, 32 * |ws|);
    ReadsDynamicAt(Words(ws), value, rest);
  }
}

/** Oracle calls in transaction input (src/mempool/calldata.rs). Keccak-256 is
    a parameter. */
module Calldata {
  import opened Basics
  import opened BigEndian
  import opened Abi

  const SEL_PROPOSE: Bytes := [0xb8, 0xb4, 0xf9, 0x08]
  const SEL_PROPOSE_FOR: Bytes := [0x7c, 0x82, 0x28, 0x8f]
  const SEL_DISPUTE: Bytes := [0xfb, 0xa7, 0xf1, 0xe3]
  const SEL_DISPUTE_FOR: Bytes := [0x76, 0xc7, 0x82, 0x3f]
  const SEL_MULTICALL: Bytes := [0xac, 0x96, 0x50, 0xd8]

  datatype CallKind = Propose | Dispute

  datatype OracleCall = OracleCall(
    kind: CallKind, requester: Bytes, identifier: Bytes, timestamp: Bytes, ancillary: Bytes, price: Bytes,
    actor: Option<Bytes>)

  ghost predicate CallOk(c: OracleCall) {
    && |c.requester| == 20 && |c.identifier| == 32 && |c.timestamp| == 32 && |c.price| == 32
    && (c.kind == Dispute ==> c.price == Zeros(32))
    && (c.actor.Some? ==> |c.actor.value| == 20)
  }

  datatype RequestKey = RequestKey(requester: Bytes, questionId: Bytes, timestamp: nat)

  function U64Word(w: Bytes): nat
    requires |w| == 32
  {
    Number(w[24..])
  }

  function KeyOf(c: OracleCall, keccak: Bytes -> Bytes): RequestKey
    requires |c.timestamp| == 32
  {
    RequestKey(c.requester, keccak(c.ancillary), U64Word(c.timestamp))
  }

  // Which call a selector names and how many words come before its requester.
  function Selected(selector: Bytes): Option<(CallKind, nat)> {
    if selector == SEL_PROPOSE then Some((Propose, 0))
    else if selector == SEL_PROPOSE_FOR then Some((Propose, 1))
    else if selector == SEL_DISPUTE then Some((Dispute, 0))
    else if selector == SEL_DISPUTE_FOR then Some((Dispute, 1))
    else None
  }

  function DecodeArgs(kind: CallKind, o: nat, args: Bytes): Option<OracleCall> {
    var actor, requester := WordAt(args, 0), WordAt(args, o);
    var identifier, timestamp := WordAt(args, o + 1), WordAt(args, o + 2);
    var ancillary, price := DynamicBytes(args, o + 3), WordAt(args, o + 4);
    if (o == 1 && actor.None?) || requester.None? || identifier.None? || timestamp.None? || ancillary.None?
       || (kind == Propose && price.None?) then None
    else Some(OracleCall(kind, requester.value[12..], identifier.value, timestamp.value, ancillary.value,
                         if kind == Propose then price.value else Zeros(32),
                         if o == 1 then Some(actor.value[12..]) else None))
  }

  function DecodeOne(call: Bytes): Option<OracleCall> {
    if |call| < 4 then None
    else
      var s := Selected(call[..4]);
      if s.None? then None else DecodeArgs(s.value.0, s.value.1, call[4..])
  }

  function ToSeq(c: Option<OracleCall>): seq<OracleCall> {
    if c.Some? then [c.value] else []
  }

  // Entries `i` up to `n` of a multicall; a bad offset ends the list, an entry
  // that is not an oracle call is passed over.
  function Entries(args: Bytes, base: nat, i: nat, n: nat): seq<OracleCall>
    decreases n - i
  {
    if i >= n then []
    else
      var offset := UsizeAt(args, Add(base, 32 * i));
      if offset.None? then []
      else
        var at := Add(base, offset.value);
        var length := UsizeAt(args, at);
        if length.None? then []
        else
          var start := Add(at, 32);
          var entry := Get(args, start, Add(start, length.value));
          (if entry.Some? then ToSeq(DecodeOne(entry.value)) else []) + Entries(args, base, i + 1, n)
  }

  function DecodeInput(input: Bytes): seq<OracleCall> {
    if Get(input, 0, 4) == Some(SEL_MULTICALL) then
      var args := input[4..];
      var off := UsizeAt(args, 0);
      if off.None? then []
      else
        var n := UsizeAt(args, off.value);
        if n.None? then [] else Entries(args, Add(off.value, 32), 0, Min(n.value, 256))
    else ToSeq(DecodeOne(input))
  }

  // ---- The ABI encoding of calls -----------------------------------------

  function AddressWord(a: Bytes): Bytes {
    Zeros(12) + a
  }

  function Selector(c: OracleCall): Bytes {
    match (c.kind, c.actor)
    case (Propose, None) => SEL_PROPOSE
    case (Propose, Some(_)) => SEL_PROPOSE_FOR
    case (Dispute, None) => SEL_DISPUTE
    case (Dispute, Some(_)) => SEL_DISPUTE_FOR
  }

  function HeadLength(c: OracleCall): nat {
    4 + (if c.actor.Some? then 1 else 0) + if c.kind == Propose then 1 else 0
  }

  function Head(c: OracleCall): seq<Bytes> {
    (if c.actor.Some? then [AddressWord(c.actor.value)] else [])
    + [AddressWord(c.requester), c.identifier, c.timestamp, Word(32 * HeadLength(c))]
    + if c.kind == Propose then [c.price] else []
  }

  function AbiCall(c: OracleCall): Bytes {
    Selector(c) + Words(Head(c)) + Dynamic(c.ancillary)
  }

  // `bytes[]`: the offsets of the entries, then the entries.
  function Tails(entries: seq<Bytes>): Bytes {
    if entries == [] then [] else Tails(entries[..|entries| - 1]) + Dynamic(entries[|entries| - 1])
  }

  function Offsets(entries: seq<Bytes>): (ws: seq<Bytes>)
    ensures |ws| == |entries|
    ensures forall i :: 0 <= i < |ws| ==> ws[i] == Word(32 * |entries| + |Tails(entries[..i])|)
  {
    seq(|entries|, i requires 0 <= i < |entries| => Word(32 * |entries| + |Tails(entries[..i])|))
  }

  function Args(entries: seq<Bytes>): Bytes {
    Words([Word(32), Word(|entries|)] + Offsets(entries)) + Tails(entries)
  }

  function AbiMulticall(entries: seq<Bytes>): Bytes {
    SEL_MULTICALL + Args(entries)
  }

  // ---- Decoding inverts it -----------------------------------------------

  lemma DecodesArgs(c: OracleCall, rest: Bytes)
    requires CallOk(c) && |Words(Head(c)) + Dynamic(c.ancillary) + rest| < POW_64
    ensures DecodeArgs(c.kind, if c.actor.Some? then 1 else 0, Words(Head(c)) + Dynamic(c.ancillary) + rest) == Some(c)
  {
    hide Words, Word, Dynamic, DynamicBytes, WordAt;
    var ws := Head(c);
    var o := if c.actor.Some? then 1 else 0;
    var tail := Dynamic(c.ancillary) + rest;
    assert Words(ws) + Dynamic(c.ancillary) + rest == Words(ws) + tail;
    ReadsWord(ws, 0, tail);
    ReadsWord(ws, o, tail);
    ReadsWord(ws, o + 1, tail);
    ReadsWord(ws, o + 2, tail);
    ReadsDynamic(ws, o + 3, c.ancillary, rest);
    if c.kind == Propose {
      ReadsWord(ws, o + 4, tail);
    }
    assert AddressWord(c.requester)[12..] == c.requester;
    assert c.actor.Some? ==> AddressWord(c.actor.value)[12..] == c.actor.value;
  }

  // A direct call is recovered, whatever follows it.
  lemma DecodesCall(c: OracleCall, rest: Bytes)
    requires CallOk(c) && |AbiCall(c) + rest| < POW_64
    ensures DecodeOne(AbiCall(c) + rest) == Some(c) && DecodeInput(AbiCall(c) + rest) == [c]
  {
    hide Words, Dynamic, DecodeArgs, Head, Entries;
    var call := AbiCall(c) + rest;
    DecodesArgs(c, rest);
    assert call[..4] == Selector(c);
    assert call[4..] == Words(Head(c)) + Dynamic(c.ancillary) + rest;
  }

  lemma {:induction false} TailAt(entries: seq<Bytes>, i: nat)
    requires i < |entries|
    ensures exists rest :: Tails(entries) == Tails(entries[..i]) + Dynamic(entries[i]) + rest
  {
    hide Dynamic;
    var n := |entries| - 1;
    if i == n {
      assert Tails(entries) == Tails(entries[..i]) + Dynamic(entries[i]) + [];
    } else {
      TailAt(entries[..n], i);
      assert entries[..n][..i] == entries[..i];
      var rest :| Tails(entries[..n]) == Tails(entries[..i]) + Dynamic(entries[i]) + rest;
      var more := rest + Dynamic(entries[n]);
      assert Tails(entries) == Tails(entries[..i]) + Dynamic(entries[i]) + more;
    }
  }

  // Word `k` of the array's head.
  lemma HeadWord(entries: seq<Bytes>, k: nat)
    requires k < |entries| + 2
    ensures var ws := [Word(32), Word(|entries|)] + Offsets(entries);
      && AllWords(ws) && |Words(ws)| == 32 * |ws|
      && |Args(entries)| >= 32 * k + 32 && Args(entries)[32 * k..32 * k + 32] == ws[k]
  {
    hide Word, Tails, Words;
    var ws := [Word(32), Word(|entries|)] + Offsets(entries);
    WordsAt(ws, k);
    var b := Words(ws);
    assert (b + Tails(entries))[32 * k..32 * k + 32] == b[32 * k..32 * k + 32];
  }

  lemma EntryOffset(entries: seq<Bytes>, i: nat)
    requires i < |entries| && |Args(entries)| < POW_64
    ensures var offset := 32 * |entries| + |Tails(entries[..i])|;
      && Add(64, 32 * i) == 64 + 32 * i && UsizeAt(Args(entries), 64 + 32 * i) == Some(offset)
      && Add(64, offset) == 64 + offset <= |Args(entries)|
  {
    hide Word, Words, Dynamic, UsizeAt, Offsets;
    var offset := 32 * |entries| + |Tails(entries[..i])|;
    HeadWord(entries, i + 2);
    TailAt(entries, i);
    var rest :| Tails(entries) == Tails(entries[..i]) + Dynamic(entries[i]) + rest;
    ReadsUsize(Args(entries), 64 + 32 * i, offset);
  }

  // Entry `i` is found where its offset says.
  lemma EntryAt(entries: seq<Bytes>, i: nat)
    requires i < |entries| && |Args(entries)| < POW_64
    ensures var args := Args(entries); var at := 64 + 32 * |entries| + |Tails(entries[..i])|; var length := |entries[i]|;
      && UsizeAt(args, at) == Some(length) && Add(at, 32) == at + 32
      && Add(at + 32, length) == at + 32 + length && Get(args, at + 32, at + 32 + length) == Some(entries[i])
  {
    hide Word, Words, Dynamic, UsizeAt, Offsets, Tails;
    var ws := [Word(32), Word(|entries|)] + Offsets(entries);
    HeadWord(entries, 0);
    TailAt(entries, i);
    var rest :| Tails(entries) == Tails(entries[..i]) + Dynamic(entries[i]) + rest;
    var before := Words(ws) + Tails(entries[..i]);
    assert Args(entries) == before + Dynamic(entries[i]) + rest;
    ReadsDynamicAt(before, entries[i], rest);
  }

  // The oracle calls among the entries, in order.
  function OracleCalls(entries: seq<Bytes>): seq<OracleCall> {
    if entries == [] then [] else ToSeq(DecodeOne(entries[0])) + OracleCalls(entries[1..])
  }

  lemma {:induction false} EntriesAreCalls(entries: seq<Bytes>, i: nat, n: nat)
    requires i <= n <= |entries| && |Args(entries)| < POW_64
    ensures Entries(Args(entries), 64, i, n) == OracleCalls(entries[i..n])
    decreases n - i
  {
    hide Args, DecodeOne, UsizeAt, Get, Add, Tails;
    if i < n {
      EntryOffset(entries, i);
      EntryAt(entries, i);
      EntriesAreCalls(entries, i + 1, n);
      assert entries[i..n][1..] == entries[i + 1..n];
    }
  }

  // Of any multicall the first 256 entries are decoded, each as it would be on
  // its own, and the others among them are passed over.
  lemma DecodesMulticall(entries: seq<Bytes>)
    ensures |AbiMulticall(entries)| < POW_64 ==>
      DecodeInput(AbiMulticall(entries)) == OracleCalls(entries[..Min(|entries|, 256)])
  {
    if |AbiMulticall(entries)| < POW_64 {
      DecodesSizedMulticall(entries);
    }
  }

  lemma DecodesSizedMulticall(entries: seq<Bytes>)
    requires |AbiMulticall(entries)| < POW_64
    ensures DecodeInput(AbiMulticall(entries)) == OracleCalls(entries[..Min(|entries|, 256)])
  {
    hide Args, DecodeOne, UsizeAt, Words, Word, Tails, Entries, Offsets;
    var args := Args(entries);
    assert AbiMulticall(entries)[..4] == SEL_MULTICALL && AbiMulticall(entries)[4..] == args;
    HeadWord(entries, 0);
    HeadWord(entries, 1);
    HeadWord(entries, |entries| + 1);
    ReadsUsize(args, 0, 32);
    ReadsUsize(args, 32, |entries|);
    EntriesAreCalls(entries, 0, Min(|entries|, 256));
  }

  function AbiCalls(calls: seq<OracleCall>): (s: seq<Bytes>)
    ensures |s| == |calls| && forall i :: 0 <= i < |s| ==> s[i] == AbiCall(calls[i])
  {
    seq(|calls|, i requires 0 <= i < |calls| => AbiCall(calls[i]))
  }

  lemma {:induction false} OracleCallsOf(calls: seq<OracleCall>, entries: seq<Bytes>)
    requires |entries| == |calls|
    requires forall i :: 0 <= i < |calls| ==>
      CallOk(calls[i]) && entries[i] == AbiCall(calls[i]) && |entries[i]| < POW_64
    ensures OracleCalls(entries) == calls
  {
    hide AbiCall, DecodeOne, CallOk;
    if calls != [] {
      DecodesCall(calls[0], []);
      assert AbiCall(calls[0]) + [] == entries[0];
      OracleCallsOf(calls[1..], entries[1..]);
    }
  }

  lemma {:induction false} EntryIsShorter(entries: seq<Bytes>, i: nat)
    requires i < |entries|
    ensures |entries[i]| <= |Tails(entries)|
  {
    TailAt(entries, i);
  }

  // All of a multicall of calls is recovered exactly when it has at most 256.
  lemma RecoversMulticallIff(calls: seq<OracleCall>)
    requires forall c <- calls :: CallOk(c)
    ensures var input := AbiMulticall(AbiCalls(calls));
      |input| < POW_64 ==>
        && DecodeInput(input) == calls[..Min(|calls|, 256)]
        && (DecodeInput(input) == calls <==> |calls| <= 256)
  {
    hide CallOk, AbiCall, DecodeInput, Tails, OracleCalls;
    var entries := AbiCalls(calls);
    if |AbiMulticall(entries)| < POW_64 {
      var n := Min(|calls|, 256);
      DecodesMulticall(entries);
      forall i | 0 <= i < |calls| ensures |entries[i]| < POW_64 {
        EntryIsShorter(entries, i);
      }
      OracleCallsOf(calls[..n], entries[..n]);
      assert |calls| <= 256 ==> calls[..n] == calls;
    }
  }
}

/** From a pending call to the event the rest of the system sees: the synthetic
    log (src/mempool/calldata.rs), the log decoder (src/uma/events) and the
    reader of confirmed logs (src/mempool/feed.rs). Keccak-256, the validity of
    UTF-8 and the search for a market id in the ancillary text are parameters. */
module SignalLog {
  import opened Basics
  import opened BigEndian
  import opened Abi
  import opened Calldata
  import EventProto
  import Hex

  const PROPOSE_PRICE: Bytes := [
    0x6e, 0x51, 0xdd, 0x00, 0x37, 0x1a, 0xab, 0xff, 0xa8, 0x2c, 0xd4, 0x01, 0x59, 0x2f, 0x76, 0xed,
    0x51, 0xe9, 0x8a, 0x9e, 0xa4, 0xb5, 0x87, 0x51, 0xc7, 0x04, 0x63, 0xa2, 0xc7, 0x8b, 0x5c, 0xa1]

  const DISPUTE_PRICE: Bytes := [
    0x51, 0x65, 0x90, 0x9c, 0x3d, 0x1c, 0x01, 0xc5, 0xd1, 0xe1, 0x21, 0xac, 0x6f, 0x6d, 0x01, 0xdd,
    0xa1, 0xba, 0x24, 0xbc, 0x9e, 0x1f, 0x97, 0x5b, 0x5a, 0x37, 0x53, 0x39, 0xc1, 0x5b, 0xe7, 0xf3]

  const TOPIC_PROPOSE_PRICE := Hex.Prefixed(PROPOSE_PRICE)
  const TOPIC_DISPUTE_PRICE := Hex.Prefixed(DISPUTE_PRICE)

  datatype RpcLog = RpcLog(
    address: string, topics: seq<string>, data: string, blockNumber: string, transactionHash: string,
    logIndex: string, removed: bool)

  datatype DecodeError = Emitter | Topic | BadHex | BadNumber | ShortData | DynamicOffset | AncillaryUtf8 | MissingMarketId

  datatype UmaEvent = UmaEvent(kind: CallKind, chain: EventProto.ChainLog, request: EventProto.PriceRequest)

  // What the decoder takes from elsewhere.
  datatype Context = Context(keccak: Bytes -> Bytes, utf8: Bytes -> bool, marketId: Bytes -> Option<nat>)

  function Lower(c: char): char {
    if 'A' <= c <= 'Z' then c - 'A' + 'a' else c
  }

  function LowerAll(s: string): (r: string)
    ensures |r| == |s| && forall i :: 0 <= i < |s| ==> r[i] == Lower(s[i])
  {
    seq(|s|, i requires 0 <= i < |s| => Lower(s[i]))
  }

  function KindOf(topic: string): Option<CallKind> {
    if LowerAll(topic) == TOPIC_PROPOSE_PRICE then Some(Propose)
    else if LowerAll(topic) == TOPIC_DISPUTE_PRICE then Some(Dispute)
    else None
  }

  // ---- Decoding a log ----------------------------------------------------

  function DecodeFixed(s: string, n: nat): (r: Option<Bytes>)
    ensures r.Some? ==> |r.value| == n
  {
    var b := Hex.Decode(Hex.StripPrefix(s));
    if b.Some? && |b.value| == n then b else None
  }

  // adapter, question id and the number 2 as a 32-byte word
  function ConditionId(ctx: Context, requester: Bytes, questionId: Bytes): Bytes {
    ctx.keccak(requester + questionId + Zeros(31) + [2])
  }

  function DynamicWord(data: Bytes, index: nat): Result<Bytes, DecodeError>
    requires |data| >= 32 * index + 32
  {
    var w := data[32 * index..32 * index + 32];
    if w[..24] != Zeros(24) then Err(BadNumber)
    else
      var offset := Number(w[24..]);
      var length := Get(data, offset, Add(offset, 32));
      if length.None? || |length.value| != 32 || length.value[..24] != Zeros(24) then Err(DynamicOffset)
      else
        var start := Add(offset, 32);
        var b := Get(data, start, Add(start, Number(length.value[24..])));
        if b.None? then Err(DynamicOffset) else Ok(b.value)
  }

  function ParseRequest(ctx: Context, topic: string, data: Bytes): Result<EventProto.PriceRequest, DecodeError>
    requires |data| >= 128
  {
    var topicWord := DecodeFixed(topic, 32);
    if topicWord.None? then Err(BadHex)
    else
      var requester := topicWord.value[12..];
      var raw := DynamicWord(data, 2);
      if raw.Err? then Err(raw.error)
      else if !ctx.utf8(raw.value) then Err(AncillaryUtf8)
      else
        var questionId := ctx.keccak(raw.value);
        Ok(EventProto.PriceRequest(requester, ConditionId(ctx, requester, questionId), questionId,
                                   ctx.marketId(raw.value), data[96..128]))
  }

  function BuildChain(log: RpcLog, receivedAt: nat): Result<EventProto.ChainLog, DecodeError> {
    var block, hash, index := Hex.ParseU64(log.blockNumber), DecodeFixed(log.transactionHash, 32), Hex.ParseU64(log.logIndex);
    if block.None? then Err(BadNumber)
    else if hash.None? then Err(BadHex)
    else if index.None? || index.value >= POW_32 then Err(BadNumber)
    else Ok(EventProto.ChainLog(block.value, hash.value, index.value, receivedAt, log.removed))
  }

  function ParseEvent(ctx: Context, kind: CallKind, log: RpcLog, receivedAt: nat): Result<UmaEvent, DecodeError> {
    if |log.topics| < (if kind == Propose then 3 else 4) then Err(Topic)
    else
      var data := Hex.Decode(Hex.StripPrefix(log.data));
      if data.None? then Err(BadHex)
      else if |data.value| < 128 then Err(ShortData)
      else
        var chain := BuildChain(log, receivedAt);
        if chain.Err? then Err(chain.error)
        else
          var request := ParseRequest(ctx, log.topics[1], data.value);
          if request.Err? then Err(request.error) else Ok(UmaEvent(kind, chain.value, request.value))
  }

  function KindOfLog(log: RpcLog): Option<CallKind> {
    if log.topics == [] then None else KindOf(log.topics[0])
  }

  function DecodeAs(ctx: Context, kind: Option<CallKind>, log: RpcLog, receivedAt: nat, allowed: seq<Bytes>,
                    requireMarketId: bool): Result<UmaEvent, DecodeError>
  {
    var emitter := DecodeFixed(log.address, 20);
    if emitter.None? then Err(BadHex)
    else if allowed != [] && emitter.value !in allowed then Err(Emitter)
    else if kind.None? then Err(Topic)
    else
      var e := ParseEvent(ctx, kind.value, log, receivedAt);
      if e.Ok? && requireMarketId && e.value.request.marketId.GetOr(0) == 0 then Err(MissingMarketId) else e
  }

  function DecodeSignalLog(ctx: Context, log: RpcLog, receivedAt: nat, allowed: seq<Bytes>, requireMarketId: bool)
    : Result<UmaEvent, DecodeError>
  {
    DecodeAs(ctx, KindOfLog(log), log, receivedAt, allowed, requireMarketId)
  }

  function ParseConfirmed(keccak: Bytes -> Bytes, kind: CallKind, log: RpcLog): Option<(CallKind, RequestKey, Bytes)> {
    if |log.topics| < 2 then None
    else
      var topic := Hex.Decode(Hex.TrimPrefixes(log.topics[1]));
      var data := Hex.Decode(Hex.TrimPrefixes(log.data));
      if topic.None? || |topic.value| != 32 || data.None? then None
      else
        var timestamp, offset, price := WordAt(data.value, 1), WordAt(data.value, 2), WordAt(data.value, 3);
        if timestamp.None? || offset.None? || price.None? then None
        else
          var off := Number(offset.value[24..]);
          var length := Get(data.value, Add(off, 24), Add(off, 32));
          if length.None? || |length.value| != 8 then None
          else
            var start := Add(off, 32);
            var ancillary := Get(data.value, start, Add(start, Number(length.value)));
            if ancillary.None? then None
            else Some((kind, RequestKey(topic.value[12..], keccak(ancillary.value), U64Word(timestamp.value)), price.value))
  }

  function ParseOnchain(keccak: Bytes -> Bytes, log: RpcLog): Option<(CallKind, RequestKey, Bytes)> {
    var kind := KindOfLog(log);
    if kind.None? then None else ParseConfirmed(keccak, kind.value, log)
  }

  // ---- The synthetic log -------------------------------------------------

  function LogHead(c: OracleCall): seq<Bytes> {
    [c.identifier, c.timestamp, Word(32 * LogHeadLength(c)), c.price]
    + if c.kind == Propose then [Zeros(32), Zeros(32)] else []
  }

  function LogHeadLength(c: OracleCall): nat {
    if c.kind == Propose then 6 else 4
  }

  function LogData(c: OracleCall): Bytes {
    Words(LogHead(c)) + Dynamic(c.ancillary)
  }

  function TopicAddress(a: Bytes): string {
    Hex.Prefixed(AddressWord(a))
  }

  function SynthTopics(c: OracleCall, from: Bytes): (topics: seq<string>)
    ensures |topics| == if c.kind == Propose then 3 else 4
  {
    var actor := TopicAddress(c.actor.GetOr(from));
    if c.kind == Propose then [TOPIC_PROPOSE_PRICE, TopicAddress(c.requester), actor]
    else [TOPIC_DISPUTE_PRICE, TopicAddress(c.requester), TopicAddress(Zeros(20)), actor]
  }

  function SynthLog(c: OracleCall, txHash: string, index: nat, to: string, from: Bytes): RpcLog {
    RpcLog(to, SynthTopics(c, from), Hex.Prefixed(LogData(c)), "0x0", txHash, "0x" + Hex.Format(index), false)
  }

  // ---- The log says what the call said -----------------------------------

  lemma {:induction false} EncodedIsLower(b: Bytes)
    ensures LowerAll(Hex.Encode(b)) == Hex.Encode(b)
  {
    if b != [] {
      EncodedIsLower(b[1..]);
      var s, t := Hex.Encode(b), Hex.Encode(b[1..]);
      forall i | 0 <= i < |s| ensures Lower(s[i]) == s[i] {
        if i >= 2 {
          assert s[i] == t[i - 2] && LowerAll(t)[i - 2] == t[i - 2];
        }
      }
    }
  }

  lemma PrefixedIsLower(b: Bytes)
    ensures LowerAll(Hex.Prefixed(b)) == Hex.Prefixed(b)
  {
    hide Hex.Encode;
    EncodedIsLower(b);
    var s, t := Hex.Prefixed(b), Hex.Encode(b);
    forall i | 0 <= i < |s| ensures Lower(s[i]) == s[i] {
      if i >= 2 {
        assert s[i] == t[i - 2] && LowerAll(t)[i - 2] == t[i - 2];
      }
    }
  }

  // The same text, but for the case of the letters of `a`.
  predicate MatchesInAnyCase(a: string, b: string) {
    |a| == |b| && forall i :: 0 <= i < |a| ==> a[i] == b[i] || ('a' <= b[i] <= 'z' && a[i] as int + 32 == b[i] as int)
  }

  lemma LowerIs(c: char, d: char)
    requires !('A' <= d <= 'Z')
    ensures Lower(c) == d <==> c == d || ('a' <= d <= 'z' && c as int + 32 == d as int)
  {
  }

  lemma LowerAllIs(a: string, b: string)
    requires LowerAll(b) == b
    ensures LowerAll(a) == b <==> MatchesInAnyCase(a, b)
  {
    if |a| == |b| {
      forall i | 0 <= i < |a| ensures Lower(a[i]) == b[i] <==> a[i] == b[i] || ('a' <= b[i] <= 'z' && a[i] as int + 32 == b[i] as int) {
        assert Lower(b[i]) == b[i];
        LowerIs(a[i], b[i]);
      }
    }
  }

  // A log is a proposal or a dispute exactly when its first topic is the event's,
  // in whatever case.
  lemma KindOfIff(topic: string)
    ensures KindOf(topic) == Some(Propose) <==> MatchesInAnyCase(topic, TOPIC_PROPOSE_PRICE)
    ensures KindOf(topic) == Some(Dispute) <==> MatchesInAnyCase(topic, TOPIC_DISPUTE_PRICE)
  {
    hide Hex.Prefixed, LowerAll, MatchesInAnyCase;
    TopicsDiffer();
    LowerAllIs(topic, TOPIC_PROPOSE_PRICE);
    LowerAllIs(topic, TOPIC_DISPUTE_PRICE);
  }

  lemma TopicsDiffer()
    ensures TOPIC_PROPOSE_PRICE != TOPIC_DISPUTE_PRICE
    ensures LowerAll(TOPIC_PROPOSE_PRICE) == TOPIC_PROPOSE_PRICE && LowerAll(TOPIC_DISPUTE_PRICE) == TOPIC_DISPUTE_PRICE
  {
    hide Hex.Prefixed, Hex.Decode, LowerAll;
    PrefixedIsLower(PROPOSE_PRICE);
    PrefixedIsLower(DISPUTE_PRICE);
    Hex.PrefixedReadsBack(PROPOSE_PRICE);
    Hex.PrefixedReadsBack(DISPUTE_PRICE);
    assert PROPOSE_PRICE[0] != DISPUTE_PRICE[0];
  }

  lemma TopicsAreKnown()
    ensures KindOf(TOPIC_PROPOSE_PRICE) == Some(Propose) && KindOf(TOPIC_DISPUTE_PRICE) == Some(Dispute)
  {
    hide Hex.Prefixed, LowerAll;
    TopicsDiffer();
  }

  lemma LogDataReads(c: OracleCall)
    requires CallOk(c) && |LogData(c)| < POW_64
    ensures var data := LogData(c); var n := 32 * LogHeadLength(c);
      && |data| >= 128 && WordAt(data, 1) == Some(c.timestamp)
      && WordAt(data, 2) == Some(Word(n)) && WordAt(data, 3) == Some(c.price)
      && UsizeAt(data, n) == Some(|c.ancillary|) && Add(n, 32) == n + 32
      && Add(n + 32, |c.ancillary|) == n + 32 + |c.ancillary|
      && Get(data, n + 32, n + 32 + |c.ancillary|) == Some(c.ancillary)
  {
    hide Words, Word, Dynamic, WordAt, UsizeAt, Get;
    var ws := LogHead(c);
    var tail := Dynamic(c.ancillary);
    ReadsWord(ws, 1, tail);
    ReadsWord(ws, 2, tail);
    ReadsWord(ws, 3, tail);
    WordsLength(ws);
    assert Words(ws) + Dynamic(c.ancillary) + [] == LogData(c);
    ReadsDynamicAt(Words(ws), c.ancillary, []);
  }

  // `UsizeAt` in the words of the two log readers.
  lemma UsizeMeans(b: Bytes, at: nat, n: nat)
    requires at + 32 <= |b| < POW_64 && UsizeAt(b, at) == Some(n)
    ensures var w := Get(b, at, Add(at, 32));
      w.Some? && |w.value| == 32 && w.value[..24] == Zeros(24) && Number(w.value[24..]) == n
    ensures var w := Get(b, Add(at, 24), Add(at, 32)); w.Some? && |w.value| == 8 && Number(w.value) == n
  {
    hide Number;
    assert b[at..at + 32][24..] == b[at + 24..at + 32];
  }

  lemma LogAncillary(c: OracleCall)
    requires CallOk(c) && |LogData(c)| < POW_64
    ensures |LogData(c)| >= 128 && DynamicWord(LogData(c), 2) == Ok(c.ancillary) && LogData(c)[96..128] == c.price
  {
    hide Words, Word, Dynamic, UsizeAt, Number, LogData;
    var data, n := LogData(c), 32 * LogHeadLength(c);
    LogDataReads(c);
    WordIsNumber(n);
    LogLength(c);
    UsizeMeans(data, n, |c.ancillary|);
    assert data[64..96] == Word(n);
  }

  lemma LogLength(c: OracleCall)
    requires CallOk(c)
    ensures |LogData(c)| >= 32 * LogHeadLength(c) + 32
  {
    hide Words, Word;
    WordsLength(LogHead(c));
  }

  // The event a call should come to. Its condition is that of the adapter's
  // question with two outcomes: the hash of 84 bytes, the adapter's address, the
  // question id and the number 2 as a 32-byte word.
  function Expected(ctx: Context, c: OracleCall, hash: Bytes, index: nat, receivedAt: nat): UmaEvent {
    var questionId := ctx.keccak(c.ancillary);
    UmaEvent(c.kind, EventProto.ChainLog(0, hash, index, receivedAt, false),
             EventProto.PriceRequest(c.requester, ctx.keccak(c.requester + questionId + Word(2)), questionId,
                                     ctx.marketId(c.ancillary), c.price))
  }

  lemma ConditionIs(ctx: Context, requester: Bytes, questionId: Bytes)
    ensures ConditionId(ctx, requester, questionId) == ctx.keccak(requester + questionId + Word(2))
  {
    TwoIsLast(8);
    assert Word(2) == Zeros(31) + [2];
    assert requester + questionId + Zeros(31) + [2] == requester + questionId + (Zeros(31) + [2]);
  }

  lemma {:induction false} TwoIsLast(w: nat)
    requires w > 0
    ensures ToBytes(2, w) == Zeros(w - 1) + [2] && ToBytes(0, w) == Zeros(w)
  {
    if w > 1 {
      TwoIsLast(w - 1);
      assert Zeros(w) == Zeros(w - 1) + [0];
    } else {
      assert ToBytes(0, 0) == [] && ToBytes(2, 0) == [];
    }
    assert 2 / 256 == 0;
    if w > 1 {
      assert ToBytes(2, w) == ToBytes(0, w - 1) + [2];
    }
  }

  lemma TopicReadsBack(a: Bytes)
    requires |a| == 20
    ensures DecodeFixed(TopicAddress(a), 32) == Some(AddressWord(a)) && AddressWord(a)[12..] == a
    ensures Hex.Decode(Hex.TrimPrefixes(TopicAddress(a))) == Some(AddressWord(a))
  {
    Hex.PrefixedReadsBack(AddressWord(a));
  }

  // The synthetic log decodes to the call's requester, question, condition and
  // price, unless the emitter is not allowed, the ancillary data is not UTF-8
  // or a market id is demanded and absent.
  lemma SynthDecodes(ctx: Context, c: OracleCall, txHash: string, index: nat, to: string, from: Bytes,
                     receivedAt: nat, allowed: seq<Bytes>, requireMarketId: bool)
    requires CallOk(c) && |LogData(c)| < POW_64 && index < POW_32
    requires DecodeFixed(to, 20).Some? && DecodeFixed(txHash, 32).Some?
    ensures DecodeSignalLog(ctx, SynthLog(c, txHash, index, to, from), receivedAt, allowed, requireMarketId) ==
      if allowed != [] && DecodeFixed(to, 20).value !in allowed then Err(Emitter)
      else if !ctx.utf8(c.ancillary) then Err(AncillaryUtf8)
      else if requireMarketId && ctx.marketId(c.ancillary).GetOr(0) == 0 then Err(MissingMarketId)
      else Ok(Expected(ctx, c, DecodeFixed(txHash, 32).value, index, receivedAt))
  {
    hide Hex.Decode, Hex.Prefixed, Hex.StripPrefix, LogData, DecodeFixed, KindOf, Hex.ParseU64, Hex.Format, DynamicWord,
         TopicAddress, AddressWord, ConditionId, Word;
    ConditionIs(ctx, c.requester, ctx.keccak(c.ancillary));
    var log := SynthLog(c, txHash, index, to, from);
    TopicsAreKnown();
    LogAncillary(c);
    Hex.PrefixedReadsBack(LogData(c));
    TopicReadsBack(c.requester);
    Hex.FormatReadsBack(0);
    ZeroFormats();
    Hex.FormatReadsBack(index);
    assert log.blockNumber == "0x" + Hex.Format(0);
    assert BuildChain(log, receivedAt) == Ok(EventProto.ChainLog(0, DecodeFixed(txHash, 32).value, index, receivedAt, false));
  }

  lemma ZeroFormats()
    ensures Hex.Format(0) == "0"
  {
  }

  // Reading it as a confirmed log gives exactly the call's own key and price.
  lemma SynthIsConfirmedAs(keccak: Bytes -> Bytes, c: OracleCall, txHash: string, index: nat, to: string, from: Bytes)
    requires CallOk(c) && |LogData(c)| < POW_64
    ensures ParseOnchain(keccak, SynthLog(c, txHash, index, to, from)) == Some((c.kind, KeyOf(c, keccak), c.price))
  {
    hide Hex.Decode, Hex.Prefixed, Hex.TrimPrefixes, Hex.Format, LogData, KindOf, TopicAddress, AddressWord,
         Word, UsizeAt, Number, WordAt;
    TopicsAreKnown();
    LogDataReads(c);
    LogLength(c);
    WordIsNumber(32 * LogHeadLength(c));
    UsizeMeans(LogData(c), 32 * LogHeadLength(c), |c.ancillary|);
    Hex.PrefixedReadsBack(LogData(c));
    TopicReadsBack(c.requester);
  }

  // What the decoder does not look at is there too: the identifier, and in the
  // last topic whoever acted, the call's own actor before the sender. A
  // dispute's proposer is not known and left zero.
  lemma SynthNamesTheActor(c: OracleCall, from: Bytes)
    requires CallOk(c) && |from| == 20
    ensures var topics := SynthTopics(c, from);
      && DecodeFixed(topics[|topics| - 1], 32) == Some(AddressWord(if c.actor.Some? then c.actor.value else from))
      && (c.kind == Dispute ==> DecodeFixed(topics[2], 32) == Some(AddressWord(Zeros(20))))
    ensures WordAt(LogData(c), 0) == Some(c.identifier)
  {
    hide Hex.Prefixed, Hex.Encode, LogData, DecodeFixed, TopicAddress, AddressWord, WordAt;
    TopicReadsBack(c.actor.GetOr(from));
    TopicReadsBack(Zeros(20));
    IdentifierIsFirst(c);
  }

  lemma IdentifierIsFirst(c: OracleCall)
    requires CallOk(c)
    ensures WordAt(LogData(c), 0) == Some(c.identifier)
  {
    hide Words, Word, Dynamic, WordAt;
    ReadsWord(LogHead(c), 0, Dynamic(c.ancillary));
  }
}

/** The loops over a multicall's entries and over the bytes of a synthetic log. */
module CalldataReader {
  import opened Basics
  import opened BigEndian
  import opened Abi
  import opened Calldata
  import opened SignalLog

  method ReadInput(input: Bytes) returns (out: seq<OracleCall>)
    ensures out == DecodeInput(input)
  {
    hide UsizeAt, Get, DecodeOne, Add, Entries;
    out := [];
    if Get(input, 0, 4) != Some(SEL_MULTICALL) {
      return ToSeq(DecodeOne(input));
    }
    Prefix(input);
    var args := input[4..];
    var off := UsizeAt(args, 0);
    if off.None? {
      return;
    }
    var n := UsizeAt(args, off.value);
    if n.None? {
      return;
    }
    var base := Add(off.value, 32);
    var last := Min(n.value, 256);
    var i := 0;
    while i < last
      invariant 0 <= i <= last
      invariant out + Entries(args, base, i, last) == Entries(args, base, 0, last)
    {
      EntriesStep(args, base, i, last);
      var offset := UsizeAt(args, Add(base, 32 * i));
      if offset.None? {
        return;
      }
      var at := Add(base, offset.value);
      var length := UsizeAt(args, at);
      if length.None? {
        return;
      }
      var start := Add(at, 32);
      var entry := Get(args, start, Add(start, length.value));
      if entry.Some? {
        var call := DecodeOne(entry.value);
        if call.Some? {
          out := out + [call.value];
        }
      }
      i := i + 1;
    }
    EntriesStep(args, base, i, last);
  }

  lemma EntriesStep(args: Bytes, base: nat, i: nat, n: nat)
    ensures Entries(args, base, i, n) ==
      if i >= n then []
      else
        var offset := UsizeAt(args, Add(base, 32 * i));
        if offset.None? then []
        else
          var at := Add(base, offset.value);
          var length := UsizeAt(args, at);
          if length.None? then []
          else
            var start := Add(at, 32);
            var entry := Get(args, start, Add(start, length.value));
            (if entry.Some? then ToSeq(DecodeOne(entry.value)) else []) + Entries(args, base, i + 1, n)
  {
  }

  lemma Prefix(input: Bytes)
    ensures Get(input, 0, 4).Some? ==> |input| >= 4
  {
  }

  // `synth_log`'s buffer, grown field by field.
  method BuildData(c: OracleCall) returns (data: Bytes)
    requires CallOk(c) && |c.ancillary| < POW_64
    ensures data == LogData(c)
  {
    hide Word, Zeros;
    var headWords := if c.kind == Propose then 6 else 4;
    data := c.identifier;
    data := data + c.timestamp;
    data := data + Word(headWords * 32);
    data := data + c.price;
    FourWords(c.identifier, c.timestamp, Word(headWords * 32), c.price);
    ghost var ws := [c.identifier, c.timestamp, Word(headWords * 32), c.price];
    assert data == Words(ws);
    if c.kind == Propose {
      data := data + Zeros(64);
      TwoZeroWords();
      WordsConcat(ws, [Zeros(32), Zeros(32)]);
    } else {
      assert ws + [] == ws;
    }
    assert data == Words(LogHead(c));
    data := data + Word(|c.ancillary|);
    data := data + c.ancillary;
    data := data + Zeros(PadLength(|c.ancillary|));
    assert data == LogData(c);
  }

  lemma FourWords(a: Bytes, b: Bytes, c: Bytes, d: Bytes)
    ensures Words([a, b, c, d]) == a + b + c + d
  {
    var one: seq<Bytes> := [a];
    assert one[..0] == [];
    assert [a, b][..1] == one;
    assert [a, b, c][..2] == [a, b];
    assert [a, b, c, d][..3] == [a, b, c];
    assert Words(one) == a;
    assert Words([a, b]) == a + b;
    assert Words([a, b, c]) == a + b + c;
  }

  lemma TwoZeroWords()
    ensures Words([Zeros(32), Zeros(32)]) == Zeros(64)
  {
    var z := Zeros(32);
    var one: seq<Bytes> := [z];
    assert [z, z][..1] == one && one[..0] == [];
  }
}
