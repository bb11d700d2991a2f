/** The write-ahead log over crashes (src/storage.rs). Opening the log does not cut
    a torn record off, so whatever is appended afterwards lies behind it. */
module WalCrash {
  import opened Basics
  import opened BigEndian
  import opened EventProto
  import opened Wal

  // A crash leaves the first `n` bytes behind the magic.
  datatype Act = Do(op: Op) | Crash(n: nat)

  function FileAfter(c: Codec, acts: seq<Act>): (file: Bytes)
    ensures |file| >= 8
  {
    if acts == [] then WAL_MAGIC
    else
      var before := FileAfter(c, acts[..|acts| - 1]);
      match acts[|acts| - 1]
      case Do(op) => Write(c, before, op)
      case Crash(n) => if 8 + n < |before| then before[..8 + n] else before
  }

  // The whole records at the front of the log, and what lies behind a tear.
  datatype Disk = Disk(held: seq<EventRecord>, tail: Bytes)

  // How many records lie whole within the first `n` bytes.
  function Whole(c: Codec, records: seq<EventRecord>, n: nat): (k: nat)
    ensures k <= |records|
  {
    if records == [] then 0
    else
      var size := |Framed(c, Payload(c, records[0]))|;
      if size <= n then 1 + Whole(c, records[1..], n - size) else 0
  }

  lemma {:induction false} WholeIsPrefix(c: Codec, records: seq<EventRecord>, n: nat)
    ensures var k := Whole(c, records, n);
      && |Log(c, records[..k])| <= n && Log(c, records[..k]) <= Log(c, records)
      && (k < |records| ==> |Log(c, records[..k + 1])| > n)
  {
    hide Framed, Payload, Log;
    EmptyLog(c);
    var k := Whole(c, records, n);
    if records != [] {
      var first := Framed(c, Payload(c, records[0]));
      LogCons(c, records);
      LogCons(c, records[..1]);
      if k > 0 {
        WholeIsPrefix(c, records[1..], n - |first|);
        LogCons(c, records[..k]);
        assert records[..k][1..] == records[1..][..k - 1];
        if k < |records| {
          LogCons(c, records[..k + 1]);
          assert records[..k + 1][1..] == records[1..][..k];
        }
      }
    }
  }

  function Cut(c: Codec, d: Disk, n: nat): Disk {
    var size := |Log(c, d.held)|;
    if n >= size then d.(tail := d.tail[..Min(n - size, |d.tail|)])
    else
      var k := Whole(c, d.held, n);
      WholeIsPrefix(c, d.held, n);
      Disk(d.held[..k], Log(c, d.held)[|Log(c, d.held[..k])|..n])
  }

  // An append goes to the end of the file, wherever that is; a rewrite replaces
  // the file.
  function After(c: Codec, acts: seq<Act>): Disk {
    if acts == [] then Disk([], [])
    else
      var d := After(c, acts[..|acts| - 1]);
      match acts[|acts| - 1]
      case Crash(n) => Cut(c, d, n)
      case Do(Rewrite(rs)) => Disk(rs, [])
      case Do(Append(r)) =>
        if !Small(c, r) then d
        else if d.tail == [] then d.(held := d.held + [r])
        else d.(tail := d.tail + Framed(c, Payload(c, r)))
  }

  function BytesOf(c: Codec, d: Disk): Bytes {
    WAL_MAGIC + (Log(c, d.held) + d.tail)
  }

  lemma CutBytes(c: Codec, d: Disk, n: nat)
    ensures var file := BytesOf(c, d);
      BytesOf(c, Cut(c, d, n)) == if 8 + n < |file| then file[..8 + n] else file
  {
    hide Log, Whole;
    var log := Log(c, d.held);
    if n >= |log| {
      var m := Min(n - |log|, |d.tail|);
      assert (WAL_MAGIC + (log + d.tail))[..8 + |log| + m] == WAL_MAGIC + (log + d.tail[..m]);
      assert d.tail[..|d.tail|] == d.tail;
    } else {
      var k := Whole(c, d.held, n);
      WholeIsPrefix(c, d.held, n);
      var front := Log(c, d.held[..k]);
      assert front == log[..|front|];
      assert front + log[|front|..n] == log[..n];
      assert (WAL_MAGIC + (log + d.tail))[..8 + n] == WAL_MAGIC + log[..n];
    }
  }

  lemma AppendBytes(c: Codec, d: Disk, r: EventRecord)
    ensures d.tail == [] ==> BytesOf(c, d.(held := d.held + [r])) == BytesOf(c, d) + Framed(c, Payload(c, r))
    ensures BytesOf(c, d.(tail := d.tail + Framed(c, Payload(c, r)))) == BytesOf(c, d) + Framed(c, Payload(c, r))
  {
    hide Framed, Payload;
    var more := Framed(c, Payload(c, r));
    assert (d.held + [r])[..|d.held|] == d.held;
    assert WAL_MAGIC + (Log(c, d.held) + d.tail) + more == WAL_MAGIC + (Log(c, d.held) + (d.tail + more));
    assert d.tail == [] ==> Log(c, d.held) + d.tail + more == (Log(c, d.held) + more) + [];
  }

  // Whatever is written, rewritten and torn, the file is the whole records and
  // what lies behind the tear.
  lemma {:induction false} FileIs(c: Codec, acts: seq<Act>)
    ensures FileAfter(c, acts) == BytesOf(c, After(c, acts))
  {
    hide Framed, Payload, Small, Cut, Log;
    if acts == [] {
      EmptyLog(c);
    } else {
      var d := After(c, acts[..|acts| - 1]);
      FileIs(c, acts[..|acts| - 1]);
      match acts[|acts| - 1]
      case Crash(n) => CutBytes(c, d, n);
      case Do(Rewrite(rs)) => assert Log(c, rs) + [] == Log(c, rs);
      case Do(Append(r)) => AppendBytes(c, d, r);
    }
  }

  // ---- Recovery ----------------------------------------------------------

  // What stands there looks like a record: its length is admissible, that many
  // bytes are there, and their checksum is the one that stands before them.
  ghost predicate Passes(c: Codec, s: Bytes) {
    && |s| >= 8 && Number(s[..4]) <= MAX_WAL_RECORD && |s| >= 8 + Number(s[..4])
    && c.crc(s[8..8 + Number(s[..4])]) == Number(s[4..8])
  }

  lemma PassesIsNext(c: Codec, s: Bytes)
    ensures Passes(c, s) <==> NextRecord(c, s).Some?
  {
    hide Number;
  }

  // The records before the first oversized one.
  function Readable(c: Codec, records: seq<EventRecord>): nat {
    if records == [] || !Small(c, records[0]) then 0 else 1 + Readable(c, records[1..])
  }

  lemma {:induction false} ReadableIff(c: Codec, records: seq<EventRecord>)
    ensures var k := Readable(c, records);
      && k <= |records| && (forall i :: 0 <= i < k ==> Small(c, records[i])) && (k < |records| ==> !Small(c, records[k]))
  {
    hide Small;
    if records != [] && Small(c, records[0]) {
      ReadableIff(c, records[1..]);
      assert forall i :: 0 < i < |records| ==> records[i] == records[1..][i - 1];
    }
  }

  function Followed(records: seq<EventRecord>, rest: Result<seq<EventRecord>, StorageError>): Result<seq<EventRecord>, StorageError> {
    if rest.Err? then rest else Ok(records + rest.value)
  }

  // Recovery reads the whole records up to the first oversized one, and goes on
  // behind them if there is none.
  lemma {:induction false} RecoverBehind(c: Codec, records: seq<EventRecord>, tail: Bytes)
    requires CodecOk(c) && forall r <- records :: Storable(c, r)
    ensures Readable(c, records) <= |records|
    ensures Recover(c, Log(c, records) + tail) ==
      if Readable(c, records) < |records| then Ok(AllRemembered(records[..Readable(c, records)]))
      else Followed(AllRemembered(records), Recover(c, tail))
  {
    hide Framed, Payload, ToProto, FromProto, NextRecord, CodecOk, RecordOk, Storable, Log, Remembered, Small, Recover;
    if records == [] {
      EmptyLog(c);
      assert [] + tail == tail;
      assert Recover(c, tail).Ok? ==> AllRemembered([]) + Recover(c, tail).value == Recover(c, tail).value;
    } else {
      var first, rest := Framed(c, Payload(c, records[0])), Log(c, records[1..]) + tail;
      LogCons(c, records);
      assert Log(c, records) + tail == first + rest;
      SmallMeans(c, records[0]);
      NextIsFirst(c, Payload(c, records[0]), rest);
      if Small(c, records[0]) {
        RecoverBehind(c, records[1..], tail);
        RecoverStep(c, records[0], first + rest, rest);
        var k := Readable(c, records);
        assert records[..k] == [records[0]] + records[1..][..k - 1];
        assert AllRemembered(records[..k]) == [Remembered(records[0])] + AllRemembered(records[1..][..k - 1]);
        assert AllRemembered(records) == [Remembered(records[0])] + AllRemembered(records[1..]);
        if Recover(c, tail).Ok? {
          var head, mid, last := [Remembered(records[0])], AllRemembered(records[1..]), Recover(c, tail).value;
          assert head + (mid + last) == (head + mid) + last;
        }
      } else {
        NothingFound(c, first + rest);
      }
    }
  }

  lemma NothingFound(c: Codec, s: Bytes)
    requires NextRecord(c, s) == None
    ensures Recover(c, s) == Ok([])
  {
  }

  function Newest(all: Result<seq<EventRecord>, StorageError>, capacity: nat): Result<seq<EventRecord>, StorageError> {
    if all.Err? then all else Ok(LastOf(all.value, Max(capacity, 1)))
  }

  // After any appends, rewrites and crashes, recovery returns the newest of the
  // whole records before the tear, up to the first oversized one, unless what
  // lies behind the tear passes for a record by its checksum; then it goes on
  // with what that gives.
  lemma RecoversOverCrashes(c: Codec, acts: seq<Act>, capacity: nat)
    requires CodecOk(c) && forall r <- After(c, acts).held :: Storable(c, r)
    ensures Readable(c, After(c, acts).held) <= |After(c, acts).held|
    ensures var d, k := After(c, acts), Readable(c, After(c, acts).held);
      var loaded := Load(c, FileAfter(c, acts), capacity);
      if k < |d.held| || !Passes(c, d.tail) then loaded == Ok(AllRemembered(LastOf(d.held[..k], Max(capacity, 1))))
      else loaded == Newest(Followed(AllRemembered(d.held), Recover(c, d.tail)), capacity)
  {
    hide Recover, Log, After, FileAfter, Readable, CodecOk, Storable, Passes, Remembered;
    var d, k := After(c, acts), Readable(c, After(c, acts).held);
    FileIs(c, acts);
    var file := FileAfter(c, acts);
    assert file[..8] == WAL_MAGIC && file[8..] == Log(c, d.held) + d.tail;
    RecoverBehind(c, d.held, d.tail);
    NewestRemembered(d.held[..k], Max(capacity, 1));
    if !Passes(c, d.tail) {
      PassesIsNext(c, d.tail);
      NothingFound(c, d.tail);
      assert k == |d.held| ==> d.held[..k] == d.held && AllRemembered(d.held) + [] == AllRemembered(d.held);
    }
  }

  lemma NothingDoesNotPass(c: Codec)
    ensures !Passes(c, [])
  {
  }

  // A crash between two records tears nothing.
  lemma CleanCrash(c: Codec, acts: seq<Act>, k: nat)
    requires After(c, acts).tail == [] && k <= |After(c, acts).held|
    ensures After(c, acts + [Crash(|Log(c, After(c, acts).held[..k])|)]) == Disk(After(c, acts).held[..k], [])
  {
    hide Log, Whole;
    var d := After(c, acts);
    var n := |Log(c, d.held[..k])|;
    assert (acts + [Crash(n)])[..|acts|] == acts;
    if n < |Log(c, d.held)| {
      WholeAt(c, d.held, k);
    } else {
      WholeAt(c, d.held, k);
      WholeAt(c, d.held, |d.held|);
      PrefixIsNotLonger(c, d.held, k);
      assert d.held[..|d.held|] == d.held;
    }
  }

  lemma {:induction false} WholeAt(c: Codec, records: seq<EventRecord>, k: nat)
    requires k <= |records|
    ensures Whole(c, records, |Log(c, records[..k])|) == k
  {
    hide Framed, Payload, Log;
    EmptyLog(c);
    if records != [] {
      FramedIsLong(c, records[0]);
      if k > 0 {
        LogCons(c, records[..k]);
        assert records[..k][1..] == records[1..][..k - 1];
        WholeAt(c, records[1..], k - 1);
      }
    }
  }

  lemma FramedIsLong(c: Codec, r: EventRecord)
    ensures |Framed(c, Payload(c, r))| >= 8
  {
    Widths();
  }

  // An appended record can be recovered exactly when there is no torn record
  // before it, up to the checksum.
  lemma AppendIsRecoveredIff(c: Codec, acts: seq<Act>, r: EventRecord, capacity: nat)
    requires CodecOk(c) && Storable(c, r) && Small(c, r) && |After(c, acts).held| < capacity
    requires forall x <- After(c, acts).held :: Storable(c, x) && Small(c, x)
    requires After(c, acts).tail != [] ==> !Passes(c, After(c, acts).tail + Framed(c, Payload(c, r)))
    ensures var held, file := After(c, acts).held, FileAfter(c, acts + [Do(Append(r))]);
      Load(c, file, capacity) == Ok(AllRemembered(held + [r])) <==> After(c, acts).tail == []
  {
    hide Framed, Payload, Log, FileAfter, Storable, CodecOk, Load, Passes, Small;
    var d, acts' := After(c, acts), acts + [Do(Append(r))];
    assert acts'[..|acts|] == acts;
    var d' := After(c, acts');
    NothingDoesNotPass(c);
    ReadableIff(c, d'.held);
    RecoversOverCrashes(c, acts', capacity);
    assert d'.held[..|d'.held|] == d'.held;
  }

  // Bytes that fall short of what the torn record's header announces do not pass.
  lemma ShortDoesNotPass(c: Codec, payload: Bytes, m: nat, more: Bytes)
    requires |payload| < POW_32 && 4 <= m <= |Framed(c, payload)| && m + |more| < 8 + |payload|
    ensures !Passes(c, Framed(c, payload)[..m] + more)
  {
    hide ToBytes, Number, Pow256;
    var s := Framed(c, payload)[..m] + more;
    Widths();
    NumberOfBytes(|payload|, 4);
    assert s[..4] == ToBytes(|payload|, 4);
  }
}

/** A run in which a record is appended behind a torn one and is lost. */
module WalCrashWitness {
  import opened Basics
  import opened BigEndian
  import opened EventProto
  import opened Wal
  import opened WalWitness
  import opened WalCrash

  lemma TornHides(c: Codec, big: EventRecord, small: EventRecord, capacity: nat)
    requires CodecOk(c) && Small(c, big) && Small(c, small) && 8 + |Payload(c, small)| < |Payload(c, big)|
    ensures Load(c, FileAfter(c, [Do(Append(big)), Crash(8), Do(Append(small))]), capacity) == Ok([])
  {
    hide CodecOk, Payload, Log, FileAfter, Whole, Number, Passes, Small, ToBytes;
    var acts := [Do(Append(big)), Crash(8), Do(Append(small))];
    var frame := Framed(c, Payload(c, big));
    SmallMeans(c, big);
    SmallMeans(c, small);
    assert acts[..2] == [Do(Append(big)), Crash(8)] && acts[..2][..1] == [Do(Append(big))] && acts[..1][..0] == [];
    assert acts[..2][1] == Crash(8) && acts[..1][0] == Do(Append(big));
    TornHeader(c, big);
    var d := After(c, acts);
    assert After(c, acts[..1]) == Disk([big], []);
    assert After(c, acts[..2]) == Disk([], frame[..8]);
    assert d == Disk([], frame[..8] + Framed(c, Payload(c, small)));
    Widths();
    ShortDoesNotPass(c, Payload(c, big), 8, Framed(c, Payload(c, small)));
    RecoversOverCrashes(c, acts, capacity);
  }

  // Eight bytes of a single record survive: its header.
  lemma TornHeader(c: Codec, r: EventRecord)
    requires |Payload(c, r)| > 0
    ensures |Framed(c, Payload(c, r))| > 8 && Cut(c, Disk([r], []), 8) == Disk([], Framed(c, Payload(c, r))[..8])
  {
    hide Payload, ToBytes, Log;
    Widths();
    EmptyLog(c);
    LogCons(c, [r]);
    assert [r][1..] == [] && [r][..0] == [];
    assert Framed(c, Payload(c, r)) + [] == Framed(c, Payload(c, r));
  }

  // A record of 300 tags is torn behind its header, and one without tags is
  // appended and cannot be recovered.
  lemma AppendBehindTearIsLost(capacity: nat)
    ensures var c, big, small := WitnessCodec(), Tagged(300), Tagged(0);
      && CodecOk(c) && Small(c, big) && Small(c, small)
      && Load(c, FileAfter(c, [Do(Append(big)), Crash(8), Do(Append(small))]), capacity) == Ok([])
  {
    WitnessIsCodec();
    TaggedSize(300);
    TaggedSize(0);
    hide Tagged, WitnessCodec, Payload, Put, CodecOk, Load, FileAfter;
    TornHides(WitnessCodec(), Tagged(300), Tagged(0), capacity);
  }
}
