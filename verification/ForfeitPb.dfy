/** The schema-driven protobuf codec of the forfeit feed
    (tools/forfeit-feed/forfeit_pb.py). Text is held as its UTF-8 bytes; which
    byte strings are valid UTF-8 is a parameter. */
module SchemaPb {
  import opened Basics
  import opened ProtoWire

  // Unsigned integers and enumerations share one treatment.
  datatype Kind = Int | Bool | Text | Binary | Message(name: string)

  datatype FieldDef = FieldDef(name: string, no: nat, kind: Kind, repeated: bool)

  // Each message's fields, in ascending order of number.
  type Table = map<string, seq<FieldDef>>

  datatype Value =
    | Nil
    | Num(n: int)
    | Truth(b: bool)
    | Str(bytes: Bytes)
    | Bin(bytes: Bytes)
    | Msg(fields: map<string, Value>)
    | Rep(items: seq<Value>)

  datatype DecodeError = IndexError | ValueError | UnicodeError

  ghost predicate TableOk(t: Table) {
    forall m <- t :: DefsOk(t, t[m])
  }

  ghost predicate DefsOk(t: Table, defs: seq<FieldDef>) {
    && (forall d <- defs :: 1 <= d.no && d.no * 8 + 7 < POW_64 && (d.kind.Message? ==> d.kind.name in t))
    && (forall i, j :: 0 <= i < j < |defs| ==> defs[i].no < defs[j].no && defs[i].name != defs[j].name)
  }

  // A reader's table: fewer fields, none changed.
  ghost predicate SubTable(sub: Table, t: Table) {
    forall m <- sub :: m in t && forall d <- sub[m] :: d in t[m]
  }

  // ---- Messages of a type ------------------------------------------------

  ghost predicate Typed(t: Table, utf8: Bytes -> bool, name: string, v: Value)
    requires TableOk(t) && name in t
    decreases v, 1
  {
    v.Msg? && forall d <- t[name] :: d.name in v.fields ==> TypedField(t, utf8, d, v.fields[d.name])
  }

  ghost predicate TypedField(t: Table, utf8: Bytes -> bool, d: FieldDef, v: Value)
    requires TableOk(t) && (d.kind.Message? ==> d.kind.name in t)
    decreases v, 3
  {
    if v.Nil? then true
    else if d.repeated then v.Rep? && forall x <- v.items :: TypedItem(t, utf8, d, x)
    else TypedItem(t, utf8, d, v)
  }

  ghost predicate TypedItem(t: Table, utf8: Bytes -> bool, d: FieldDef, v: Value)
    requires TableOk(t) && (d.kind.Message? ==> d.kind.name in t)
    decreases v, 2
  {
    match d.kind
    case Int => v.Num? || v.Truth?
    case Bool => v.Num? || v.Truth?
    case Text => v.Str? && utf8(v.bytes)
    case Binary => v.Bin?
    case Message(name) => Typed(t, utf8, name, v)
  }

  // ---- Encoding ----------------------------------------------------------

  function IntOf(v: Value): int
    requires v.Num? || v.Truth?
  {
    if v.Num? then v.n else if v.b then 1 else 0
  }

  function Get(v: Value, name: string): (x: Value)
    requires v.Msg?
    ensures x.Nil? || (name in v.fields && x == v.fields[name])
  {
    if name in v.fields then v.fields[name] else Nil
  }

  // Left out of the encoding: zero and the empty string, but never a message.
  predicate IsDefault(kind: Kind, v: Value) {
    if kind.Int? || kind.Bool? then (v.Num? || v.Truth?) && IntOf(v) == 0
    else (v.Str? || v.Bin?) && v.bytes == []
  }

  ghost function Tokens(t: Table, utf8: Bytes -> bool, name: string, v: Value): seq<Field>
    requires TableOk(t) && name in t && Typed(t, utf8, name, v)
    decreases v, 2, 0
  {
    TokensOf(t, utf8, name, t[name], v)
  }

  ghost function TokensOf(t: Table, utf8: Bytes -> bool, name: string, defs: seq<FieldDef>, v: Value): seq<Field>
    requires TableOk(t) && name in t && Typed(t, utf8, name, v) && forall d <- defs :: d in t[name]
    decreases v, 1, |defs|
  {
    if defs == [] then []
    else FieldTokens(t, utf8, name, defs[0], v) + TokensOf(t, utf8, name, defs[1..], v)
  }

  ghost function FieldTokens(t: Table, utf8: Bytes -> bool, name: string, d: FieldDef, v: Value): seq<Field>
    requires TableOk(t) && name in t && Typed(t, utf8, name, v) && d in t[name]
    decreases v, 0, 0
  {
    var x := Get(v, d.name);
    if x.Nil? then []
    else
      assert TypedField(t, utf8, d, x);
      if d.repeated then ItemTokens(t, utf8, d, x, 0)
      else if IsDefault(d.kind, x) then []
      else [ItemToken(t, utf8, d, x)]
  }

  // Of typed values these four are left out.
  lemma DefaultIs(t: Table, utf8: Bytes -> bool, name: string, d: FieldDef, v: Value)
    requires TableOk(t) && name in t && Typed(t, utf8, name, v) && d in t[name] && !d.repeated && !Get(v, d.name).Nil?
    ensures var x := Get(v, d.name);
      IsDefault(d.kind, x) <==> x == Num(0) || x == Truth(false) || x == Str([]) || x == Bin([])
  {
    var x := Get(v, d.name);
    assert TypedField(t, utf8, d, x);
  }

  ghost function ItemTokens(t: Table, utf8: Bytes -> bool, d: FieldDef, x: Value, i: nat): seq<Field>
    requires TableOk(t) && (d.kind.Message? ==> d.kind.name in t) && x.Rep? && i <= |x.items|
    requires forall y <- x.items :: TypedItem(t, utf8, d, y)
    decreases x, 4, |x.items| - i
  {
    if i == |x.items| then []
    else [ItemToken(t, utf8, d, x.items[i])] + ItemTokens(t, utf8, d, x, i + 1)
  }

  ghost function ItemToken(t: Table, utf8: Bytes -> bool, d: FieldDef, x: Value): Field
    requires TableOk(t) && (d.kind.Message? ==> d.kind.name in t) && TypedItem(t, utf8, d, x)
    decreases x, 3, 0
  {
    match d.kind
    case Int => VarintField(d.no, IntOf(x) % POW_64)
    case Bool => VarintField(d.no, IntOf(x) % POW_64)
    case Text => LenField(d.no, x.bytes)
    case Binary => LenField(d.no, x.bytes)
    case Message(name) => LenField(d.no, EncodeFields(Tokens(t, utf8, name, x)))
  }

  ghost function Encode(t: Table, utf8: Bytes -> bool, name: string, v: Value): Bytes
    requires TableOk(t) && name in t && Typed(t, utf8, name, v)
  {
    EncodeFields(Tokens(t, utf8, name, v))
  }

  // ---- Decoding ----------------------------------------------------------

  function Slice(s: Bytes, n: nat): (r: (Bytes, Bytes))
    ensures |r.0| <= n && |r.0| + |r.1| == |s|
  {
    if n <= |s| then (s[..n], s[n..]) else (s, [])
  }

  // A field cut short by the end of the buffer is taken as far as it goes.
  function TakeBody(s: Bytes, no: nat, wire: nat): (r: Result<(Field, Bytes), DecodeError>)
    ensures r.Ok? ==> |r.value.1| <= |s| && (!r.value.0.VarintField? ==> |r.value.0.bytes| <= |s|)
  {
    match wire
    case 0 =>
      var v := Read(s);
      if v.None? then Err(IndexError) else Ok((VarintField(no, v.value.0), s[v.value.1..]))
    case 1 => var p := Slice(s, 8); Ok((Fixed64(no, p.0), p.1))
    case 2 =>
      var n := Read(s);
      if n.None? then Err(IndexError)
      else var p := Slice(s[n.value.1..], n.value.0); Ok((LenField(no, p.0), p.1))
    case 5 => var p := Slice(s, 4); Ok((Fixed32(no, p.0), p.1))
    case _ => Err(ValueError)
  }

  function TakeField(s: Bytes): (r: Result<(Field, Bytes), DecodeError>)
    ensures r.Ok? ==> |r.value.1| < |s| && (!r.value.0.VarintField? ==> |r.value.0.bytes| < |s|)
  {
    var k := Read(s);
    if k.None? then Err(IndexError) else TakeBody(s[k.value.1..], k.value.0 / 8, k.value.0 % 8)
  }

  function Find(defs: seq<FieldDef>, no: nat): (r: Option<FieldDef>)
    ensures r.Some? ==> r.value in defs && r.value.no == no
    ensures r.None? ==> forall d <- defs :: d.no != no
  {
    if defs == [] then None
    else if defs[0].no == no then Some(defs[0])
    else Find(defs[1..], no)
  }

  // Every repeated field starts out as an empty list.
  function Blank(defs: seq<FieldDef>): map<string, Value> {
    if defs == [] then map[]
    else
      var d := defs[|defs| - 1];
      var before := Blank(defs[..|defs| - 1]);
      if d.repeated then before[d.name := Rep([])] else before
  }

  function Put(out: map<string, Value>, d: FieldDef, v: Value): map<string, Value> {
    if !d.repeated then out[d.name := v]
    else if d.name in out && out[d.name].Rep? then out[d.name := Rep(out[d.name].items + [v])]
    else out
  }

  // What a number in the place of a message decodes to: Python makes that many
  // zero bytes of it, which read as pairs of an unknown field and its value.
  function FromZeros(t: Table, name: string, n: nat): Result<Value, DecodeError>
    requires name in t
  {
    if n % 2 == 0 then Ok(Msg(Blank(t[name]))) else Err(IndexError)
  }

  ghost function Convert(t: Table, utf8: Bytes -> bool, kind: Kind, f: Field): Result<Value, DecodeError>
    requires TableOk(t) && (kind.Message? ==> kind.name in t)
    decreases if f.VarintField? then 0 else |f.bytes|, 2
  {
    match kind
    case Int => Ok(if f.VarintField? then Num(f.value) else Bin(f.bytes))
    case Bool => Ok(Truth(if f.VarintField? then f.value != 0 else f.bytes != []))
    case Text =>
      var b := if f.VarintField? then Zeros(f.value) else f.bytes;
      if utf8(b) then Ok(Str(b)) else Err(UnicodeError)
    case Binary => Ok(Bin(if f.VarintField? then Zeros(f.value) else f.bytes))
    case Message(name) => if f.VarintField? then FromZeros(t, name, f.value) else Decode(t, utf8, name, f.bytes)
  }

  ghost function Decode(t: Table, utf8: Bytes -> bool, name: string, s: Bytes): Result<Value, DecodeError>
    requires TableOk(t) && name in t
    decreases |s|, 1
  {
    DecodeOnto(t, utf8, name, s, Blank(t[name]))
  }

  ghost function DecodeOnto(t: Table, utf8: Bytes -> bool, name: string, s: Bytes, out: map<string, Value>)
    : Result<Value, DecodeError>
    requires TableOk(t) && name in t
    decreases |s|, 0
  {
    if s == [] then Ok(Msg(out))
    else
      var f := TakeField(s);
      if f.Err? then Err(f.error)
      else
        var d := Find(t[name], f.value.0.no);
        if d.None? then DecodeOnto(t, utf8, name, f.value.1, out)
        else
          var v := Convert(t, utf8, d.value.kind, f.value.0);
          if v.Err? then v else DecodeOnto(t, utf8, name, f.value.1, Put(out, d.value, v.value))
  }

  // ---- What a reader should see ------------------------------------------

  // A field as its reader sees it, if it sees it at all: integers modulo 2^64,
  // lists whole, messages as far as the reader's own table goes.
  ghost function Entry(t: Table, d: FieldDef, x: Value): Option<Value>
    requires TableOk(t) && (d.kind.Message? ==> d.kind.name in t)
    decreases x, 4, 0
  {
    if d.repeated then Some(Rep(if x.Rep? then NormItems(t, d, x, |x.items|) else []))
    else if x.Nil? || x == Num(0) || x == Truth(false) || x == Str([]) || x == Bin([]) then None
    else Some(Norm(t, d, x))
  }

  ghost function NormItems(t: Table, d: FieldDef, x: Value, n: nat): seq<Value>
    requires TableOk(t) && (d.kind.Message? ==> d.kind.name in t) && x.Rep? && n <= |x.items|
    decreases x, 3, n
  {
    if n == 0 then [] else NormItems(t, d, x, n - 1) + [Norm(t, d, x.items[n - 1])]
  }

  ghost function Norm(t: Table, d: FieldDef, x: Value): Value
    requires TableOk(t) && (d.kind.Message? ==> d.kind.name in t)
    decreases x, 2, 0
  {
    if d.kind.Message? then if x.Msg? then Msg(Project(t, d.kind.name, x)) else Nil
    else if (d.kind.Int? || d.kind.Bool?) && (x.Num? || x.Truth?) then
      var n := IntOf(x) % POW_64;
      if d.kind.Int? then Num(n) else Truth(n != 0)
    else x
  }

  ghost function Project(t: Table, name: string, v: Value): map<string, Value>
    requires TableOk(t) && name in t && v.Msg?
    decreases v, 1, 0
  {
    ProjectOf(t, name, t[name], v)
  }

  ghost function ProjectOf(t: Table, name: string, defs: seq<FieldDef>, v: Value): map<string, Value>
    requires TableOk(t) && name in t && v.Msg? && forall d <- defs :: d in t[name]
    decreases v, 0, |defs|
  {
    if defs == [] then map[]
    else
      var d := defs[|defs| - 1];
      var before := ProjectOf(t, name, defs[..|defs| - 1], v);
      SetTo(before, d.name, EntryOf(t, name, d, v))
  }

  ghost function EntryOf(t: Table, name: string, d: FieldDef, v: Value): Option<Value>
    requires TableOk(t) && name in t && v.Msg? && d in t[name]
    decreases v, 0, 0
  {
    var x := Get(v, d.name);
    if x.Nil? then if d.repeated then Some(Rep([])) else None else Entry(t, d, x)
  }

  function SetTo(m: map<string, Value>, k: string, e: Option<Value>): map<string, Value> {
    if e.Some? then m[k := e.value] else m
  }

  function Lookup(m: map<string, Value>, k: string): Option<Value> {
    if k in m then Some(m[k]) else None
  }

  // ---- Reading back one field --------------------------------------------

  lemma TakesField(f: Field, rest: Bytes)
    requires f.VarintField? || f.LenField?
    ensures TakeField(EncodeField(f) + rest) == Ok((f, rest))
  {
    hide Varint, Read;
    var key := f.no * 8 + f.WireType();
    var s := EncodeField(f) + rest;
    assert s == Varint(key) + (f.Body() + rest);
    ReadOfVarint(key, f.Body() + rest);
    assert s[|Varint(key)|..] == f.Body() + rest;
    KeySplits(f);
    match f
    case VarintField(_, v) =>
      ReadOfVarint(v, rest);
      assert (f.Body() + rest)[|Varint(v)|..] == rest;
    case LenField(_, b) =>
      assert f.Body() + rest == Varint(|b|) + (b + rest);
      ReadOfVarint(|b|, b + rest);
      assert (f.Body() + rest)[|Varint(|b|)|..] == b + rest;
      assert (b + rest)[..|b|] == b && (b + rest)[|b|..] == rest;
  }

  lemma DecodesOne(t: Table, utf8: Bytes -> bool, name: string, f: Field, rest: Bytes, out: map<string, Value>)
    requires TableOk(t) && name in t && (f.VarintField? || f.LenField?)
    ensures DecodeOnto(t, utf8, name, EncodeField(f) + rest, out) ==
      var d := Find(t[name], f.no);
      if d.None? then DecodeOnto(t, utf8, name, rest, out)
      else
        var v := Convert(t, utf8, d.value.kind, f);
        if v.Err? then v else DecodeOnto(t, utf8, name, rest, Put(out, d.value, v.value))
  {
    hide EncodeField, TakeField, Convert;
    TakesField(f, rest);
    FieldIsNotEmpty(f);
  }

  // A reader passes over the fields it does not know.
  lemma {:induction false} SkipsUnknown(t: Table, utf8: Bytes -> bool, name: string, ts: seq<Field>, rest: Bytes, out: map<string, Value>)
    requires TableOk(t) && name in t
    requires forall f <- ts :: (f.VarintField? || f.LenField?) && Find(t[name], f.no).None?
    ensures DecodeOnto(t, utf8, name, EncodeFields(ts) + rest, out) == DecodeOnto(t, utf8, name, rest, out)
  {
    hide EncodeField, DecodeOnto, Find;
    if ts == [] {
      assert EncodeFields(ts) + rest == rest;
    } else {
      var more := EncodeFields(ts[1..]) + rest;
      assert EncodeFields(ts) + rest == EncodeField(ts[0]) + more;
      DecodesOne(t, utf8, name, ts[0], more, out);
      SkipsUnknown(t, utf8, name, ts[1..], rest, out);
    }
  }

  lemma {:induction false} FindsByNumber(defs: seq<FieldDef>, d: FieldDef)
    requires d in defs && forall i, j :: 0 <= i < j < |defs| ==> defs[i].no < defs[j].no
    ensures Find(defs, d.no) == Some(d)
  {
    if defs[0].no != d.no {
      FindsByNumber(defs[1..], d);
    }
  }

  // ---- The reader sees the projection ------------------------------------

  ghost predicate Readable(sub: Table, t: Table, utf8: Bytes -> bool, name: string, v: Value) {
    && TableOk(sub) && TableOk(t) && SubTable(sub, t)
    && name in sub && name in t && Typed(t, utf8, name, v)
  }

  ghost predicate ReadableItem(sub: Table, t: Table, utf8: Bytes -> bool, d: FieldDef, x: Value) {
    && TableOk(sub) && TableOk(t) && SubTable(sub, t)
    && (d.kind.Message? ==> d.kind.name in sub && d.kind.name in t) && TypedItem(t, utf8, d, x)
  }

  lemma {:induction false} ItemReadsBack(sub: Table, t: Table, utf8: Bytes -> bool, d: FieldDef, x: Value)
    requires ReadableItem(sub, t, utf8, d, x)
    ensures var f := ItemToken(t, utf8, d, x);
      && f.no == d.no && (f.VarintField? || f.LenField?)
      && Convert(sub, utf8, d.kind, f) == Ok(Norm(sub, d, x))
    decreases x, 3, 0
  {
    hide Decode, Tokens, Project;
    if d.kind.Message? {
      MessageReadsBack(sub, t, utf8, d.kind.name, x);
    }
  }

  // From the i-th item of a list on, with the earlier items already read.
  lemma {:induction false} ItemsReadBack(sub: Table, t: Table, utf8: Bytes -> bool, name: string, d: FieldDef, x: Value,
                                         i: nat, rest: Bytes, out: map<string, Value>)
    requires x.Rep? && i <= |x.items|
    requires forall y <- x.items :: ReadableItem(sub, t, utf8, d, y) && TypedItem(t, utf8, d, y)
    requires TableOk(sub) && TableOk(t) && (d.kind.Message? ==> d.kind.name in sub && d.kind.name in t)
    requires name in sub && d in sub[name] && d.repeated
    requires Lookup(out, d.name) == Some(Rep(NormItems(sub, d, x, i)))
    ensures DecodeOnto(sub, utf8, name, EncodeFields(ItemTokens(t, utf8, d, x, i)) + rest, out)
         == DecodeOnto(sub, utf8, name, rest, out[d.name := Rep(NormItems(sub, d, x, |x.items|))])
    decreases x, 4, |x.items| - i
  {
    hide DecodeOnto, EncodeField, ItemToken, Norm, Convert, Find, ReadableItem, TypedItem;
    if i == |x.items| {
      assert EncodeFields([]) + rest == rest;
      assert out[d.name := out[d.name]] == out;
    } else {
      var f := ItemToken(t, utf8, d, x.items[i]);
      var ts := ItemTokens(t, utf8, d, x, i);
      var more := EncodeFields(ts[1..]) + rest;
      assert EncodeFields(ts) + rest == EncodeField(f) + more;
      ItemReadsBack(sub, t, utf8, d, x.items[i]);
      DecodesOne(sub, utf8, name, f, more, out);
      FindsByNumber(sub[name], d);
      var out' := Put(out, d, Norm(sub, d, x.items[i]));
      ItemsReadBack(sub, t, utf8, name, d, x, i + 1, rest, out');
      assert out'[d.name := Rep(NormItems(sub, d, x, |x.items|))] == out[d.name := Rep(NormItems(sub, d, x, |x.items|))];
    }
  }

  lemma FieldIsReadable(sub: Table, t: Table, utf8: Bytes -> bool, name: string, d: FieldDef, v: Value)
    requires Readable(sub, t, utf8, name, v) && d in sub[name]
    ensures d in t[name] && (d.kind.Message? ==> d.kind.name in sub && d.kind.name in t)
    ensures var x := Get(v, d.name);
      && (!x.Nil? && d.repeated ==>
            x.Rep? && forall y <- x.items :: ReadableItem(sub, t, utf8, d, y) && TypedItem(t, utf8, d, y))
      && (!x.Nil? && !d.repeated ==> ReadableItem(sub, t, utf8, d, x) && TypedItem(t, utf8, d, x))
  {
    hide TypedItem;
    var x := Get(v, d.name);
    assert !x.Nil? ==> TypedField(t, utf8, d, x);
  }

  // A field of the writer's that the reader knows.
  lemma {:induction false} FieldReadsBack(sub: Table, t: Table, utf8: Bytes -> bool, name: string, d: FieldDef, v: Value,
                                          rest: Bytes, out: map<string, Value>)
    requires Readable(sub, t, utf8, name, v) && d in sub[name] && d in t[name]
    requires Lookup(out, d.name) == if d.repeated then Some(Rep([])) else None
    ensures DecodeOnto(sub, utf8, name, EncodeFields(FieldTokens(t, utf8, name, d, v)) + rest, out)
         == DecodeOnto(sub, utf8, name, rest, SetTo(out, d.name, EntryOf(sub, name, d, v)))
    decreases v, 0, 0
  {
    hide DecodeOnto, EncodeField, ItemToken, Norm, Convert, Find, Readable, ReadableItem, TypedField, TypedItem;
    ReadableMeans(sub, t, utf8, name, v);
    FieldIsReadable(sub, t, utf8, name, d, v);
    var x := Get(v, d.name);
    assert !x.Nil? && !d.repeated ==> (IsDefault(d.kind, x) <==> x == Num(0) || x == Truth(false) || x == Str([]) || x == Bin([])) by {
      if !x.Nil? && !d.repeated {
        DefaultIs(t, utf8, name, d, v);
      }
    }
    if x.Nil? || (!d.repeated && IsDefault(d.kind, x)) {
      assert EncodeFields([]) + rest == rest;
      assert d.repeated ==> out[d.name := out[d.name]] == out;
    } else if d.repeated {
      ItemsReadBack(sub, t, utf8, name, d, x, 0, rest, out);
    } else {
      var f := ItemToken(t, utf8, d, x);
      assert EncodeFields([f]) + rest == EncodeField(f) + rest;
      ItemReadsBack(sub, t, utf8, d, x);
      DecodesOne(sub, utf8, name, f, rest, out);
      FindsByNumber(sub[name], d);
    }
  }

  // What the reader holds after the writer's fields `defs`, one after another.
  ghost function ReadDefs(sub: Table, name: string, defs: seq<FieldDef>, v: Value, out: map<string, Value>): map<string, Value>
    requires TableOk(sub) && name in sub && v.Msg?
    decreases |defs|
  {
    if defs == [] then out
    else
      var d := defs[0];
      ReadDefs(sub, name, defs[1..], v, if d in sub[name] then SetTo(out, d.name, EntryOf(sub, name, d, v)) else out)
  }

  ghost predicate Untouched(sub: Table, name: string, defs: seq<FieldDef>, out: map<string, Value>)
    requires name in sub
  {
    forall d <- defs :: d in sub[name] ==> Lookup(out, d.name) == if d.repeated then Some(Rep([])) else None
  }

  ghost predicate DistinctNames(defs: seq<FieldDef>) {
    forall i, j :: 0 <= i < j < |defs| ==> defs[i].name != defs[j].name
  }

  lemma UnknownFieldIsSkipped(sub: Table, t: Table, utf8: Bytes -> bool, name: string, d: FieldDef, v: Value,
                              rest: Bytes, out: map<string, Value>)
    requires Readable(sub, t, utf8, name, v) && d in t[name] && d !in sub[name]
    ensures DecodeOnto(sub, utf8, name, EncodeFields(FieldTokens(t, utf8, name, d, v)) + rest, out)
         == DecodeOnto(sub, utf8, name, rest, out)
  {
    hide DecodeOnto, EncodeFields, ItemToken, TypedItem, Find;
    var x := Get(v, d.name);
    NumberIsUnknown(sub, t, name, d);
    if !x.Nil? {
      assert TypedField(t, utf8, d, x);
      if d.repeated {
        ItemTokensAreNumbered(t, utf8, d, x, 0);
      } else {
        ItemTokenIsNumbered(t, utf8, d, x);
      }
    }
    SkipsUnknown(sub, utf8, name, FieldTokens(t, utf8, name, d, v), rest, out);
  }

  lemma NumberIsUnknown(sub: Table, t: Table, name: string, d: FieldDef)
    requires TableOk(t) && SubTable(sub, t) && name in sub && d in t[name] && d !in sub[name]
    ensures Find(sub[name], d.no).None?
  {
  }

  lemma ItemTokenIsNumbered(t: Table, utf8: Bytes -> bool, d: FieldDef, x: Value)
    requires TableOk(t) && (d.kind.Message? ==> d.kind.name in t) && TypedItem(t, utf8, d, x)
    ensures var f := ItemToken(t, utf8, d, x); f.no == d.no && (f.VarintField? || f.LenField?)
  {
  }

  lemma {:induction false} ItemTokensAreNumbered(t: Table, utf8: Bytes -> bool, d: FieldDef, x: Value, i: nat)
    requires TableOk(t) && (d.kind.Message? ==> d.kind.name in t) && x.Rep? && i <= |x.items|
    requires forall y <- x.items :: TypedItem(t, utf8, d, y)
    ensures forall f <- ItemTokens(t, utf8, d, x, i) :: f.no == d.no && (f.VarintField? || f.LenField?)
    decreases |x.items| - i
  {
    hide ItemToken, TypedItem;
    if i < |x.items| {
      ItemTokenIsNumbered(t, utf8, d, x.items[i]);
      ItemTokensAreNumbered(t, utf8, d, x, i + 1);
    }
  }

  lemma {:induction false} DefsReadBack(sub: Table, t: Table, utf8: Bytes -> bool, name: string, defs: seq<FieldDef>, v: Value,
                                        out: map<string, Value>)
    requires Readable(sub, t, utf8, name, v) && forall d <- defs :: d in t[name]
    requires DistinctNames(defs) && Untouched(sub, name, defs, out)
    ensures DecodeOnto(sub, utf8, name, EncodeFields(TokensOf(t, utf8, name, defs, v)), out)
         == Ok(Msg(ReadDefs(sub, name, defs, v, out)))
    decreases v, 1, |defs|
  {
    hide FieldTokens, EncodeField, EntryOf, Readable, Typed, TableOk, SubTable, DecodeOnto;
    ReadableMeans(sub, t, utf8, name, v);
    if defs == [] {
      NothingLeft(sub, utf8, name, out);
    } else {
      var d := defs[0];
      var ts := TokensOf(t, utf8, name, defs[1..], v);
      EncodeConcat(FieldTokens(t, utf8, name, d, v), ts);
      if d in sub[name] {
        FieldReadsBack(sub, t, utf8, name, d, v, EncodeFields(ts), out);
        DefsReadBack(sub, t, utf8, name, defs[1..], v, SetTo(out, d.name, EntryOf(sub, name, d, v)));
      } else {
        UnknownFieldIsSkipped(sub, t, utf8, name, d, v, EncodeFields(ts), out);
        DefsReadBack(sub, t, utf8, name, defs[1..], v, out);
      }
    }
  }

  lemma ReadableMeans(sub: Table, t: Table, utf8: Bytes -> bool, name: string, v: Value)
    requires Readable(sub, t, utf8, name, v)
    ensures TableOk(sub) && TableOk(t) && name in sub && name in t && Typed(t, utf8, name, v) && v.Msg?
    ensures DistinctNames(sub[name]) && DistinctNames(t[name])
    ensures forall d <- sub[name] :: d in t[name]
  {
  }

  lemma NothingLeft(t: Table, utf8: Bytes -> bool, name: string, out: map<string, Value>)
    requires TableOk(t) && name in t
    ensures DecodeOnto(t, utf8, name, [], out) == Ok(Msg(out))
  {
  }

  // ---- The projection, key by key ----------------------------------------

  lemma {:induction false} BlankLookup(defs: seq<FieldDef>, k: string)
    requires DistinctNames(defs)
    ensures Lookup(Blank(defs), k) ==
      if exists d <- defs :: d.name == k && d.repeated then Some(Rep([])) else None
  {
    if defs != [] {
      var n := |defs| - 1;
      BlankLookup(defs[..n], k);
      if defs[n].name == k {
        assert forall d <- defs[..n] :: d.name != k;
      }
      assert defs == defs[..n] + [defs[n]];
    }
  }

  lemma {:induction false} ProjectLookup(t: Table, name: string, defs: seq<FieldDef>, v: Value, k: string)
    requires TableOk(t) && name in t && v.Msg? && (forall d <- defs :: d in t[name]) && DistinctNames(defs)
    ensures forall d <- defs :: d.name == k ==> Lookup(ProjectOf(t, name, defs, v), k) == EntryOf(t, name, d, v)
    ensures (forall d <- defs :: d.name != k) ==> Lookup(ProjectOf(t, name, defs, v), k) == None
  {
    hide EntryOf, TableOk;
    if defs != [] {
      var n := |defs| - 1;
      ProjectLookup(t, name, defs[..n], v, k);
      assert defs == defs[..n] + [defs[n]];
      assert forall d <- defs[..n] :: d.name != defs[n].name;
    }
  }

  lemma {:induction false} ReadDefsLookup(sub: Table, name: string, defs: seq<FieldDef>, v: Value, out: map<string, Value>, k: string)
    requires TableOk(sub) && name in sub && v.Msg? && DistinctNames(defs) && Untouched(sub, name, defs, out)
    ensures forall d <- defs :: d.name == k && d in sub[name] ==>
      Lookup(ReadDefs(sub, name, defs, v, out), k) == EntryOf(sub, name, d, v)
    ensures (forall d <- defs :: d.name == k ==> d !in sub[name]) ==>
      Lookup(ReadDefs(sub, name, defs, v, out), k) == Lookup(out, k)
  {
    hide TableOk, EntryOf;
    if defs != [] {
      var d := defs[0];
      if d in sub[name] {
        ListsAreKept(sub, name, d, v);
      }
      var out' := if d in sub[name] then SetTo(out, d.name, EntryOf(sub, name, d, v)) else out;
      ReadDefsLookup(sub, name, defs[1..], v, out', k);
      assert defs == [d] + defs[1..];
      assert forall e <- defs[1..] :: e.name != d.name;
    }
  }

  lemma ListsAreKept(t: Table, name: string, d: FieldDef, v: Value)
    requires TableOk(t) && name in t && v.Msg? && d in t[name]
    ensures d.repeated ==> EntryOf(t, name, d, v).Some?
  {
  }

  lemma SameLookups(a: map<string, Value>, b: map<string, Value>)
    requires forall k :: Lookup(a, k) == Lookup(b, k)
    ensures a == b
  {
    assert forall k :: k in a <==> Lookup(a, k).Some?;
    assert forall k :: k in b <==> Lookup(b, k).Some?;
    assert forall k <- a :: a[k] == Lookup(a, k).value;
    assert forall k <- b :: b[k] == Lookup(b, k).value;
  }

  lemma ReadsTheProjection(sub: Table, t: Table, utf8: Bytes -> bool, name: string, v: Value)
    requires Readable(sub, t, utf8, name, v)
    ensures Untouched(sub, name, t[name], Blank(sub[name]))
    ensures ReadDefs(sub, name, t[name], v, Blank(sub[name])) == Project(sub, name, v)
  {
    hide TableOk, Typed, EntryOf, ReadDefs, ProjectOf, Readable, Blank;
    ReadableMeans(sub, t, utf8, name, v);
    var blank := Blank(sub[name]);
    forall d | d in t[name] && d in sub[name]
      ensures Lookup(blank, d.name) == if d.repeated then Some(Rep([])) else None
    {
      BlankLookup(sub[name], d.name);
    }
    forall k
      ensures Lookup(ReadDefs(sub, name, t[name], v, blank), k) == Lookup(Project(sub, name, v), k)
    {
      BlankLookup(sub[name], k);
      ProjectLookup(sub, name, sub[name], v, k);
      ReadDefsLookup(sub, name, t[name], v, blank, k);
      if exists d <- sub[name] :: d.name == k {
        var d :| d in sub[name] && d.name == k;
        assert d in t[name];
      }
    }
    SameLookups(ReadDefs(sub, name, t[name], v, blank), Project(sub, name, v));
  }

  // A message encoded under one table and decoded under any part of it is the
  // message as that part describes it, however deeply nested; with the whole
  // table this is the round trip.
  lemma {:induction false} MessageReadsBack(sub: Table, t: Table, utf8: Bytes -> bool, name: string, v: Value)
    requires Readable(sub, t, utf8, name, v)
    ensures Decode(sub, utf8, name, Encode(t, utf8, name, v)) == Ok(Msg(Project(sub, name, v)))
    decreases v, 2, 0
  {
    hide DecodeOnto, TokensOf, ReadDefs, Project, Readable, Typed, TableOk, Untouched, Blank;
    ReadableMeans(sub, t, utf8, name, v);
    ReadsTheProjection(sub, t, utf8, name, v);
    DefsReadBack(sub, t, utf8, name, t[name], v, Blank(sub[name]));
  }

  // ---- When a message round-trips ----------------------------------------

  // Nothing to normalise: every list present, no other field empty, integers
  // in range and held as integers, flags held as truth values.
  ghost predicate Canonical(t: Table, name: string, v: Value)
    requires TableOk(t) && name in t
    decreases v, 1
  {
    && v.Msg?
    && (forall k <- v.fields :: exists d <- t[name] :: d.name == k)
    && (forall d <- t[name] :: (d.name in v.fields ==> CanonicalField(t, d, v.fields[d.name])) && (d.repeated ==> d.name in v.fields))
  }

  ghost predicate CanonicalField(t: Table, d: FieldDef, x: Value)
    requires TableOk(t) && (d.kind.Message? ==> d.kind.name in t)
    decreases x, 3
  {
    if d.repeated then x.Rep? && forall y <- x.items :: CanonicalItem(t, d, y)
    else !x.Nil? && x != Num(0) && x != Truth(false) && x != Str([]) && x != Bin([]) && CanonicalItem(t, d, x)
  }

  ghost predicate CanonicalItem(t: Table, d: FieldDef, x: Value)
    requires TableOk(t) && (d.kind.Message? ==> d.kind.name in t)
    decreases x, 2
  {
    match d.kind
    case Int => x.Num? && 0 <= x.n < POW_64
    case Bool => x.Truth?
    case Text => true
    case Binary => true
    case Message(name) => Canonical(t, name, x)
  }

  lemma {:induction false} ItemKeptIff(t: Table, utf8: Bytes -> bool, d: FieldDef, x: Value)
    requires TableOk(t) && (d.kind.Message? ==> d.kind.name in t) && TypedItem(t, utf8, d, x)
    ensures Norm(t, d, x) == x <==> CanonicalItem(t, d, x)
    decreases x, 2
  {
    hide Project, Canonical;
    if d.kind.Message? {
      ProjectKeepsIff(t, utf8, d.kind.name, x);
    }
  }

  lemma {:induction false} ItemsKeptIff(t: Table, utf8: Bytes -> bool, d: FieldDef, x: Value, n: nat)
    requires TableOk(t) && (d.kind.Message? ==> d.kind.name in t) && x.Rep? && n <= |x.items|
    requires forall y <- x.items :: TypedItem(t, utf8, d, y)
    ensures |NormItems(t, d, x, n)| == n
    ensures NormItems(t, d, x, n) == x.items[..n] <==> forall y <- x.items[..n] :: CanonicalItem(t, d, y)
    decreases x, 3, n
  {
    hide Norm, CanonicalItem, TypedItem;
    if n > 0 {
      ItemsKeptIff(t, utf8, d, x, n - 1);
      ItemKeptIff(t, utf8, d, x.items[n - 1]);
      assert x.items[..n] == x.items[..n - 1] + [x.items[n - 1]];
    }
  }

  lemma {:induction false} EntryKeptIff(t: Table, utf8: Bytes -> bool, name: string, d: FieldDef, v: Value)
    requires TableOk(t) && name in t && Typed(t, utf8, name, v) && d in t[name]
    ensures EntryOf(t, name, d, v) == Lookup(v.fields, d.name)
      <==> (d.name in v.fields ==> CanonicalField(t, d, v.fields[d.name])) && (d.repeated ==> d.name in v.fields)
    decreases v, 0
  {
    hide Norm, CanonicalItem, TypedItem;
    var x := Get(v, d.name);
    if !x.Nil? {
      assert TypedField(t, utf8, d, x);
      if d.repeated {
        ItemsKeptIff(t, utf8, d, x, |x.items|);
        assert x.items[..|x.items|] == x.items;
      } else {
        ItemKeptIff(t, utf8, d, x);
      }
    }
  }

  lemma {:induction false} ProjectKeepsIff(t: Table, utf8: Bytes -> bool, name: string, v: Value)
    requires TableOk(t) && name in t && Typed(t, utf8, name, v)
    ensures Msg(Project(t, name, v)) == v <==> Canonical(t, name, v)
    decreases v, 1
  {
    hide EntryOf, ProjectOf, CanonicalField, TypedField;
    var p := Project(t, name, v);
    forall d | d in t[name]
      ensures Lookup(p, d.name) == EntryOf(t, name, d, v)
      ensures EntryOf(t, name, d, v) == Lookup(v.fields, d.name)
        <==> (d.name in v.fields ==> CanonicalField(t, d, v.fields[d.name])) && (d.repeated ==> d.name in v.fields)
    {
      EntryKeptIff(t, utf8, name, d, v);
      ProjectLookup(t, name, t[name], v, d.name);
    }
    forall k | forall d <- t[name] :: d.name != k ensures k !in p {
      ProjectLookup(t, name, t[name], v, k);
    }
    if Canonical(t, name, v) {
      forall k ensures Lookup(p, k) == Lookup(v.fields, k) {
        if exists d <- t[name] :: d.name == k {
          var d :| d in t[name] && d.name == k;
        }
      }
      SameLookups(p, v.fields);
    }
  }

  // Exactly the canonical messages survive encoding and decoding unchanged.
  lemma RoundTripsIff(t: Table, utf8: Bytes -> bool, name: string, v: Value)
    requires TableOk(t) && name in t && Typed(t, utf8, name, v)
    ensures Decode(t, utf8, name, Encode(t, utf8, name, v)) == Ok(v) <==> Canonical(t, name, v)
  {
    hide Decode, Encode, Project, Canonical, Typed, TableOk;
    MessageReadsBack(t, t, utf8, name, v);
    ProjectKeepsIff(t, utf8, name, v);
  }

  lemma ZerosTake(n: nat)
    requires n > 0
    ensures TakeField(Zeros(n)) == if n == 1 then Err(IndexError) else Ok((VarintField(0, 0), Zeros(n - 2)))
  {
    var s := Zeros(n);
    assert s[1..] == Zeros(n - 1);
    if n > 1 {
      assert s[1..][1..] == Zeros(n - 2);
    }
  }

  // Zero bytes read as pairs of an unknown field and its value.
  lemma {:induction false} ZerosDecode(t: Table, utf8: Bytes -> bool, name: string, n: nat, out: map<string, Value>)
    requires TableOk(t) && name in t
    ensures DecodeOnto(t, utf8, name, Zeros(n), out) == if n % 2 == 0 then Ok(Msg(out)) else Err(IndexError)
  {
    hide Convert, TakeField;
    if n > 0 {
      ZerosTake(n);
      if n > 1 {
        ZerosDecode(t, utf8, name, n - 2, out);
      }
    }
  }

  // So a number where bytes should be acts as that many zero bytes, of whatever
  // kind the field is, integers apart.
  lemma NumbersActAsZeros(t: Table, utf8: Bytes -> bool, kind: Kind, no: nat, n: nat)
    requires TableOk(t) && (kind.Message? ==> kind.name in t) && !kind.Int?
    ensures Convert(t, utf8, kind, VarintField(no, n)) == Convert(t, utf8, kind, LenField(no, Zeros(n)))
  {
    if kind.Message? {
      ZerosDecode(t, utf8, kind.name, n, Blank(t[kind.name]));
    }
  }
}

/** The codec's loops, byte by byte and field by field. */
module SchemaPbCodec {
  import opened Basics
  import opened ProtoWire
  import opened SchemaPb

  method WriteVarint(number: int) returns (out: Bytes)
    ensures out == Varint(number % POW_64)
  {
    var n := number % POW_64;
    out := [];
    while n >= 128
      invariant 0 <= n && out + Varint(n) == Varint(number % POW_64)
      decreases n
    {
      assert Varint(n) == [128 + n % 128] + Varint(n / 128);
      out := out + [128 + n % 128];
      n := n / 128;
    }
    out := out + [n];
  }

  method ReadVarint(buf: Bytes, start: nat) returns (r: Option<(nat, nat)>)
    requires start <= |buf|
    ensures var t := Read(buf[start..]);
      r == if t.None? then None else Some((t.value.0, start + t.value.1))
  {
    hide Read, Low, Pow128;
    var n: nat, i: nat, weight: nat := 0, start, 1;
    ghost var s := buf[start..];
    NothingRead(s);
    while i < |buf|
      invariant start <= i <= |buf| && forall j :: 0 <= j < i - start ==> s[j] >= 128
      invariant n == Low(s[..i - start]) && weight == Pow128(i - start)
    {
      ghost var k := i - start;
      ReadEnds(s, k);
      LowSnoc(s, k);
      assert s[k] == buf[i];
      NextWeight(k);
      var b := buf[i];
      i := i + 1;
      n := n + (b % 128) * weight;
      if b < 128 {
        return Some((n, i));
      }
      weight := 128 * weight;
    }
    ReadEnds(s, i - start);
    r := None;
  }

  lemma NothingRead(s: Bytes)
    ensures Low(s[..0]) == 0 && Pow128(0) == 1
  {
    assert s[..0] == [];
  }

  lemma NextWeight(k: nat)
    ensures Pow128(k + 1) == 128 * Pow128(k)
  {
  }

  // The bytes of one item, key first.
  method EncodeItem(t: Table, ghost utf8: Bytes -> bool, d: FieldDef, x: Value) returns (out: Bytes)
    requires TableOk(t) && (d.kind.Message? ==> d.kind.name in t) && TypedItem(t, utf8, d, x)
    requires d.no * 8 + 7 < POW_64 && |EncodeField(ItemToken(t, utf8, d, x))| < POW_64
    ensures out == EncodeField(ItemToken(t, utf8, d, x))
    decreases x, 3, 0
  {
    hide Varint;
    if d.kind.Int? || d.kind.Bool? {
      var key := WriteVarint(d.no * 8);
      var value := WriteVarint(IntOf(x));
      return key + value;
    }
    var b;
    if d.kind.Message? {
      b := EncodeMessage(t, utf8, d.kind.name, x);
    } else {
      b := x.bytes;
    }
    var key := WriteVarint(d.no * 8 + 2);
    var length := WriteVarint(|b|);
    out := key + length + b;
    assert out == key + (length + b);
  }

  method EncodeMessage(t: Table, ghost utf8: Bytes -> bool, name: string, v: Value) returns (out: Bytes)
    requires TableOk(t) && name in t && Typed(t, utf8, name, v) && |Encode(t, utf8, name, v)| < POW_64
    ensures out == Encode(t, utf8, name, v)
    decreases v, 2, 0
  {
    hide EncodeField, ItemToken, Typed, TableOk;
    out := [];
    var defs := t[name];
    assert defs[0..] == defs;
    for i := 0 to |defs|
      invariant out + EncodeFields(TokensOf(t, utf8, name, defs[i..], v)) == Encode(t, utf8, name, v)
    {
      var d := defs[i];
      ghost var rest := EncodeFields(TokensOf(t, utf8, name, defs[i + 1..], v));
      assert defs[i..][1..] == defs[i + 1..];
      EncodeConcat(FieldTokens(t, utf8, name, d, v), TokensOf(t, utf8, name, defs[i + 1..], v));
      var field := EncodeFieldOf(t, utf8, name, d, v);
      ConcatAssociates(out, field, rest);
      out := out + field;
    }
    assert defs[|defs|..] == [];
    assert out + [] == out;
  }

  method EncodeFieldOf(t: Table, ghost utf8: Bytes -> bool, name: string, d: FieldDef, v: Value) returns (out: Bytes)
    requires TableOk(t) && name in t && Typed(t, utf8, name, v) && d in t[name]
    requires |EncodeFields(FieldTokens(t, utf8, name, d, v))| < POW_64
    ensures out == EncodeFields(FieldTokens(t, utf8, name, d, v))
    decreases v, 0, 0
  {
    hide EncodeField, ItemToken, TypedItem;
    var x := Get(v, d.name);
    if x.Nil? {
      return [];
    }
    assert TypedField(t, utf8, d, x);
    if !d.repeated {
      if IsDefault(d.kind, x) {
        return [];
      }
      assert EncodeFields([ItemToken(t, utf8, d, x)]) == EncodeField(ItemToken(t, utf8, d, x));
      out := EncodeItem(t, utf8, d, x);
      return;
    }
    out := [];
    for j := 0 to |x.items|
      invariant out + EncodeFields(ItemTokens(t, utf8, d, x, j)) == EncodeFields(FieldTokens(t, utf8, name, d, v))
    {
      ghost var f := ItemToken(t, utf8, d, x.items[j]);
      ghost var rest := EncodeFields(ItemTokens(t, utf8, d, x, j + 1));
      assert ItemTokens(t, utf8, d, x, j)[1..] == ItemTokens(t, utf8, d, x, j + 1);
      assert EncodeFields(ItemTokens(t, utf8, d, x, j)) == EncodeField(f) + rest;
      var item := EncodeItem(t, utf8, d, x.items[j]);
      ConcatAssociates(out, item, rest);
      out := out + item;
    }
    assert out + [] == out;
  }

  // `r` is what `t` takes from the buffer, told by positions: the end of the
  // field may lie beyond the buffer.
  ghost predicate Agrees(buf: Bytes, r: Result<(Field, nat), DecodeError>, t: Result<(Field, Bytes), DecodeError>) {
    if t.Err? then r == Err(t.error)
    else r.Ok? && r.value.0 == t.value.0 && t.value.1 == if r.value.1 < |buf| then buf[r.value.1..] else []
  }

  method ReadBody(buf: Bytes, i: nat, no: nat, wire: nat) returns (r: Result<(Field, nat), DecodeError>)
    requires i <= |buf|
    ensures Agrees(buf, r, TakeBody(buf[i..], no, wire)) && (r.Ok? ==> i <= r.value.1)
  {
    hide Read;
    if wire == 0 {
      var v := ReadVarint(buf, i);
      if v.None? {
        return Err(IndexError);
      }
      assert buf[i..][v.value.1 - i..] == buf[v.value.1..];
      return Ok((VarintField(no, v.value.0), v.value.1));
    } else if wire == 2 {
      var n := ReadVarint(buf, i);
      if n.None? {
        return Err(IndexError);
      }
      var j := n.value.1;
      assert buf[i..][j - i..] == buf[j..];
      SliceIs(buf, j, n.value.0);
      return Ok((LenField(no, PySlice(buf, j, j + n.value.0)), j + n.value.0));
    } else if wire == 1 {
      SliceIs(buf, i, 8);
      return Ok((Fixed64(no, PySlice(buf, i, i + 8)), i + 8));
    } else if wire == 5 {
      SliceIs(buf, i, 4);
      return Ok((Fixed32(no, PySlice(buf, i, i + 4)), i + 4));
    }
    r := Err(ValueError);
  }

  method ReadField(buf: Bytes, start: nat) returns (r: Result<(Field, nat), DecodeError>)
    requires start < |buf|
    ensures Agrees(buf, r, TakeField(buf[start..])) && (r.Ok? ==> start < r.value.1)
  {
    hide Read, TakeBody;
    var k := ReadVarint(buf, start);
    if k.None? {
      return Err(IndexError);
    }
    assert buf[start..][k.value.1 - start..] == buf[k.value.1..];
    r := ReadBody(buf, k.value.1, k.value.0 / 8, k.value.0 % 8);
  }

  // `buf[i:j]` in Python, which stops at the end of the buffer.
  function PySlice(buf: Bytes, i: nat, j: nat): Bytes
    requires i <= j && i <= |buf|
  {
    buf[i..Min(j, |buf|)]
  }

  lemma SliceIs(buf: Bytes, i: nat, n: nat)
    requires i <= |buf|
    ensures PySlice(buf, i, i + n) == Slice(buf[i..], n).0
    ensures Slice(buf[i..], n).1 == if i + n < |buf| then buf[i + n..] else []
  {
  }

  method ConvertField(t: Table, utf8: Bytes -> bool, kind: Kind, f: Field) returns (r: Result<Value, DecodeError>)
    requires TableOk(t) && (kind.Message? ==> kind.name in t)
    ensures r == Convert(t, utf8, kind, f)
    decreases if f.VarintField? then 0 else |f.bytes|, 2
  {
    match kind {
      case Int => r := Ok(if f.VarintField? then Num(f.value) else Bin(f.bytes));
      case Bool => r := Ok(Truth(if f.VarintField? then f.value != 0 else f.bytes != []));
      case Text =>
        var b := if f.VarintField? then Zeros(f.value) else f.bytes;
        r := if utf8(b) then Ok(Str(b)) else Err(UnicodeError);
      case Binary => r := Ok(Bin(if f.VarintField? then Zeros(f.value) else f.bytes));
      case Message(name) =>
        if f.VarintField? {
          r := FromZeros(t, name, f.value);
        } else {
          r := DecodeMessage(t, utf8, name, f.bytes);
        }
    }
  }

  method DecodeMessage(t: Table, utf8: Bytes -> bool, name: string, buf: Bytes) returns (r: Result<Value, DecodeError>)
    requires TableOk(t) && name in t
    ensures r == Decode(t, utf8, name, buf)
    decreases |buf|, 1
  {
    hide TakeField, Convert;
    var out := Blank(t[name]);
    var i := 0;
    assert buf[0..] == buf;
    while i < |buf|
      invariant DecodeOnto(t, utf8, name, if i < |buf| then buf[i..] else [], out) == Decode(t, utf8, name, buf)
    {
      var f := ReadField(buf, i);
      if f.Err? {
        return Err(f.error);
      }
      var d := Find(t[name], f.value.0.no);
      if d.Some? {
        var v := ConvertField(t, utf8, d.value.kind, f.value.0);
        if v.Err? {
          return v;
        }
        out := Put(out, d.value, v.value);
      }
      i := f.value.1;
    }
    r := Ok(Msg(out));
  }
}
