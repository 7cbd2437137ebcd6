/** The generated decode function inverts the generated encode function, for every schema, on
    exactly the values that write no null struct under a tag. */
module SchemaRoundTrip {
  import opened Common
  import opened Bytes
  import opened Wire
  import opened Versions
  import opened Schema
  import opened SchemaSize

  // ---- values a schema can carry at a version

  predicate ScalarOK(ty: Type, v: Value) {
    match ty
    case Bool => v.VFlag?
    case Int8 => v.VInt? && IsI8(v.i)
    case Int16 => v.VInt? && IsI16(v.i)
    case Int32 => v.VInt? && IsI32(v.i)
    case Int64 => v.VInt? && IsI64(v.i)
    case Uint16 => v.VInt? && 0 <= v.i < 0x1_0000
    case Uint32 => v.VInt? && 0 <= v.i < TWO32
    case Float64 => v.VBytes? && |v.bytes| == 8
    case Uuid => v.VBytes? && |v.bytes| == 16
    case _ => false
  }

  /** A non-null value of its type, every field the version cannot carry at its default. */
  predicate Conforms(m: Message, ty: Type, v: Value)
    decreases ty, 0, 0
  {
    match ty
    case Str => v.VBytes? && m.utf8(v.bytes)
    case Blob => v.VBytes?
    case Records => v.VBytes?
    case Struct(plain, tagged) =>
      v.VStruct? && PlainConform(m, plain, v.plain) && SectionConforms(m, tagged, v.tagged, v.unknown)
    case Array(inner) => v.VArray? && ItemsConform(m, inner, v.items)
    case _ => ScalarOK(ty, v)
  }

  predicate ItemsConform(m: Message, ty: Type, items: seq<Value>)
    decreases ty, 1, |items|
  {
    items == [] || (Conforms(m, ty, items[0]) && ItemsConform(m, ty, items[1..]))
  }

  predicate FieldConforms(m: Message, f: Field, v: Value)
    decreases f, 0, 0
  {
    if v.VNull? then Optional(m, f) else Conforms(m, f.ty, v)
  }

  predicate PlainConform(m: Message, fs: Fields, vs: seq<Value>)
    decreases fs, 0, 0
  {
    match fs
    case End => vs == []
    case More(f, rest) =>
      && vs != []
      && (if Has(m, f.versions) then FieldConforms(m, f, vs[0]) else vs[0] == DefaultOf(m, f))
      && PlainConform(m, rest, vs[1..])
  }

  /** Tags ascend and fit; a value that is written conforms and its payload length fits; any
      other is at its default. */
  predicate TaggedConform(m: Message, fs: Fields, vs: seq<Value>, after: int)
    decreases fs, 0, 0
  {
    match fs
    case End => vs == []
    case More(f, rest) =>
      && vs != []
      && after < f.tag < TWO32
      && (if Has(m, m.flexible) && Emits(m, f, vs[0])
          then FieldConforms(m, f, vs[0]) && SizeValue(m, f, vs[0], true) < TWO32
          else vs[0] == DefaultOf(m, f))
      && TaggedConform(m, rest, vs[1..], f.tag)
  }

  predicate UnknownConform(fs: Fields, unknown: seq<RawTag>, after: int)
    decreases |unknown|
  {
    unknown == [] ||
    (&& after < unknown[0].tag < TWO32 && |unknown[0].data| < TWO32
     && !HasTag(fs, unknown[0].tag)
     && UnknownConform(fs, unknown[1..], unknown[0].tag))
  }

  predicate HasTag(fs: Fields, tag: nat) {
    match fs
    case End => false
    case More(f, rest) => f.tag == tag || HasTag(rest, tag)
  }

  predicate SectionConforms(m: Message, fs: Fields, vs: seq<Value>, unknown: seq<RawTag>)
    decreases fs, 1, 0
  {
    && TaggedConform(m, fs, vs, -1)
    && UnknownConform(fs, unknown, -1)
    && (Has(m, m.flexible) || unknown == [])
    && |unknown| + Emitted(m, fs, vs) < TWO32
  }

  // ---- values that can be read back

  /** No struct inside writes a null struct under a tag: such an entry has an empty payload, where
      a marker is expected. */
  predicate Readable(m: Message, ty: Type, v: Value)
    decreases ty, 0, 0
  {
    match ty
    case Struct(plain, tagged) =>
      v.VStruct? ==> PlainReadable(m, plain, v.plain) && (Has(m, m.flexible) ==> TagsReadable(m, tagged, v.tagged))
    case Array(inner) => v.VArray? ==> ItemsReadable(m, inner, v.items)
    case _ => true
  }

  predicate ItemsReadable(m: Message, ty: Type, items: seq<Value>)
    decreases ty, 1, |items|
  {
    items == [] || (Readable(m, ty, items[0]) && ItemsReadable(m, ty, items[1..]))
  }

  predicate ValueReadable(m: Message, f: Field, v: Value, inTag: bool)
    decreases f, 0, 0
  {
    if v.VNull? then !(inTag && f.ty.Struct?) else Readable(m, f.ty, v)
  }

  predicate PlainReadable(m: Message, fs: Fields, vs: seq<Value>)
    decreases fs, 0, 0
  {
    match fs
    case End => true
    case More(f, rest) =>
      vs != [] ==> (Has(m, f.versions) ==> ValueReadable(m, f, vs[0], false)) && PlainReadable(m, rest, vs[1..])
  }

  predicate TagsReadable(m: Message, fs: Fields, vs: seq<Value>)
    decreases fs, 0, 0
  {
    match fs
    case End => true
    case More(f, rest) =>
      vs != [] ==> (Emits(m, f, vs[0]) ==> ValueReadable(m, f, vs[0], true)) && TagsReadable(m, rest, vs[1..])
  }

  /** What decoding should give: the value back when it is readable, an error otherwise. */
  function Back<T>(readable: bool, v: T, rest: Bytes): Got<T> {
    if readable then Some((v, rest)) else None
  }

  // ---- scalars, strings, bytes

  lemma ScalarBack(ty: Type, v: Value, rest: Bytes)
    requires ScalarOK(ty, v)
    ensures PutScalar(ty, v).Some? && GetScalar(ty, PutScalar(ty, v).value + rest) == Some((v, rest))
  {
    hide PutInt, GetInt, PutBE, GetBE, Pow256;
    Widths();
    match ty
    case Bool => FixedBack(1, if v.b then 1 else 0, rest);
    case Int8 => FixedBack(1, v.i, rest);
    case Int16 => FixedBack(2, v.i, rest);
    case Int32 => FixedBack(4, v.i, rest);
    case Int64 => FixedBack(8, v.i, rest);
    case Uint16 => UnsignedBack(2, v.i, rest);
    case Uint32 => UnsignedBack(4, v.i, rest);
    case Float64 => TakeBack(v.bytes, rest);
    case Uuid => TakeBack(v.bytes, rest);
  }

  lemma BytesBack(m: Message, ty: Type, v: Value, flex: bool, nullable: bool, rest: Bytes)
    requires (ty.Str? || ty.Blob? || ty.Records?) && Conforms(m, ty, v) && Encode(m, ty, v, flex).Some?
    ensures DecodeBlob(m, ty, Encode(m, ty, v, flex).value + rest, flex, nullable) == Some((v, rest))
  {
    hide PutBlob, GetNullableBlob;
    BlobBack(v.bytes, flex, !ty.Str?, rest);
  }

  lemma NullBytesBack(m: Message, ty: Type, flex: bool, rest: Bytes)
    ensures DecodeBlob(m, ty, PutNullLength(flex, !ty.Str?) + rest, flex, true) == Some((VNull, rest))
  {
    hide PutNullLength, GetLength;
    NullLengthBack(flex, !ty.Str?, rest);
  }

  lemma Regroup(a: Bytes, b: Bytes, rest: Bytes)
    ensures a + b + rest == a + (b + rest)
  {
  }

  // ---- the theorem, type by type

  /** Whatever follows the encoding, decoding gives back the value and leaves what follows; an
      unreadable value is refused. */
  lemma {:induction false} RoundTrip(m: Message, ty: Type, v: Value, flex: bool, rest: Bytes)
    requires Conforms(m, ty, v) && Encode(m, ty, v, flex).Some?
    ensures Decode(m, ty, Encode(m, ty, v, flex).value + rest, flex) == Back(Readable(m, ty, v), v, rest)
    decreases ty, 0, 0
  {
    hide PutScalar, GetScalar, DecodeBlob, PutBlob, DecodeSection, EncodeSection, EncodePlain, DecodePlain, DecodeArray;
    match ty
    case Str => BytesBack(m, ty, v, flex, false, rest);
    case Blob => BytesBack(m, ty, v, flex, false, rest);
    case Records => BytesBack(m, ty, v, flex, false, rest);
    case Struct(plain, tagged) =>
      var a := EncodePlain(m, plain, v.plain).value;
      var b := EncodeSection(m, tagged, v.tagged, v.unknown).value;
      Regroup(a, b, rest);
      PlainBack(m, plain, v.plain, b + rest);
      SectionBack(m, tagged, v.tagged, v.unknown, rest);
    case Array(inner) => ArrayBack(m, inner, v, flex, false, rest);
    case _ => ScalarBack(ty, v, rest);
  }

  lemma {:induction false} ArrayBack(m: Message, inner: Type, v: Value, flex: bool, nullable: bool, rest: Bytes)
    requires Conforms(m, Array(inner), v) && Encode(m, Array(inner), v, flex).Some?
    ensures DecodeArray(m, inner, Encode(m, Array(inner), v, flex).value + rest, flex, nullable) == Back(Readable(m, Array(inner), v), v, rest)
    decreases inner, 2, 0
  {
    hide PutLength, GetLength, DecodeItems, EncodeItems;
    var a, b := PutLength(|v.items|, flex, true).value, EncodeItems(m, inner, v.items, flex).value;
    Regroup(a, b, rest);
    LengthBack(|v.items|, flex, true, b + rest);
    ItemsBack(m, inner, v.items, flex, rest);
  }

  lemma {:induction false} ItemsBack(m: Message, ty: Type, items: seq<Value>, flex: bool, rest: Bytes)
    requires ItemsConform(m, ty, items) && EncodeItems(m, ty, items, flex).Some?
    ensures DecodeItems(m, ty, |items|, EncodeItems(m, ty, items, flex).value + rest, flex) == Back(ItemsReadable(m, ty, items), items, rest)
    decreases ty, 1, |items|
  {
    hide Encode, Decode, Conforms;
    if items != [] {
      var a, b := Encode(m, ty, items[0], flex).value, EncodeItems(m, ty, items[1..], flex).value;
      Regroup(a, b, rest);
      RoundTrip(m, ty, items[0], flex, b + rest);
      ItemsBack(m, ty, items[1..], flex, rest);
      assert [items[0]] + items[1..] == items;
    } else {
      assert [] + rest == rest;
    }
  }

  lemma {:induction false} NullableBack(m: Message, f: Field, v: Value, inTag: bool, rest: Bytes)
    requires FieldConforms(m, f, v) && EncodeNullable(m, f, v, inTag).Some?
    requires inTag ==> rest == []
    ensures DecodeNullable(m, f, EncodeNullable(m, f, v, inTag).value + rest, inTag) == Back(ValueReadable(m, f, v, inTag), v, rest)
    decreases f, 0, 0
  {
    hide Encode, Decode, Conforms, DecodeBlob, DecodeArray, PutNullLength, PutInt, GetInt, PutU, GetU, Pow256;
    var flex := Flex(m, f);
    if f.ty.Struct? {
      Widths();
      if v.VNull? {
        if inTag {
          assert GetU([] + rest).None?;
        } else {
          FixedBack(1, -1, rest);
        }
      } else {
        var b := Encode(m, f.ty, v, flex).value;
        RoundTrip(m, f.ty, v, flex, rest);
        if inTag {
          Regroup(PutU(1), b, rest);
          PutUGetU(1, b + rest);
        } else {
          Regroup(PutInt(1, 1), b, rest);
          FixedBack(1, 1, b + rest);
        }
      }
    } else if f.ty.Array? {
      if v.VNull? {
        NullArrayBack(m, f.ty.inner, flex, rest);
      } else {
        ArrayBack(m, f.ty.inner, v, flex, true, rest);
      }
    } else if v.VNull? {
      NullBytesBack(m, f.ty, flex, rest);
    } else {
      BytesBack(m, f.ty, v, flex, true, rest);
    }
  }

  lemma NullArrayBack(m: Message, inner: Type, flex: bool, rest: Bytes)
    ensures DecodeArray(m, inner, PutNullLength(flex, true) + rest, flex, true) == Some((VNull, rest))
  {
    hide PutNullLength, GetLength;
    NullLengthBack(flex, true, rest);
  }

  lemma {:induction false} ValueBack(m: Message, f: Field, v: Value, inTag: bool, rest: Bytes)
    requires FieldConforms(m, f, v) && EncodeValue(m, f, v, inTag).Some?
    requires inTag ==> rest == []
    ensures DecodeValue(m, f, EncodeValue(m, f, v, inTag).value + rest, inTag) == Back(ValueReadable(m, f, v, inTag), v, rest)
    decreases f, 1, 0
  {
    hide Encode, Decode, Conforms, EncodeNullable, DecodeNullable;
    if Optional(m, f) && Has(m, f.nullable) {
      NullableBack(m, f, v, inTag, rest);
    } else {
      RoundTrip(m, f.ty, v, Flex(m, f), rest);
    }
  }

  lemma {:induction false} PlainBack(m: Message, fs: Fields, vs: seq<Value>, rest: Bytes)
    requires PlainConform(m, fs, vs) && EncodePlain(m, fs, vs).Some?
    ensures DecodePlain(m, fs, EncodePlain(m, fs, vs).value + rest) == Back(PlainReadable(m, fs, vs), vs, rest)
    decreases fs, 0, 0
  {
    hide EncodeValue, DecodeValue, FieldConforms, DefaultOf, ValueReadable;
    match fs
    case End =>
      assert [] + rest == rest;
    case More(f, tail) =>
      var a := if Has(m, f.versions) then EncodeValue(m, f, vs[0], false).value else [];
      var b := EncodePlain(m, tail, vs[1..]).value;
      Regroup(a, b, rest);
      PlainBack(m, tail, vs[1..], rest);
      if Has(m, f.versions) {
        ValueBack(m, f, vs[0], false, b + rest);
      } else {
        assert [] + (b + rest) == b + rest;
      }
      assert [vs[0]] + vs[1..] == vs;
  }

  // ---- the tagged section

  function Drop(fs: Fields, n: nat): Fields
    requires n <= Count(fs)
  {
    if n == 0 then fs else Drop(fs.tail, n - 1)
  }

  predicate Ascending(fs: Fields, after: int) {
    match fs
    case End => true
    case More(f, rest) => after < f.tag && Ascending(rest, f.tag)
  }

  lemma {:induction false} ConformAscends(m: Message, fs: Fields, vs: seq<Value>, after: int)
    requires TaggedConform(m, fs, vs, after)
    ensures Ascending(fs, after) && |vs| == Count(fs)
  {
    hide FieldConforms, Emits, DefaultOf, SizeValue;
    if fs.More? {
      ConformAscends(m, fs.tail, vs[1..], fs.head.tag);
    }
  }

  lemma {:induction false} DropNext(fs: Fields, n: nat, after: int)
    requires n < Count(fs) && Ascending(fs, after)
    ensures Drop(fs, n).More? && Drop(fs, n + 1) == Drop(fs, n).tail
    ensures after < Drop(fs, n).head.tag && HasTag(fs, Drop(fs, n).head.tag)
  {
    if n > 0 {
      DropNext(fs.tail, n - 1, fs.head.tag);
    }
  }

  lemma {:induction false} DropCount(fs: Fields, n: nat)
    requires n <= Count(fs)
    ensures Count(Drop(fs, n)) == Count(fs) - n
  {
    if n > 0 {
      DropCount(fs.tail, n - 1);
    }
  }

  lemma {:induction false} NotKnown(m: Message, fs: Fields, vs: seq<Value>, tag: nat, sub: Bytes)
    requires !HasTag(fs, tag) && |vs| == Count(fs)
    ensures DecodeKnown(m, fs, vs, tag, sub) == Some(None)
  {
    if fs.More? {
      NotKnown(m, fs.tail, vs[1..], tag, sub);
    }
  }

  /** A known tag's payload replaces that field's default and nothing else. */
  lemma {:induction false} KnownAt(m: Message, fs: Fields, done: seq<Value>, todo: seq<Value>, v: Value, sub: Bytes, left: Bytes, after: int)
    requires Ascending(fs, after) && |done| < Count(fs) && Drop(fs, |done|).More? && todo != []
    requires DecodeValue(m, Drop(fs, |done|).head, sub, true) == Some((v, left))
    ensures DecodeKnown(m, fs, done + todo, Drop(fs, |done|).head.tag, sub) == Some(Some(done + [v] + todo[1..]))
    decreases |done|
  {
    hide DecodeValue;
    if done == [] {
      assert done + todo == todo && [v] + todo[1..] == done + [v] + todo[1..];
    } else {
      DropNext(fs.tail, |done| - 1, fs.head.tag);
      assert (done + todo)[1..] == done[1..] + todo;
      KnownAt(m, fs.tail, done[1..], todo, v, sub, left, fs.head.tag);
      assert [done[0]] + (done[1..] + [v] + todo[1..]) == done + [v] + todo[1..];
    }
  }

  lemma {:induction false} KnownFails(m: Message, fs: Fields, now: seq<Value>, n: nat, sub: Bytes, after: int)
    requires Ascending(fs, after) && n < Count(fs) && Drop(fs, n).More? && |now| == Count(fs)
    requires DecodeValue(m, Drop(fs, n).head, sub, true) == None
    ensures DecodeKnown(m, fs, now, Drop(fs, n).head.tag, sub) == None
    decreases n
  {
    hide DecodeValue;
    if n > 0 {
      DropNext(fs.tail, n - 1, fs.head.tag);
      KnownFails(m, fs.tail, now[1..], n - 1, sub, fs.head.tag);
    }
  }

  function Last(last: Option<nat>): int {
    if last.Some? then last.value else -1
  }

  /** One entry off the front of a section, whoever it belongs to. */
  lemma EntryBack(tag: nat, data: Bytes, more: Bytes, rest: Bytes)
    requires tag < TWO32 && |data| < TWO32
    ensures var buf := PutU(tag) + PutU(|data|) + data + more + rest;
            && GetU(buf) == Some((tag, PutU(|data|) + data + (more + rest)))
            && GetU(PutU(|data|) + data + (more + rest)) == Some((|data|, data + (more + rest)))
            && Take(data + (more + rest), |data|) == Some((data, more + rest))
  {
    hide PutU, GetU, Take;
    var tail := more + rest;
    assert PutU(tag) + PutU(|data|) + data + more + rest == PutU(tag) + (PutU(|data|) + data + tail);
    PutUGetU(tag, PutU(|data|) + data + tail);
    Regroup(PutU(|data|), data, tail);
    PutUGetU(|data|, data + tail);
    TakeBack(data, tail);
  }

  lemma RawStep(m: Message, all: Fields, now: seq<Value>, seen: seq<RawTag>, last: Option<nat>, n: nat, t: RawTag, more: Bytes, rest: Bytes)
    requires n > 0 && |now| == Count(all) && !HasTag(all, t.tag)
    requires Last(last) < t.tag < TWO32 && |t.data| < TWO32
    ensures DecodeTags(m, all, now, seen, last, n, PutRaw(t) + more + rest)
         == DecodeTags(m, all, now, seen + [t], Some(t.tag), n - 1, more + rest)
  {
    hide PutU, GetU, Take, DecodeKnown, HasTag;
    EntryBack(t.tag, t.data, more, rest);
    NotKnown(m, all, now, t.tag, t.data);
  }

  lemma NoTags(m: Message, all: Fields, now: seq<Value>, seen: seq<RawTag>, last: Option<nat>, rest: Bytes)
    ensures DecodeTags(m, all, now, seen, last, 0, rest) == Some(((now, seen), rest))
  {
  }

  lemma {:induction false} RawsBack(m: Message, all: Fields, now: seq<Value>, seen: seq<RawTag>, ts: seq<RawTag>, last: Option<nat>, rest: Bytes)
    requires |now| == Count(all) && UnknownConform(all, ts, Last(last))
    ensures DecodeTags(m, all, now, seen, last, |ts|, PutRaws(ts) + rest) == Some(((now, seen + ts), rest))
    decreases |ts|
  {
    hide PutRaw, HasTag, DecodeTags;
    if ts == [] {
      NoTags(m, all, now, seen, last, rest);
      assert [] + rest == rest && seen + [] == seen;
    } else {
      RawStep(m, all, now, seen, last, |ts|, ts[0], PutRaws(ts[1..]), rest);
      RawsBack(m, all, now, seen + [ts[0]], ts[1..], Some(ts[0].tag), rest);
      assert seen + [ts[0]] + ts[1..] == seen + ts;
    }
  }

  lemma FailStep(m: Message, all: Fields, now: seq<Value>, k: nat, seen: seq<RawTag>, last: Option<nat>, n: nat,
                 data: Bytes, more: Bytes, rest: Bytes)
    requires n > 0 && Ascending(all, -1) && k < Count(all) && Drop(all, k).More? && |now| == Count(all)
    requires Last(last) < Drop(all, k).head.tag < TWO32 && |data| < TWO32
    requires DecodeValue(m, Drop(all, k).head, data, true) == None
    ensures DecodeTags(m, all, now, seen, last, n, PutU(Drop(all, k).head.tag) + PutU(|data|) + data + more + rest) == None
  {
    hide PutU, GetU, Take, DecodeKnown, DecodeValue, Drop, Ascending;
    EntryBack(Drop(all, k).head.tag, data, more, rest);
    KnownFails(m, all, now, k, data, -1);
  }

  lemma KnownStep(m: Message, all: Fields, done: seq<Value>, todo: seq<Value>, v: Value, seen: seq<RawTag>, last: Option<nat>, n: nat,
                  data: Bytes, more: Bytes, rest: Bytes)
    requires n > 0 && Ascending(all, -1) && |done| < Count(all) && Drop(all, |done|).More? && todo != []
    requires Last(last) < Drop(all, |done|).head.tag < TWO32 && |data| < TWO32
    requires DecodeValue(m, Drop(all, |done|).head, data, true) == Some((v, []))
    ensures DecodeTags(m, all, done + todo, seen, last, n, PutU(Drop(all, |done|).head.tag) + PutU(|data|) + data + more + rest)
         == DecodeTags(m, all, done + [v] + todo[1..], seen, Some(Drop(all, |done|).head.tag), n - 1, more + rest)
  {
    hide PutU, GetU, Take, DecodeKnown, DecodeValue, Drop, Ascending;
    EntryBack(Drop(all, |done|).head.tag, data, more, rest);
    KnownAt(m, all, done, todo, v, data, [], -1);
  }

  /** Known and unknown tags come back however they interleave. `done` and `seen` are what has
      been decoded; fields still to come stand at their defaults. */
  lemma {:induction false} TagsBack(m: Message, all: Fields, fs: Fields, done: seq<Value>, vs: seq<Value>, seen: seq<RawTag>, unknown: seq<RawTag>,
                                    last: Option<nat>, rest: Bytes)
    requires Ascending(all, -1) && |done| <= Count(all) && Drop(all, |done|) == fs
    requires Has(m, m.flexible) && TaggedConform(m, fs, vs, Last(last)) && UnknownConform(all, unknown, Last(last))
    requires EncodeTags(m, fs, vs, unknown).Some?
    ensures DecodeTags(m, all, done + Defaults(m, fs), seen, last, |unknown| + Emitted(m, fs, vs), EncodeTags(m, fs, vs, unknown).value + rest)
         == Back(TagsReadable(m, fs, vs), (done + vs, seen + unknown), rest)
    decreases fs, 1, |unknown|
  {
    hide PutRaw, PutU, DecodeTags, Drop, HasTag, EncodeValue, DecodeValue, SizeValue, FieldConforms, DefaultOf, Emits;
    DropCount(all, |done|);
    match fs
    case End =>
      RawsBack(m, all, done, seen, unknown, last, rest);
      assert done + [] == done;
    case More(f, tail) =>
      DropNext(all, |done|, -1);
      if unknown != [] && unknown[0].tag < f.tag {
        var t := unknown[0];
        RawStep(m, all, done + Defaults(m, fs), seen, last, |unknown| + Emitted(m, fs, vs), t, EncodeTags(m, fs, vs, unknown[1..]).value, rest);
        TagsBack(m, all, fs, done, vs, seen + [t], unknown[1..], Some(t.tag), rest);
        assert seen + [t] + unknown[1..] == seen + unknown;
      } else if Emits(m, f, vs[0]) {
        EmittedBack(m, all, fs, done, vs, seen, unknown, last, rest);
      } else {
        assert done + Defaults(m, fs) == done + [vs[0]] + Defaults(m, tail);
        TagsBack(m, all, tail, done + [vs[0]], vs[1..], seen, unknown, last, rest);
        assert done + [vs[0]] + vs[1..] == done + vs;
      }
  }

  lemma UnknownAfter(all: Fields, unknown: seq<RawTag>, after: int, tag: nat)
    requires UnknownConform(all, unknown, after) && HasTag(all, tag) && (unknown == [] || tag <= unknown[0].tag)
    ensures UnknownConform(all, unknown, tag)
  {
  }

  lemma {:induction false} EmittedBack(m: Message, all: Fields, fs: Fields, done: seq<Value>, vs: seq<Value>, seen: seq<RawTag>, unknown: seq<RawTag>,
                                       last: Option<nat>, rest: Bytes)
    requires Ascending(all, -1) && |done| < Count(all) && Drop(all, |done|) == fs && fs.More? && vs != []
    requires Drop(all, |done| + 1) == fs.tail && HasTag(all, fs.head.tag)
    requires Has(m, m.flexible) && TaggedConform(m, fs, vs, Last(last)) && UnknownConform(all, unknown, Last(last))
    requires EncodeTags(m, fs, vs, unknown).Some? && Emits(m, fs.head, vs[0])
    requires unknown == [] || fs.head.tag <= unknown[0].tag
    ensures DecodeTags(m, all, done + Defaults(m, fs), seen, last, |unknown| + Emitted(m, fs, vs), EncodeTags(m, fs, vs, unknown).value + rest)
         == Back(TagsReadable(m, fs, vs), (done + vs, seen + unknown), rest)
    decreases fs, 0, 0
  {
    hide PutU, DecodeTags, Drop, HasTag, EncodeValue, DecodeValue, SizeValue, FieldConforms, DefaultOf, Emits, ValueReadable, UnknownConform;
    var f := fs.head;
    var data, more := EncodeValue(m, f, vs[0], true).value, EncodeTags(m, fs.tail, vs[1..], unknown).value;
    UnknownAfter(all, unknown, Last(last), f.tag);
    ValueSizes(m, f, vs[0], true);
    ValueBack(m, f, vs[0], true, []);
    assert data + [] == data;
    var todo := Defaults(m, fs);
    var n := |unknown| + Emitted(m, fs, vs);
    if ValueReadable(m, f, vs[0], true) {
      KnownStep(m, all, done, todo, vs[0], seen, last, n, data, more, rest);
      assert done + [vs[0]] + todo[1..] == done + [vs[0]] + Defaults(m, fs.tail);
      TagsBack(m, all, fs.tail, done + [vs[0]], vs[1..], seen, unknown, Some(f.tag), rest);
      assert done + [vs[0]] + vs[1..] == done + vs;
    } else {
      DropCount(all, |done|);
      FailStep(m, all, done + todo, |done|, seen, last, n, data, more, rest);
    }
  }

  lemma {:induction false} SectionBack(m: Message, fs: Fields, vs: seq<Value>, unknown: seq<RawTag>, rest: Bytes)
    requires SectionConforms(m, fs, vs, unknown) && EncodeSection(m, fs, vs, unknown).Some?
    ensures DecodeSection(m, fs, EncodeSection(m, fs, vs, unknown).value + rest)
         == Back(Has(m, m.flexible) ==> TagsReadable(m, fs, vs), (vs, unknown), rest)
    decreases fs, 2, 0
  {
    hide PutU, GetU, DecodeTags, EncodeTags, TaggedConform, UnknownConform, HasTag;
    ConformAscends(m, fs, vs, -1);
    if Has(m, m.flexible) {
      var n, b := |unknown| + Emitted(m, fs, vs), EncodeTags(m, fs, vs, unknown).value;
      Regroup(PutU(n), b, rest);
      PutUGetU(n, b + rest);
      TagsBack(m, fs, fs, [], vs, [], unknown, None, rest);
      assert [] + Defaults(m, fs) == Defaults(m, fs) && [] + vs == vs && [] + unknown == unknown;
    } else {
      AllDefault(m, fs, vs, -1);
      assert [] + rest == rest;
    }
  }

  lemma {:induction false} AllDefault(m: Message, fs: Fields, vs: seq<Value>, after: int)
    requires TaggedConform(m, fs, vs, after) && !Has(m, m.flexible)
    ensures vs == Defaults(m, fs)
  {
    hide FieldConforms, Emits, DefaultOf, SizeValue, Has;
    if fs.More? {
      AllDefault(m, fs.tail, vs[1..], fs.head.tag);
    }
  }

  /** A conforming value that encodes and cannot be read back: a tagged struct that may be null,
      whose default is not null, set to null. */
  lemma NullTagIsLost(utf8: Bytes -> bool)
    ensures var every := Versions(0, 0);
            var m := Message(every, every, 0, utf8);
            var f := Field(Struct(End, End), every, every, every, None, 0, Absent);
            var ty, v := Struct(End, More(f, End)), VStruct([], [VNull], []);
            && Conforms(m, ty, v)
            && Encode(m, ty, v, true).Some?
            && Decode(m, ty, Encode(m, ty, v, true).value, true).None?
  {
    hide PutU, GetU;
    var every := Versions(0, 0);
    var m := Message(every, every, 0, utf8);
    var f := Field(Struct(End, End), every, every, every, None, 0, Absent);
    var ty, v := Struct(End, More(f, End)), VStruct([], [VNull], []);
    assert Emits(m, f, VNull) && Emitted(m, End, []) == 0;
    assert EncodeTags(m, End, [], []) == Some([]) && EncodeTags(m, More(f, End), [VNull], []).Some?;
    assert Conforms(m, ty, v) && !Readable(m, ty, v);
    RoundTrip(m, ty, v, true, []);
    var b := Encode(m, ty, v, true).value;
    assert b + [] == b;
  }
}
