/** The generated size function predicts exactly what the generated encode function writes. */
module SchemaSize {
  import opened Common
  import opened Bytes
  import opened Wire
  import opened Versions
  import opened Schema

  lemma BlobSizes(b: Bytes, flex: bool, wide: bool)
    ensures PutBlob(b, flex, wide).Some? ==> |PutBlob(b, flex, wide).value| == LengthSize(|b|, flex, wide) + |b|
  {
  }

  /** For every schema, version and value that encodes. */
  lemma {:induction false} SizeIsExact(m: Message, ty: Type, v: Value, flex: bool)
    ensures Encode(m, ty, v, flex).Some? ==> |Encode(m, ty, v, flex).value| == Size(m, ty, v, flex)
    decreases ty, 0, 0
  {
    hide PutInt, PutBE, PutBlob, PutLength, LengthSize;
    match ty
    case Str =>
      if v.VBytes? {
        BlobSizes(v.bytes, flex, false);
      }
    case Blob =>
      if v.VBytes? {
        BlobSizes(v.bytes, flex, true);
      }
    case Records =>
      if v.VBytes? {
        BlobSizes(v.bytes, flex, true);
      }
    case Struct(plain, tagged) =>
      if v.VStruct? {
        PlainSizes(m, plain, v.plain);
        SectionSizes(m, tagged, v.tagged, v.unknown);
      }
    case Array(inner) =>
      if v.VArray? {
        LengthSizes(|v.items|, flex, true);
        ItemSizes(m, inner, v.items, flex);
      }
    case _ =>
  }

  lemma {:induction false} ItemSizes(m: Message, ty: Type, items: seq<Value>, flex: bool)
    ensures EncodeItems(m, ty, items, flex).Some? ==> |EncodeItems(m, ty, items, flex).value| == SizeItems(m, ty, items, flex)
    decreases ty, 1, |items|
  {
    if items != [] {
      SizeIsExact(m, ty, items[0], flex);
      ItemSizes(m, ty, items[1..], flex);
    }
  }

  lemma {:induction false} NullableSizes(m: Message, f: Field, v: Value, inTag: bool)
    ensures EncodeNullable(m, f, v, inTag).Some? ==> |EncodeNullable(m, f, v, inTag).value| == SizeNullable(m, f, v, inTag)
    decreases f, 0, 0
  {
    hide PutInt, Encode, Size;
    SizeIsExact(m, f.ty, v, Flex(m, f));
    LengthSizes(0, Flex(m, f), false);
    LengthSizes(0, Flex(m, f), true);
    assert PutVar(1) == [1];
  }

  lemma {:induction false} ValueSizes(m: Message, f: Field, v: Value, inTag: bool)
    ensures EncodeValue(m, f, v, inTag).Some? ==> |EncodeValue(m, f, v, inTag).value| == SizeValue(m, f, v, inTag)
    decreases f, 1, 0
  {
    hide Encode, Size, EncodeNullable, SizeNullable;
    NullableSizes(m, f, v, inTag);
    SizeIsExact(m, f.ty, v, Flex(m, f));
  }

  lemma {:induction false} PlainSizes(m: Message, fs: Fields, vs: seq<Value>)
    ensures EncodePlain(m, fs, vs).Some? ==> |EncodePlain(m, fs, vs).value| == SizePlain(m, fs, vs)
    decreases fs, 0, 0
  {
    hide EncodeValue, SizeValue;
    match fs
    case End =>
    case More(f, rest) =>
      if vs != [] {
        ValueSizes(m, f, vs[0], false);
        PlainSizes(m, rest, vs[1..]);
      }
  }

  lemma {:induction false} RawSizes(ts: seq<RawTag>)
    ensures |PutRaws(ts)| == SizeRaws(ts)
  {
    hide PutU;
    if ts != [] {
      RawSizes(ts[1..]);
    }
  }

  /** However known and unknown tags interleave. */
  lemma {:induction false} TagSizes(m: Message, fs: Fields, vs: seq<Value>, unknown: seq<RawTag>)
    ensures EncodeTags(m, fs, vs, unknown).Some? ==>
              |EncodeTags(m, fs, vs, unknown).value| == SizeRaws(unknown) + SizeKnown(m, fs, vs)
    decreases fs, 0, |unknown|
  {
    hide EncodeValue, SizeValue, PutU, Emits;
    match fs
    case End =>
      RawSizes(unknown);
    case More(f, rest) =>
      if vs != [] {
        if unknown != [] && unknown[0].tag < f.tag {
          TagSizes(m, fs, vs, unknown[1..]);
        } else {
          ValueSizes(m, f, vs[0], true);
          TagSizes(m, rest, vs[1..], unknown);
        }
      }
  }

  lemma {:induction false} SectionSizes(m: Message, fs: Fields, vs: seq<Value>, unknown: seq<RawTag>)
    ensures EncodeSection(m, fs, vs, unknown).Some? ==>
              |EncodeSection(m, fs, vs, unknown).value| == SizeSection(m, fs, vs, unknown)
    decreases fs, 1, 0
  {
    TagSizes(m, fs, vs, unknown);
  }
}
