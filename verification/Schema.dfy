/** What the generated size, encode and decode functions mean, for any message schema: one
    interpreter in place of every generated module. */
module Schema {
  import opened Common
  import opened Bytes
  import opened Wire
  import opened Versions

  datatype Type =
    | Bool | Int8 | Int16 | Int32 | Int64 | Uint16 | Uint32
    | Float64 | Uuid
    | Str | Blob | Records
    | Struct(plain: Fields, tagged: Fields)
    | Array(inner: Type)

  /** A default as the schema spells it. */
  datatype Raw = Absent | Null | Flag(b: bool) | Number(n: int) | Text(t: Bytes) | Bits(f: Bytes)

  datatype Field = Field(ty: Type, versions: Versions, nullable: Versions, taggedVersions: Versions,
                         flexible: Option<Versions>, tag: nat, default: Raw)

  /** A struct's fields: the untagged ones in order, and the tagged ones in tag order. */
  datatype Fields = End | More(head: Field, tail: Fields)

  /** A tagged field this schema does not know, kept as it came. */
  datatype RawTag = RawTag(tag: nat, data: Bytes)

  datatype Value =
    | VFlag(b: bool)
    | VInt(i: int)
    | VBytes(bytes: Bytes)
    | VStruct(plain: seq<Value>, tagged: seq<Value>, unknown: seq<RawTag>)
    | VArray(items: seq<Value>)
    | VNull

  /** The message: its versions, which of them are flexible, the version at hand, and what a
      string must be. */
  datatype Message = Message(valid: Versions, flexible: Versions, version: int, utf8: Bytes -> bool)

  // ---- version tests

  /** A range's test as emitted. */
  predicate Has(m: Message, r: Versions) {
    Passes(Condition(r, m.valid), m.version)
  }

  /** Whether a field is compact: as the message says, unless it says otherwise itself. */
  predicate Flex(m: Message, f: Field) {
    Has(m, if f.flexible.Some? then f.flexible.value else m.flexible)
  }

  /** Declared as an option when nullable in any version the message has. */
  predicate Optional(m: Message, f: Field) {
    !Intersect(f.nullable, m.valid).IsEmpty()
  }

  predicate Written(m: Message, f: Field) {
    Has(m, Intersect(f.taggedVersions, f.versions))
  }

  // ---- defaults

  function Zeroes(n: nat): Bytes {
    seq(n, i => 0)
  }

  function DefaultOf(m: Message, f: Field): Value {
    if f.default.Null? && !f.ty.Uuid? then VNull
    else
      match f.ty
      case Bool => VFlag(if f.default.Flag? then f.default.b else false)
      case Int8 | Int16 | Int32 | Int64 | Uint16 | Uint32 => VInt(if f.default.Number? then f.default.n else 0)
      case Float64 => VBytes(if f.default.Bits? then f.default.f else Zeroes(8))
      case Uuid => VBytes(Zeroes(16))
      case Str => VBytes(if f.default.Text? then f.default.t else [])
      case Blob => VBytes([])
      case Records => if Optional(m, f) then VNull else VBytes([])
      case Struct(plain, tagged) => VStruct(Defaults(m, plain), Defaults(m, tagged), [])
      case Array(_) => VArray([])
  }

  function Defaults(m: Message, fs: Fields): (vs: seq<Value>)
    ensures |vs| == Count(fs)
  {
    match fs
    case End => []
    case More(f, rest) => [DefaultOf(m, f)] + Defaults(m, rest)
  }

  function Count(fs: Fields): nat {
    match fs
    case End => 0
    case More(_, rest) => 1 + Count(rest)
  }

  // ---- encode

  type Out = Option<Bytes>

  function Then(a: Out, b: Out): Out {
    if a.None? || b.None? then None else Some(a.value + b.value)
  }

  /** A value of a fixed-width type. */
  function PutScalar(ty: Type, v: Value): Out {
    match (ty, v)
    case (Bool, VFlag(b)) => Some(PutInt(1, if b then 1 else 0))
    case (Int8, VInt(i)) => Some(PutInt(1, i))
    case (Int16, VInt(i)) => Some(PutInt(2, i))
    case (Int32, VInt(i)) => Some(PutInt(4, i))
    case (Int64, VInt(i)) => Some(PutInt(8, i))
    case (Uint16, VInt(i)) => if i >= 0 then Some(PutBE(2, i)) else None
    case (Uint32, VInt(i)) => if i >= 0 then Some(PutBE(4, i)) else None
    case (Float64, VBytes(b)) => if |b| == 8 then Some(b) else None
    case (Uuid, VBytes(b)) => if |b| == 16 then Some(b) else None
    case _ => None
  }

  /** A non-null value. */
  function Encode(m: Message, ty: Type, v: Value, flex: bool): Out
    decreases ty, 0, 0
  {
    match ty
    case Str => if v.VBytes? then PutBlob(v.bytes, flex, false) else None
    case Blob => if v.VBytes? then PutBlob(v.bytes, flex, true) else None
    case Records => if v.VBytes? then PutBlob(v.bytes, flex, true) else None
    case Struct(plain, tagged) =>
      if v.VStruct? then Then(EncodePlain(m, plain, v.plain), EncodeSection(m, tagged, v.tagged, v.unknown)) else None
    case Array(inner) =>
      if v.VArray? then Then(PutLength(|v.items|, flex, true), EncodeItems(m, inner, v.items, flex)) else None
    case _ => PutScalar(ty, v)
  }

  function EncodeItems(m: Message, ty: Type, items: seq<Value>, flex: bool): Out
    decreases ty, 1, |items|
  {
    if items == [] then Some([])
    else Then(Encode(m, ty, items[0], flex), EncodeItems(m, ty, items[1..], flex))
  }

  /** A field's value where it may be null. */
  function EncodeNullable(m: Message, f: Field, v: Value, inTag: bool): Out
    decreases f, 0, 0
  {
    match f.ty
    case Str => if v.VNull? then Some(PutNullLength(Flex(m, f), false)) else Encode(m, f.ty, v, Flex(m, f))
    case Blob => if v.VNull? then Some(PutNullLength(Flex(m, f), true)) else Encode(m, f.ty, v, Flex(m, f))
    case Records => if v.VNull? then Some(PutNullLength(Flex(m, f), true)) else Encode(m, f.ty, v, Flex(m, f))
    case Array(_) => if v.VNull? then Some(PutNullLength(Flex(m, f), true)) else Encode(m, f.ty, v, Flex(m, f))
    case Struct(_, _) =>
      if v.VNull? then Some(if inTag then [] else PutInt(1, -1))
      else Then(Some(if inTag then PutU(1) else PutInt(1, 1)), Encode(m, f.ty, v, Flex(m, f)))
    case _ => None
  }

  function EncodeValue(m: Message, f: Field, v: Value, inTag: bool): Out
    decreases f, 1, 0
  {
    if Optional(m, f) && Has(m, f.nullable) then EncodeNullable(m, f, v, inTag)
    else if v.VNull? then None
    else Encode(m, f.ty, v, Flex(m, f))
  }

  /** The untagged fields, those the version has. */
  function EncodePlain(m: Message, fs: Fields, vs: seq<Value>): Out
    decreases fs, 0, 0
  {
    match fs
    case End => if vs == [] then Some([]) else None
    case More(f, rest) =>
      if vs == [] then None
      else Then(if Has(m, f.versions) then EncodeValue(m, f, vs[0], false) else Some([]), EncodePlain(m, rest, vs[1..]))
  }

  predicate Emits(m: Message, f: Field, v: Value) {
    Written(m, f) && v != DefaultOf(m, f)
  }

  function Emitted(m: Message, fs: Fields, vs: seq<Value>): nat {
    match fs
    case End => 0
    case More(f, rest) =>
      if vs == [] then 0 else (if Emits(m, f, vs[0]) then 1 else 0) + Emitted(m, rest, vs[1..])
  }

  function PutRaw(t: RawTag): Bytes {
    PutU(t.tag) + PutU(|t.data|) + t.data
  }

  function PutRaws(ts: seq<RawTag>): Bytes {
    if ts == [] then [] else PutRaw(ts[0]) + PutRaws(ts[1..])
  }

  /** Known and unknown tags together, in ascending order. */
  function EncodeTags(m: Message, fs: Fields, vs: seq<Value>, unknown: seq<RawTag>): Out
    decreases fs, 0, |unknown|
  {
    match fs
    case End => if vs == [] then Some(PutRaws(unknown)) else None
    case More(f, rest) =>
      if vs == [] then None
      else if unknown != [] && unknown[0].tag < f.tag then
        Then(Some(PutRaw(unknown[0])), EncodeTags(m, fs, vs, unknown[1..]))
      else if Emits(m, f, vs[0]) then
        Then(Then(Some(PutU(f.tag) + PutU(SizeValue(m, f, vs[0], true))), EncodeValue(m, f, vs[0], true)),
             EncodeTags(m, rest, vs[1..], unknown))
      else EncodeTags(m, rest, vs[1..], unknown)
  }

  function EncodeSection(m: Message, fs: Fields, vs: seq<Value>, unknown: seq<RawTag>): Out
    decreases fs, 1, 0
  {
    if Has(m, m.flexible) then Then(Some(PutU(|unknown| + Emitted(m, fs, vs))), EncodeTags(m, fs, vs, unknown))
    else Some([])
  }

  // ---- size

  function ScalarSize(ty: Type): nat {
    match ty
    case Bool | Int8 => 1
    case Int16 | Uint16 => 2
    case Int32 | Uint32 => 4
    case Int64 | Float64 => 8
    case Uuid => 16
    case _ => 0
  }

  function Size(m: Message, ty: Type, v: Value, flex: bool): nat
    decreases ty, 0, 0
  {
    match ty
    case Str => if v.VBytes? then LengthSize(|v.bytes|, flex, false) + |v.bytes| else 0
    case Blob => if v.VBytes? then LengthSize(|v.bytes|, flex, true) + |v.bytes| else 0
    case Records => if v.VBytes? then LengthSize(|v.bytes|, flex, true) + |v.bytes| else 0
    case Struct(plain, tagged) =>
      if v.VStruct? then SizePlain(m, plain, v.plain) + SizeSection(m, tagged, v.tagged, v.unknown) else 0
    case Array(inner) => if v.VArray? then LengthSize(|v.items|, flex, true) + SizeItems(m, inner, v.items, flex) else 0
    case _ => ScalarSize(ty)
  }

  function SizeItems(m: Message, ty: Type, items: seq<Value>, flex: bool): nat
    decreases ty, 1, |items|
  {
    if items == [] then 0 else Size(m, ty, items[0], flex) + SizeItems(m, ty, items[1..], flex)
  }

  function SizeNullable(m: Message, f: Field, v: Value, inTag: bool): nat
    decreases f, 0, 0
  {
    match f.ty
    case Str => if v.VNull? then NullLengthSize(Flex(m, f), false) else Size(m, f.ty, v, Flex(m, f))
    case Blob => if v.VNull? then NullLengthSize(Flex(m, f), true) else Size(m, f.ty, v, Flex(m, f))
    case Records => if v.VNull? then NullLengthSize(Flex(m, f), true) else Size(m, f.ty, v, Flex(m, f))
    case Array(_) => if v.VNull? then NullLengthSize(Flex(m, f), true) else Size(m, f.ty, v, Flex(m, f))
    case Struct(_, _) =>
      if v.VNull? then (if inTag then 0 else 1) else 1 + Size(m, f.ty, v, Flex(m, f))
    case _ => 0
  }

  /** A null where the version allows none adds nothing; encoding it fails. */
  function SizeValue(m: Message, f: Field, v: Value, inTag: bool): nat
    decreases f, 1, 0
  {
    if Optional(m, f) && Has(m, f.nullable) then SizeNullable(m, f, v, inTag)
    else if v.VNull? then 0
    else Size(m, f.ty, v, Flex(m, f))
  }

  function SizePlain(m: Message, fs: Fields, vs: seq<Value>): nat
    decreases fs, 0, 0
  {
    match fs
    case End => 0
    case More(f, rest) =>
      if vs == [] then 0
      else (if Has(m, f.versions) then SizeValue(m, f, vs[0], false) else 0) + SizePlain(m, rest, vs[1..])
  }

  function SizeRaws(ts: seq<RawTag>): nat {
    if ts == [] then 0
    else SizeU(ts[0].tag) + SizeU(|ts[0].data|) + |ts[0].data| + SizeRaws(ts[1..])
  }

  /** The known tags' part of a section. */
  function SizeKnown(m: Message, fs: Fields, vs: seq<Value>): nat
    decreases fs, 0, 0
  {
    match fs
    case End => 0
    case More(f, rest) =>
      if vs == [] then 0
      else
        (if Emits(m, f, vs[0]) then
           var n := SizeValue(m, f, vs[0], true);
           SizeU(f.tag) + SizeU(n) + n
         else 0) + SizeKnown(m, rest, vs[1..])
  }

  function SizeSection(m: Message, fs: Fields, vs: seq<Value>, unknown: seq<RawTag>): nat
    decreases fs, 1, 0
  {
    if Has(m, m.flexible)
    then SizeU(|unknown| + Emitted(m, fs, vs)) + SizeRaws(unknown) + SizeKnown(m, fs, vs)
    else 0
  }

  // ---- decode

  function Map<T, U>(g: Got<T>, f: T -> U): Got<U> {
    if g.None? then None else Some((f(g.value.0), g.value.1))
  }

  function GetScalar(ty: Type, buf: Bytes): Got<Value> {
    match ty
    case Bool => Map(GetFixed(buf, 1), i => VFlag(i != 0))
    case Int8 => Map(GetFixed(buf, 1), i => VInt(i))
    case Int16 => Map(GetFixed(buf, 2), i => VInt(i))
    case Int32 => Map(GetFixed(buf, 4), i => VInt(i))
    case Int64 => Map(GetFixed(buf, 8), i => VInt(i))
    case Uint16 => Map(GetUnsigned(buf, 2), i => VInt(i))
    case Uint32 => Map(GetUnsigned(buf, 4), i => VInt(i))
    case Float64 => Map(Take(buf, 8), b => VBytes(b))
    case Uuid => Map(Take(buf, 16), b => VBytes(b))
    case _ => None
  }

  /** A string or bytes, null where `nullable`. */
  function DecodeBlob(m: Message, ty: Type, buf: Bytes, flex: bool, nullable: bool): Got<Value> {
    var b := GetNullableBlob(buf, flex, !ty.Str?);
    if b.None? then None
    else if b.value.0.None? then (if nullable then Some((VNull, b.value.1)) else None)
    else if ty.Str? && !m.utf8(b.value.0.value) then None
    else Some((VBytes(b.value.0.value), b.value.1))
  }

  function Decode(m: Message, ty: Type, buf: Bytes, flex: bool): Got<Value>
    decreases ty, 0, 0
  {
    match ty
    case Str => DecodeBlob(m, ty, buf, flex, false)
    case Blob => DecodeBlob(m, ty, buf, flex, false)
    case Records => DecodeBlob(m, ty, buf, flex, false)
    case Struct(plain, tagged) =>
      var p := DecodePlain(m, plain, buf);
      if p.None? then None
      else
        var t := DecodeSection(m, tagged, p.value.1);
        if t.None? then None
        else Some((VStruct(p.value.0, t.value.0.0, t.value.0.1), t.value.1))
    case Array(inner) => DecodeArray(m, inner, buf, flex, false)
    case _ => GetScalar(ty, buf)
  }

  function DecodeArray(m: Message, inner: Type, buf: Bytes, flex: bool, nullable: bool): Got<Value>
    decreases inner, 2, 0
  {
    var n := GetLength(buf, flex, true);
    if n.None? then None
    else if n.value.0.None? then (if nullable then Some((VNull, n.value.1)) else None)
    else
      var items := DecodeItems(m, inner, n.value.0.value, n.value.1, flex);
      if items.None? then None else Some((VArray(items.value.0), items.value.1))
  }

  function DecodeItems(m: Message, ty: Type, n: nat, buf: Bytes, flex: bool): Got<seq<Value>>
    decreases ty, 1, n
  {
    if n == 0 then Some(([], buf))
    else
      var v := Decode(m, ty, buf, flex);
      if v.None? then None
      else
        var rest := DecodeItems(m, ty, n - 1, v.value.1, flex);
        if rest.None? then None else Some(([v.value.0] + rest.value.0, rest.value.1))
  }

  function DecodeNullable(m: Message, f: Field, buf: Bytes, inTag: bool): Got<Value>
    decreases f, 0, 0
  {
    match f.ty
    case Str => DecodeBlob(m, f.ty, buf, Flex(m, f), true)
    case Blob => DecodeBlob(m, f.ty, buf, Flex(m, f), true)
    case Records => DecodeBlob(m, f.ty, buf, Flex(m, f), true)
    case Array(inner) => DecodeArray(m, inner, buf, Flex(m, f), true)
    case Struct(_, _) =>
      if inTag then
        var u := GetU(buf);
        if u.None? then None
        else if u.value.0 == 0 then Some((VNull, u.value.1))
        else Decode(m, f.ty, u.value.1, Flex(m, f))
      else
        var i := GetFixed(buf, 1);
        if i.None? then None
        else if i.value.0 < 0 then Some((VNull, i.value.1))
        else Decode(m, f.ty, i.value.1, Flex(m, f))
    case _ => None
  }

  function DecodeValue(m: Message, f: Field, buf: Bytes, inTag: bool): Got<Value>
    decreases f, 1, 0
  {
    if Optional(m, f) && Has(m, f.nullable) then DecodeNullable(m, f, buf, inTag)
    else Decode(m, f.ty, buf, Flex(m, f))
  }

  function DecodePlain(m: Message, fs: Fields, buf: Bytes): Got<seq<Value>>
    decreases fs, 0, 0
  {
    match fs
    case End => Some(([], buf))
    case More(f, rest) =>
      var v := if Has(m, f.versions) then DecodeValue(m, f, buf, false) else Some((DefaultOf(m, f), buf));
      if v.None? then None
      else
        var vs := DecodePlain(m, rest, v.value.1);
        if vs.None? then None else Some(([v.value.0] + vs.value.0, vs.value.1))
  }

  /** A tag's payload against the fields: the values with that field replaced, `Some(None)` when
      no field has the tag. What the field leaves of its payload is dropped. */
  function DecodeKnown(m: Message, fs: Fields, vs: seq<Value>, tag: nat, sub: Bytes): Option<Option<seq<Value>>>
    decreases fs, 0, 0
  {
    match fs
    case End => Some(None)
    case More(f, rest) =>
      if vs == [] then None
      else if f.tag == tag then
        var v := DecodeValue(m, f, sub, true);
        if v.None? then None else Some(Some([v.value.0] + vs[1..]))
      else
        var r := DecodeKnown(m, rest, vs[1..], tag, sub);
        if r.None? || r.value.None? then r else Some(Some([vs[0]] + r.value.value))
  }

  function DecodeTags(m: Message, fs: Fields, vs: seq<Value>, unknown: seq<RawTag>, last: Option<nat>, n: nat, buf: Bytes)
    : Got<(seq<Value>, seq<RawTag>)>
    decreases fs, 1, n
  {
    if n == 0 then Some(((vs, unknown), buf))
    else
      var tag := GetU(buf);
      if tag.None? || (last.Some? && tag.value.0 <= last.value) then None
      else
        var size := GetU(tag.value.1);
        if size.None? then None
        else
          var sub := Take(size.value.1, size.value.0);
          if sub.None? then None
          else
            var known := DecodeKnown(m, fs, vs, tag.value.0, sub.value.0);
            if known.None? then None
            else if known.value.Some? then
              DecodeTags(m, fs, known.value.value, unknown, Some(tag.value.0), n - 1, sub.value.1)
            else
              DecodeTags(m, fs, vs, unknown + [RawTag(tag.value.0, sub.value.0)], Some(tag.value.0), n - 1, sub.value.1)
  }

  function DecodeSection(m: Message, fs: Fields, buf: Bytes): Got<(seq<Value>, seq<RawTag>)>
    decreases fs, 2, 0
  {
    if Has(m, m.flexible) then
      var n := GetU(buf);
      if n.None? then None else DecodeTags(m, fs, Defaults(m, fs), [], None, n.value.0, n.value.1)
    else Some(((Defaults(m, fs), []), buf))
  }
}
