/** The wire primitives generated code is made of: fixed-width integers, unsigned varints, and
    the legacy and compact length prefixes. A reader takes a buffer and gives back what it did
    not consume. */
module Wire {
  import opened Common
  import opened Bytes

  /** The largest length any prefix may carry. */
  const MAX_LENGTH: nat := 100 * 1024 * 1024

  type Got<T> = Option<(T, Bytes)>

  function Take(buf: Bytes, n: nat): (r: Got<Bytes>)
    ensures r.Some? ==> buf == r.value.0 + r.value.1 && |r.value.0| == n
  {
    if |buf| < n then None else Some((buf[..n], buf[n..]))
  }

  function GetFixed(buf: Bytes, n: nat): Got<int> {
    if |buf| < n then None else Some((GetInt(buf[..n]), buf[n..]))
  }

  function GetUnsigned(buf: Bytes, n: nat): Got<int> {
    if |buf| < n then None else Some((GetBE(buf[..n]), buf[n..]))
  }

  function PutU(v: nat): Bytes {
    PutVar(v % TWO32)
  }

  function GetU(buf: Bytes): (r: Got<nat>)
    ensures r.Some? ==> r.value.0 < TWO32 && |r.value.1| < |buf|
  {
    var v := GetVar(buf, 0, |buf|, 5);
    if v.None? then None else Some((v.value.0 % TWO32, buf[v.value.1..]))
  }

  lemma PutUGetU(v: nat, rest: Bytes)
    requires v < TWO32
    ensures GetU(PutU(v) + rest) == Some((v, rest))
  {
    hide PutVar, Pow128;
    var b := PutVar(v);
    FiveGroups();
    VarLength(v, 5);
    assert (b + rest)[0..|b|] == b;
    VarRoundTrip(v, b + rest, 0, |b + rest|, 5);
    assert (b + rest)[|b|..] == rest;
  }

  lemma TakeBack(b: Bytes, rest: Bytes)
    ensures Take(b + rest, |b|) == Some((b, rest))
  {
  }

  lemma FixedBack(n: nat, v: int, rest: Bytes)
    requires n > 0 && FitsInt(n, v)
    ensures GetFixed(PutInt(n, v) + rest, n) == Some((v, rest))
  {
    TakeBack(PutInt(n, v), rest);
    IntRoundTrip(n, v);
  }

  lemma UnsignedBack(n: nat, v: nat, rest: Bytes)
    requires v < Pow256(n)
    ensures GetUnsigned(PutBE(n, v) + rest, n) == Some((v, rest))
  {
  }

  // ---- length prefixes

  /** `wide` is the four-byte legacy prefix of bytes and arrays; strings have two bytes. */
  function PutLength(len: nat, flex: bool, wide: bool): Option<Bytes> {
    if len > MAX_LENGTH then None
    else if flex then Some(PutU(len + 1))
    else if wide then Some(PutInt(4, len))
    else if len > 0x7fff then None
    else Some(PutInt(2, len))
  }

  function PutNullLength(flex: bool, wide: bool): Bytes {
    if flex then PutU(0) else if wide then PutInt(4, -1) else PutInt(2, -1)
  }

  /** A length, or null. */
  function GetLength(buf: Bytes, flex: bool, wide: bool): (r: Got<Option<nat>>)
    ensures r.Some? ==> |r.value.1| < |buf|
  {
    if flex then
      var u := GetU(buf);
      if u.None? then None
      else if u.value.0 == 0 then Some((None, u.value.1))
      else if u.value.0 - 1 > MAX_LENGTH then None
      else Some((Some(u.value.0 - 1), u.value.1))
    else
      var i := GetFixed(buf, if wide then 4 else 2);
      if i.None? then None
      else if i.value.0 < 0 then Some((None, i.value.1))
      else if i.value.0 > MAX_LENGTH then None
      else Some((Some(i.value.0), i.value.1))
  }

  lemma LengthBack(len: nat, flex: bool, wide: bool, rest: Bytes)
    requires PutLength(len, flex, wide).Some?
    ensures GetLength(PutLength(len, flex, wide).value + rest, flex, wide) == Some((Some(len), rest))
  {
    hide PutInt, GetInt, Pow256, GetVar, PutVar;
    Widths();
    if flex {
      PutUGetU(len + 1, rest);
    } else {
      FixedBack(if wide then 4 else 2, len, rest);
    }
  }

  lemma NullLengthBack(flex: bool, wide: bool, rest: Bytes)
    ensures GetLength(PutNullLength(flex, wide) + rest, flex, wide) == Some((None, rest))
  {
    hide PutInt, GetInt, Pow256, GetVar, PutVar;
    Widths();
    if flex {
      PutUGetU(0, rest);
    } else {
      FixedBack(if wide then 4 else 2, -1, rest);
    }
  }

  // ---- strings and bytes

  function PutBlob(b: Bytes, flex: bool, wide: bool): Option<Bytes> {
    var n := PutLength(|b|, flex, wide);
    if n.None? then None else Some(n.value + b)
  }

  function GetNullableBlob(buf: Bytes, flex: bool, wide: bool): Got<Option<Bytes>> {
    var n := GetLength(buf, flex, wide);
    if n.None? then None
    else if n.value.0.None? then Some((None, n.value.1))
    else
      var b := Take(n.value.1, n.value.0.value);
      if b.None? then None else Some((Some(b.value.0), b.value.1))
  }

  lemma BlobBack(b: Bytes, flex: bool, wide: bool, rest: Bytes)
    requires PutBlob(b, flex, wide).Some?
    ensures GetNullableBlob(PutBlob(b, flex, wide).value + rest, flex, wide) == Some((Some(b), rest))
  {
    hide PutLength, GetLength;
    var n := PutLength(|b|, flex, wide).value;
    assert n + b + rest == n + (b + rest);
    LengthBack(|b|, flex, wide, b + rest);
    TakeBack(b, rest);
  }

  // ---- sizes, computed without writing

  function SizeU(v: nat): nat {
    |PutU(v)|
  }

  function LengthSize(len: nat, flex: bool, wide: bool): nat {
    if flex then SizeU(len + 1) else if wide then 4 else 2
  }

  function NullLengthSize(flex: bool, wide: bool): nat {
    if flex then 1 else if wide then 4 else 2
  }

  lemma LengthSizes(len: nat, flex: bool, wide: bool)
    ensures PutLength(len, flex, wide).Some? ==> |PutLength(len, flex, wide).value| == LengthSize(len, flex, wide)
    ensures |PutNullLength(flex, wide)| == NullLengthSize(flex, wide)
  {
  }
}
