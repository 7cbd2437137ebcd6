/** Bytes, big-endian integers and base-128 varints: the wire primitives everything else is
    written in. */
module Bytes {
  import opened Common

  type Byte = x: int | 0 <= x < 256
  type Bytes = seq<Byte>

  const TWO32: int := 0x1_0000_0000
  const TWO64: int := 0x1_0000_0000_0000_0000

  predicate IsI8(v: int) { -0x80 <= v < 0x80 }
  predicate IsI16(v: int) { -0x8000 <= v < 0x8000 }
  predicate IsI32(v: int) { -0x8000_0000 <= v < 0x8000_0000 }
  predicate IsI64(v: int) { -0x8000_0000_0000_0000 <= v < 0x8000_0000_0000_0000 }

  // ---- big-endian integers

  function Pow256(n: nat): (r: nat)
    ensures r > 0
  {
    if n == 0 then 1 else 256 * Pow256(n - 1)
  }

  function PutBE(n: nat, v: nat): (b: Bytes)
    ensures |b| == n
  {
    if n == 0 then [] else PutBE(n - 1, v / 256) + [v % 256]
  }

  function GetBE(b: Bytes): (v: nat)
    ensures v < Pow256(|b|)
  {
    if b == [] then 0 else GetBE(b[..|b| - 1]) * 256 + b[|b| - 1]
  }

  lemma {:induction false} BERoundTrip(n: nat, v: nat)
    requires v < Pow256(n)
    ensures GetBE(PutBE(n, v)) == v
  {
    if n > 0 {
      BERoundTrip(n - 1, v / 256);
      assert PutBE(n, v)[..n - 1] == PutBE(n - 1, v / 256);
    }
  }

  /** Two's complement in `n` bytes. */
  function PutInt(n: nat, v: int): (b: Bytes)
    requires n > 0
    ensures |b| == n
  {
    PutBE(n, v % Pow256(n))
  }

  function GetInt(b: Bytes): int {
    var u := GetBE(b);
    if b != [] && b[0] >= 128 then u - Pow256(|b|) else u
  }

  predicate FitsInt(n: nat, v: int) {
    var p: int := Pow256(n);
    -p <= 2 * v < p
  }

  /** The leading byte carries the sign. */
  lemma {:induction false} TopByte(n: nat, v: nat)
    requires n > 0 && v < Pow256(n)
    ensures PutBE(n, v)[0] >= 128 <==> 2 * v >= Pow256(n)
  {
    if n > 1 {
      TopByte(n - 1, v / 256);
      assert PutBE(n, v)[0] == PutBE(n - 1, v / 256)[0];
      var half := 128 * Pow256(n - 2);
      assert Pow256(n - 1) == 2 * half && Pow256(n) == 512 * half;
      assert v >= 256 * half <==> v / 256 >= half;
    }
  }

  lemma IntRoundTrip(n: nat, v: int)
    requires n > 0 && FitsInt(n, v)
    ensures GetInt(PutInt(n, v)) == v
  {
    var p := Pow256(n);
    var u := if v >= 0 then v else v + p;
    DivUnique(v, p, if v >= 0 then 0 else -1, u);
    BERoundTrip(n, u);
    TopByte(n, u);
  }

  lemma Widths()
    ensures Pow256(1) == 0x100 && Pow256(2) == 0x1_0000 && Pow256(4) == TWO32 && Pow256(8) == TWO64
  {
  }

  // ---- base-128 varints

  /** Seven bits a byte, least significant first, the top bit set on all but the last. */
  function PutVar(v: nat): (b: Bytes)
    ensures |b| >= 1
  {
    if v < 128 then [v] else [v % 128 + 128] + PutVar(v / 128)
  }

  /** Reads at `pos` a varint of at most `left` bytes that ends before `end`: its value and the
      position after it. */
  function GetVar(buf: Bytes, pos: nat, end: nat, left: nat): (r: Option<(nat, nat)>)
    ensures r.Some? ==> pos < r.value.1 <= end && r.value.1 <= |buf|
    ensures r.Some? ==> r.value.1 <= pos + left
    decreases left
  {
    if left == 0 || pos >= end || pos >= |buf| then None
    else if buf[pos] < 128 then Some((buf[pos], pos + 1))
    else
      var rest := GetVar(buf, pos + 1, end, left - 1);
      if rest.None? then None
      else Some((buf[pos] - 128 + 128 * rest.value.0, rest.value.1))
  }

  function Pow128(n: nat): (r: nat)
    ensures r > 0
  {
    if n == 0 then 1 else 128 * Pow128(n - 1)
  }

  lemma FiveGroups()
    ensures Pow128(5) == 0x8_0000_0000
  {
  }

  lemma {:induction false} VarLength(v: nat, n: nat)
    requires n > 0 && v < Pow128(n)
    ensures |PutVar(v)| <= n
  {
    if v >= 128 {
      VarLength(v / 128, n - 1);
    }
  }

  /** A varint reads back wherever it stands, if the extent and the byte limit admit it. */
  lemma {:induction false} VarRoundTrip(v: nat, buf: Bytes, pos: nat, end: nat, left: nat)
    requires pos + |PutVar(v)| <= |buf| && buf[pos..pos + |PutVar(v)|] == PutVar(v)
    requires pos + |PutVar(v)| <= end && |PutVar(v)| <= left
    ensures GetVar(buf, pos, end, left) == Some((v, pos + |PutVar(v)|))
  {
    var b := PutVar(v);
    assert buf[pos] == buf[pos..pos + |b|][0] == b[0];
    if v >= 128 {
      var rest := PutVar(v / 128);
      assert buf[pos + 1..pos + 1 + |rest|] == buf[pos..pos + |b|][1..] == rest;
      VarRoundTrip(v / 128, buf, pos + 1, end, left - 1);
    }
  }

  // ---- zigzag

  function Zig(v: int): nat {
    if v >= 0 then 2 * v else -2 * v - 1
  }

  function Zag(u: nat): int {
    if u % 2 == 0 then u / 2 else -(u / 2) - 1
  }

  lemma ZigZag(v: int)
    ensures Zag(Zig(v)) == v
  {
  }

  lemma ZigFits(v: int)
    ensures IsI32(v) ==> Zig(v) < TWO32
    ensures IsI64(v) ==> Zig(v) < TWO64
  {
  }

  // ---- the loops

  /** The writer: emits the low seven bits while more remain. */
  method WriteVar(v: nat) returns (out: Bytes)
    ensures out == PutVar(v)
  {
    out := [];
    var left := v;
    while left >= 128
      invariant out + PutVar(left) == PutVar(v)
    {
      assert out + PutVar(left) == (out + [left % 128 + 128]) + PutVar(left / 128);
      out := out + [left % 128 + 128];
      left := left / 128;
    }
    out := out + [left];
  }

  /** Its length, without writing it. */
  method VarSize(v: nat) returns (n: nat)
    ensures n == |PutVar(v)|
  {
    n := 1;
    var left := v;
    while left >= 128
      invariant n + |PutVar(left)| == |PutVar(v)| + 1
    {
      left := left / 128;
      n := n + 1;
    }
  }

  /** The reader: accumulates shifted groups in a word of `modulus`, dropping what spills over. */
  method ReadVar(buf: Bytes, pos: nat, end: nat, limit: nat, modulus: nat) returns (r: Option<(nat, nat)>)
    requires modulus > 0
    ensures r == Truncated(GetVar(buf, pos, end, limit), 0, 1, modulus)
  {
    hide GetVar, Truncated;
    var value: nat, weight: nat, at := 0, 1, pos;
    for i := 0 to limit
      invariant at == pos + i
      invariant Truncated(GetVar(buf, pos, end, limit), 0, 1, modulus)
             == Truncated(GetVar(buf, at, end, limit - i), value, weight, modulus)
    {
      TruncatedStep(buf, at, end, limit - i, value, weight, modulus);
      if at >= end || at >= |buf| {
        return None;
      }
      var b := buf[at];
      if b < 128 {
        return Some(((value + weight * b) % modulus, at + 1));
      }
      value := (value + weight * (b - 128)) % modulus;
      weight := weight * 128;
      at := at + 1;
    }
    TruncatedStep(buf, at, end, 0, value, weight, modulus);
    return None;
  }

  lemma VarStep(buf: Bytes, at: nat, end: nat, left: nat)
    ensures left == 0 || at >= end || at >= |buf| ==> GetVar(buf, at, end, left) == None
    ensures left > 0 && at < end && at < |buf| && buf[at] < 128 ==> GetVar(buf, at, end, left) == Some((buf[at], at + 1))
    ensures left > 0 && at < end && at < |buf| && buf[at] >= 128 ==>
              var rest := GetVar(buf, at + 1, end, left - 1);
              GetVar(buf, at, end, left) == if rest.None? then None else Some((buf[at] - 128 + 128 * rest.value.0, rest.value.1))
  {
  }

  lemma TruncatedNone(value: nat, weight: nat, modulus: nat)
    requires modulus > 0
    ensures Truncated(None, value, weight, modulus) == None
  {
  }

  lemma TruncatedLast(b: nat, at: nat, value: nat, weight: nat, modulus: nat)
    requires modulus > 0
    ensures Truncated(Some((b, at)), value, weight, modulus) == Some(((value + weight * b) % modulus, at))
  {
  }

  lemma TruncatedMore(next: Option<(nat, nat)>, low: nat, value: nat, weight: nat, modulus: nat)
    requires modulus > 0
    ensures Truncated(if next.None? then None else Some((low + 128 * next.value.0, next.value.1)), value, weight, modulus)
         == Truncated(next, (value + weight * low) % modulus, weight * 128, modulus)
  {
    if next.Some? {
      Group(value, weight, low, next.value.0, modulus);
    }
  }

  lemma TruncatedStep(buf: Bytes, at: nat, end: nat, left: nat, value: nat, weight: nat, modulus: nat)
    requires modulus > 0
    ensures Truncated(GetVar(buf, at, end, left), value, weight, modulus) ==
              if left == 0 || at >= end || at >= |buf| then None
              else if buf[at] < 128 then Some(((value + weight * buf[at]) % modulus, at + 1))
              else Truncated(GetVar(buf, at + 1, end, left - 1), (value + weight * (buf[at] - 128)) % modulus, weight * 128, modulus)
  {
    hide GetVar, Truncated;
    VarStep(buf, at, end, left);
    if left > 0 && at < end && at < |buf| {
      if buf[at] < 128 {
        TruncatedLast(buf[at], at + 1, value, weight, modulus);
      } else {
        TruncatedMore(GetVar(buf, at + 1, end, left - 1), buf[at] - 128, value, weight, modulus);
      }
    } else {
      TruncatedNone(value, weight, modulus);
    }
  }

  /** A value read on top of `value`, scaled by `weight`, in a word of `modulus`. */
  function Truncated(r: Option<(nat, nat)>, value: nat, weight: nat, modulus: nat): Option<(nat, nat)>
    requires modulus > 0
  {
    if r.Some? then Some(((value + weight * r.value.0) % modulus, r.value.1)) else None
  }

  lemma Group(value: nat, weight: nat, low: nat, high: nat, m: nat)
    requires m > 0
    ensures (value + weight * (low + 128 * high)) % m == ((value + weight * low) % m + (weight * 128) * high) % m
  {
    var a, b := value + weight * low, (weight * 128) * high;
    assert weight * (low + 128 * high) == weight * low + weight * (128 * high);
    assert weight * (128 * high) == (weight * 128) * high;
    ModAdd(a, b, m);
  }

  lemma ModAdd(a: nat, b: nat, m: nat)
    requires m > 0
    ensures (a + b) % m == (a % m + b) % m
  {
    var q, r := a / m, a % m;
    var q', r' := (r + b) / m, (r + b) % m;
    assert a == q * m + r;
    assert r + b == q' * m + r';
    assert (q + q') * m == q * m + q' * m;
    DivUnique(a + b, m, q + q', r');
  }

  lemma MulSmall(k: int, m: int)
    requires m > 0 && -m < k * m < m
    ensures k == 0
  {
  }

  /** Quotient and remainder are the only ones there are. */
  lemma DivUnique(x: int, m: nat, q: int, r: int)
    requires m > 0 && x == q * m + r && 0 <= r < m
    ensures x % m == r && x / m == q
  {
    var q', r' := x / m, x % m;
    assert x == q' * m + r';
    var k := q - q';
    assert k * m == q * m - q' * m;
    MulSmall(k, m);
  }
}
