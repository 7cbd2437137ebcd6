/** Length-prefixed frames on a byte stream that arrives in pieces. */
module Framing {
  import opened Common
  import opened Bytes
  import opened Wire

  const I32_MAX := 0x7fff_ffff

  datatype Outcome = Frame(body: Bytes) | Incomplete | Oversized(declared: int)

  function NextFrame(buf: Bytes, max: nat): (r: Outcome)
    ensures r.Frame? ==> 4 + |r.body| <= |buf| && |r.body| <= max
  {
    if |buf| < 4 then Incomplete
    else
      var declared := GetInt(buf[..4]);
      if declared < 0 || declared > max then Oversized(declared)
      else if |buf| < 4 + declared then Incomplete
      else Frame(buf[4..4 + declared])
  }

  /** What taking frames until none comes gives: their bodies, what is left, and whether it was
      refused. */
  datatype Parsed = Parsed(bodies: seq<Bytes>, rest: Bytes, bad: bool)

  function Parse(buf: Bytes, max: nat): Parsed
    decreases |buf|
  {
    match NextFrame(buf, max)
    case Incomplete => Parsed([], buf, false)
    case Oversized(_) => Parsed([], buf, true)
    case Frame(body) =>
      var p := Parse(buf[4 + |body|..], max);
      Parsed([body] + p.bodies, p.rest, p.bad)
  }

  // ---- writing

  function PutFrame(body: Bytes): Bytes {
    PutInt(4, |body|) + body
  }

  function PutFrames(bodies: seq<Bytes>): Bytes {
    if bodies == [] then [] else PutFrame(bodies[0]) + PutFrames(bodies[1..])
  }

  predicate Fit(bodies: seq<Bytes>, max: nat) {
    forall b | b in bodies :: |b| <= max && |b| <= I32_MAX
  }

  class Writer {
    var out: Bytes

    /** `appended` is what encoding the body wrote, `fails` whether it then gave up. */
    method WriteFrame(appended: Bytes, fails: bool) returns (ok: bool)
      modifies this
      ensures ok <==> !fails && |appended| <= I32_MAX
      ensures ok ==> out == old(out) + PutFrame(appended)
      ensures !ok ==> out == old(out) + [0, 0, 0, 0] + appended
    {
      var start := |out|;
      out := out + [0, 0, 0, 0];
      out := out + appended;
      if fails {
        return false;
      }
      var len := |out| - start - 4;
      if len > I32_MAX {
        return false;
      }
      out := out[..start] + PutInt(4, len) + out[start + 4..];
      return true;
    }
  }

  lemma NextBack(body: Bytes, rest: Bytes, max: nat)
    requires |body| <= max && |body| <= I32_MAX
    ensures NextFrame(PutFrame(body) + rest, max) == Frame(body)
    ensures (PutFrame(body) + rest)[4 + |body|..] == rest
  {
    hide PutInt, GetInt, Pow256;
    Widths();
    var buf := PutFrame(body) + rest;
    IntRoundTrip(4, |body|);
    assert buf[..4] == PutInt(4, |body|) && buf[4..4 + |body|] == body;
  }

  lemma {:induction false} ParseBack(bodies: seq<Bytes>, max: nat)
    requires Fit(bodies, max)
    ensures Parse(PutFrames(bodies), max) == Parsed(bodies, [], false)
  {
    hide PutFrame, NextFrame;
    if bodies == [] {
      assert NextFrame([], max) == Incomplete by { Short([], max); }
    } else {
      NextBack(bodies[0], PutFrames(bodies[1..]), max);
      ParseBack(bodies[1..], max);
    }
  }

  lemma Short(buf: Bytes, max: nat)
    requires |buf| < 4
    ensures NextFrame(buf, max) == Incomplete
  {
  }

  /** More bytes never change a frame already there. */
  lemma NextStays(a: Bytes, b: Bytes, max: nat)
    ensures NextFrame(a, max).Frame? ==>
              NextFrame(a + b, max) == NextFrame(a, max) && (a + b)[4 + |NextFrame(a, max).body|..] == a[4 + |NextFrame(a, max).body|..] + b
    ensures NextFrame(a, max).Oversized? ==> NextFrame(a + b, max) == NextFrame(a, max)
  {
    if |a| >= 4 {
      assert (a + b)[..4] == a[..4];
      if NextFrame(a, max).Frame? {
        var d := GetInt(a[..4]);
        assert (a + b)[4..4 + d] == a[4..4 + d];
      }
    }
  }

  /** Parsing in two goes is parsing at once. */
  lemma {:induction false} ParseAppend(a: Bytes, b: Bytes, max: nat)
    ensures var p := Parse(a, max);
            Parse(a + b, max) ==
              if p.bad then Parsed(p.bodies, p.rest + b, true)
              else
                var q := Parse(p.rest + b, max);
                Parsed(p.bodies + q.bodies, q.rest, q.bad)
    decreases |a|
  {
    hide NextFrame;
    NextStays(a, b, max);
    match NextFrame(a, max)
    case Incomplete =>
      var q := Parse(a + b, max);
      assert [] + q.bodies == q.bodies;
    case Oversized(_) =>
    case Frame(body) =>
      var tail := a[4 + |body|..];
      ParseAppend(tail, b, max);
      var p := Parse(tail, max);
      if !p.bad {
        var q := Parse(p.rest + b, max);
        assert [body] + (p.bodies + q.bodies) == [body] + p.bodies + q.bodies;
      }
  }

  // ---- a connection: reads and takes in any order

  /** What was taken and what the buffer still holds are what the whole stream holds. */
  ghost predicate Agree(stream: Bytes, taken: seq<Bytes>, inbuf: Bytes, max: nat) {
    var p := Parse(inbuf, max);
    Parse(stream, max) == Parsed(taken + p.bodies, p.rest, p.bad)
  }

  lemma ReadAgrees(stream: Bytes, taken: seq<Bytes>, inbuf: Bytes, chunk: Bytes, max: nat)
    requires Agree(stream, taken, inbuf, max)
    ensures Agree(stream + chunk, taken, inbuf + chunk, max)
  {
    hide Parse;
    ParseAppend(stream, chunk, max);
    ParseAppend(inbuf, chunk, max);
    var p := Parse(inbuf, max);
    var q := Parse(p.rest + chunk, max);
    assert taken + p.bodies + q.bodies == taken + (p.bodies + q.bodies);
  }

  class Connection {
    var inbuf: Bytes
    const max: nat
    ghost var stream: Bytes
    ghost var taken: seq<Bytes>

    ghost predicate Valid()
      reads this
    {
      Agree(stream, taken, inbuf, max)
    }

    constructor (cap: nat)
      ensures Valid() && max == cap && stream == [] && taken == [] && inbuf == []
    {
      inbuf, max, stream, taken := [], cap, [], [];
    }

    method Read(chunk: Bytes)
      requires Valid()
      modifies this
      ensures Valid() && stream == old(stream) + chunk && taken == old(taken) && inbuf == old(inbuf) + chunk
    {
      hide Agree;
      ReadAgrees(stream, taken, inbuf, chunk, max);
      stream := stream + chunk;
      inbuf := inbuf + chunk;
    }

    /** An incomplete or oversized frame consumes nothing. */
    method TakeFrame() returns (r: Outcome)
      requires Valid()
      modifies this
      ensures Valid() && stream == old(stream)
      ensures r == NextFrame(old(inbuf), max)
      ensures r.Frame? ==> taken == old(taken) + [r.body] && inbuf == old(inbuf)[4 + |r.body|..]
      ensures !r.Frame? ==> taken == old(taken) && inbuf == old(inbuf)
    {
      hide GetInt;
      if |inbuf| < 4 {
        return Incomplete;
      }
      var declared := GetInt(inbuf[..4]);
      if declared < 0 || declared > max {
        return Oversized(declared);
      }
      var total := 4 + declared;
      if |inbuf| < total {
        return Incomplete;
      }
      var frame := inbuf[..total];
      assert frame[4..] == inbuf[4..total];
      ghost var p := Parse(inbuf[total..], max);
      assert taken + ([frame[4..]] + p.bodies) == taken + [frame[4..]] + p.bodies;
      inbuf := inbuf[total..];
      frame := frame[4..];
      taken := taken + [frame];
      return Frame(frame);
    }
  }

  /** However the bytes of `bodies` were divided into reads, and whenever frames were taken: no
      frame is refused, those taken are the first ones written, and once every byte is read and no
      frame is left they are all of them. */
  lemma FramesArrive(c: Connection, bodies: seq<Bytes>, unread: Bytes)
    requires c.Valid() && Fit(bodies, c.max) && c.stream + unread == PutFrames(bodies)
    ensures c.taken <= bodies && !NextFrame(c.inbuf, c.max).Oversized?
    ensures unread == [] && NextFrame(c.inbuf, c.max).Incomplete? ==> c.taken == bodies && c.inbuf == []
  {
    hide NextFrame, PutFrames;
    ParseBack(bodies, c.max);
    ParseAppend(c.stream, unread, c.max);
    if unread == [] {
      assert c.stream + [] == c.stream;
    }
  }
}
