/** Request and response headers. */
module Header {
  import opened Common
  import opened Bytes
  import opened Wire
  import opened Versions
  import opened Schema
  import opened SchemaSize
  import opened SchemaRoundTrip

  datatype RequestHeader = RequestHeader(apiKey: int, apiVersion: int, correlationId: int, clientId: Option<Bytes>,
                                         unknown: seq<RawTag>)

  datatype ResponseHeader = ResponseHeader(correlationId: int, unknown: seq<RawTag>)

  // ---- the tagged section: a header knows no tags

  /** A message of which nothing is known. */
  const BLANK := Message(NONE, NONE, 0, b => true)

  function PutTagged(unknown: seq<RawTag>): Bytes {
    PutU(|unknown|) + PutRaws(unknown)
  }

  function TaggedSize(unknown: seq<RawTag>): nat {
    SizeU(|unknown|) + SizeRaws(unknown)
  }

  /** The section as a struct with no tagged fields of its own reads it. */
  function GetTagged(buf: Bytes): Got<seq<RawTag>> {
    var n := GetU(buf);
    if n.None? then None else OnlyRaw(DecodeTags(BLANK, End, [], [], None, n.value.0, n.value.1))
  }

  function OnlyRaw(g: Got<(seq<Value>, seq<RawTag>)>): Got<seq<RawTag>> {
    Map(g, (p: (seq<Value>, seq<RawTag>)) => p.1)
  }

  method DecodeTagged(buf: Bytes) returns (r: Got<seq<RawTag>>)
    ensures r == GetTagged(buf)
  {
    hide GetU, Take;
    var n := GetU(buf);
    if n.None? {
      return None;
    }
    var out: seq<RawTag> := [];
    var last: Option<nat> := None;
    var left := n.value.1;
    var i := 0;
    while i < n.value.0
      invariant 0 <= i <= n.value.0
      invariant GetTagged(buf) == OnlyRaw(DecodeTags(BLANK, End, [], out, last, n.value.0 - i, left))
    {
      var tag := GetU(left);
      if tag.None? || (last.Some? && tag.value.0 <= last.value) {
        return None;
      }
      var size := GetU(tag.value.1);
      if size.None? {
        return None;
      }
      var data := Take(size.value.1, size.value.0);
      if data.None? {
        return None;
      }
      last := Some(tag.value.0);
      out := out + [RawTag(tag.value.0, data.value.0)];
      left := data.value.1;
      i := i + 1;
    }
    return Some((out, left));
  }

  predicate TagsFit(unknown: seq<RawTag>) {
    |unknown| < TWO32 && UnknownConform(End, unknown, -1)
  }

  lemma TaggedBack(unknown: seq<RawTag>, rest: Bytes)
    requires TagsFit(unknown)
    ensures GetTagged(PutTagged(unknown) + rest) == Some((unknown, rest))
    ensures |PutTagged(unknown)| == TaggedSize(unknown)
  {
    hide PutU, GetU, PutRaws, SizeRaws, DecodeTags;
    Regroup(PutU(|unknown|), PutRaws(unknown), rest);
    PutUGetU(|unknown|, PutRaws(unknown) + rest);
    RawsBack(BLANK, End, [], [], unknown, None, rest);
    assert [] + unknown == unknown;
    RawSizes(unknown);
  }

  // ---- requests

  /** The client id is a legacy string in every header version. */
  function PutClient(id: Option<Bytes>): Option<Bytes> {
    if id.None? then Some(PutNullLength(false, false)) else PutBlob(id.value, false, false)
  }

  function GetClient(buf: Bytes, utf8: Bytes -> bool): Got<Option<Bytes>> {
    var b := GetNullableBlob(buf, false, false);
    if b.None? || (b.value.0.Some? && !utf8(b.value.0.value)) then None else b
  }

  function PutRequest(h: RequestHeader, version: int): Option<Bytes> {
    var client := if version >= 1 then PutClient(h.clientId) else Some([]);
    if client.None? then None
    else Some(PutInt(2, h.apiKey) + PutInt(2, h.apiVersion) + PutInt(4, h.correlationId) + client.value
              + (if version >= 2 then PutTagged(h.unknown) else []))
  }

  function RequestSize(h: RequestHeader, version: int): nat {
    8 + (if version < 1 then 0 else if h.clientId.None? then NullLengthSize(false, false)
         else LengthSize(|h.clientId.value|, false, false) + |h.clientId.value|)
    + (if version >= 2 then TaggedSize(h.unknown) else 0)
  }

  function GetRequest(buf: Bytes, version: int, utf8: Bytes -> bool): Got<RequestHeader> {
    var key :- GetFixed(buf, 2);
    var api :- GetFixed(key.1, 2);
    var id :- GetFixed(api.1, 4);
    var client :- if version >= 1 then GetClient(id.1, utf8) else Some((None, id.1));
    var unknown :- if version >= 2 then GetTagged(client.1) else Some(([], client.1));
    Some((RequestHeader(key.0, api.0, id.0, client.0, unknown.0), unknown.1))
  }

  /** What a header of this version can carry. */
  predicate RequestFits(h: RequestHeader, version: int, utf8: Bytes -> bool) {
    && IsI16(h.apiKey) && IsI16(h.apiVersion) && IsI32(h.correlationId)
    && (if version < 1 then h.clientId.None? else h.clientId.Some? ==> utf8(h.clientId.value))
    && (if version < 2 then h.unknown == [] else TagsFit(h.unknown))
  }

  lemma ClientBack(id: Option<Bytes>, utf8: Bytes -> bool, rest: Bytes)
    requires PutClient(id).Some? && (id.Some? ==> utf8(id.value))
    ensures GetClient(PutClient(id).value + rest, utf8) == Some((id, rest))
    ensures |PutClient(id).value| == if id.None? then NullLengthSize(false, false) else LengthSize(|id.value|, false, false) + |id.value|
  {
    hide PutBlob, PutNullLength, GetLength;
    LengthSizes(0, false, false);
    if id.None? {
      NullLengthBack(false, false, rest);
    } else {
      BlobBack(id.value, false, false, rest);
      BlobSizes(id.value, false, false);
    }
  }

  /** Size, and every field back, whatever follows the header. */
  lemma RequestBack(h: RequestHeader, version: int, utf8: Bytes -> bool, rest: Bytes)
    requires RequestFits(h, version, utf8) && PutRequest(h, version).Some?
    ensures GetRequest(PutRequest(h, version).value + rest, version, utf8) == Some((h, rest))
    ensures |PutRequest(h, version).value| == RequestSize(h, version)
  {
    hide PutInt, GetFixed, Pow256, PutClient, GetClient, PutTagged, GetTagged, TaggedSize, LengthSize, NullLengthSize, TagsFit;
    Widths();
    var client := if version >= 1 then PutClient(h.clientId).value else [];
    var tags := if version >= 2 then PutTagged(h.unknown) else [];
    var afterClient := tags + rest;
    var afterId := client + afterClient;
    var afterApi := PutInt(4, h.correlationId) + afterId;
    assert PutRequest(h, version).value + rest == PutInt(2, h.apiKey) + (PutInt(2, h.apiVersion) + afterApi);
    FixedBack(2, h.apiKey, PutInt(2, h.apiVersion) + afterApi);
    FixedBack(2, h.apiVersion, afterApi);
    FixedBack(4, h.correlationId, afterId);
    if version >= 1 {
      ClientBack(h.clientId, utf8, afterClient);
    } else {
      assert [] + afterClient == afterClient;
    }
    if version >= 2 {
      TaggedBack(h.unknown, rest);
    } else {
      assert [] + rest == rest;
    }
  }

  function PeekApi(buf: Bytes): Option<(int, int)> {
    if |buf| < 4 then None else Some((GetInt(buf[..2]), GetInt(buf[2..4])))
  }

  /** The dispatcher sees the key and version the decoder will. */
  lemma PeekAgrees(buf: Bytes, version: int, utf8: Bytes -> bool)
    ensures GetRequest(buf, version, utf8).Some? ==>
              var h := GetRequest(buf, version, utf8).value.0;
              PeekApi(buf) == Some((h.apiKey, h.apiVersion))
  {
    if |buf| >= 4 {
      assert buf[2..][..2] == buf[2..4];
    }
  }

  // ---- responses

  function PutResponse(h: ResponseHeader, version: int): Bytes {
    PutInt(4, h.correlationId) + (if version >= 1 then PutTagged(h.unknown) else [])
  }

  function ResponseSize(h: ResponseHeader, version: int): nat {
    4 + (if version >= 1 then TaggedSize(h.unknown) else 0)
  }

  function GetResponse(buf: Bytes, version: int): Got<ResponseHeader> {
    var id :- GetFixed(buf, 4);
    var unknown :- if version >= 1 then GetTagged(id.1) else Some(([], id.1));
    Some((ResponseHeader(id.0, unknown.0), unknown.1))
  }

  lemma ResponseBack(h: ResponseHeader, version: int, rest: Bytes)
    requires IsI32(h.correlationId) && (if version < 1 then h.unknown == [] else TagsFit(h.unknown))
    ensures GetResponse(PutResponse(h, version) + rest, version) == Some((h, rest))
    ensures |PutResponse(h, version)| == ResponseSize(h, version)
  {
    hide PutInt, GetFixed, Pow256, PutTagged, GetTagged, TaggedSize, TagsFit;
    Widths();
    var tags := if version >= 1 then PutTagged(h.unknown) else [];
    Regroup(PutInt(4, h.correlationId), tags, rest);
    FixedBack(4, h.correlationId, tags + rest);
    if version >= 1 {
      TaggedBack(h.unknown, rest);
    } else {
      assert [] + rest == rest;
    }
  }
}
