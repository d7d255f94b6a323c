// The text form of UUIDs (section 4 of RFC 9562) sorts as their bytes do.
module Uuids {
  import opened Keys
  import Conflict

  newtype Byte = b: int | 0 <= b < 256

  function HexDigit(v: nat): (c: char)
    requires v < 16
    ensures '0' <= c <= '9' || 'a' <= c <= 'f'
  {
    if v < 10 then ('0' as int + v) as char else ('a' as int + (v - 10)) as char
  }

  function HexPair(b: Byte): string
  {
    [HexDigit(b as int / 16), HexDigit(b as int % 16)]
  }

  /** Byte order: the first difference decides. */
  predicate BytesLess(a: seq<Byte>, b: seq<Byte>)
  {
    b != [] && (a == [] || a[0] < b[0] || (a[0] == b[0] && BytesLess(a[1..], b[1..])))
  }

  /** The text of the bytes of a UUID from index `i` on: hyphens before bytes 4,
      6, 8 and 10. */
  function TextFrom(bytes: seq<Byte>, i: nat): string
  {
    if bytes == [] then []
    else (if i == 4 || i == 6 || i == 8 || i == 10 then ['-'] else []) + HexPair(bytes[0]) + TextFrom(bytes[1..], i + 1)
  }

  function Text(bytes: seq<Byte>): string
    requires |bytes| == 16
  {
    TextFrom(bytes, 0)
  }

  lemma PairOrder(a: Byte, b: Byte, s: string, t: string)
    ensures Less(HexPair(a) + s, HexPair(b) + t) <==> a < b || (a == b && Less(s, t))
  {
    var (ah, al) := (a as int / 16, a as int % 16);
    var (bh, bl) := (b as int / 16, b as int % 16);
    assert a as int == 16 * ah + al && b as int == 16 * bh + bl;
    assert HexDigit(ah) < HexDigit(bh) <==> ah < bh;
    assert HexDigit(al) < HexDigit(bl) <==> al < bl;
    var x, y := HexPair(a) + s, HexPair(b) + t;
    assert x[1..] == [HexDigit(al)] + s && y[1..] == [HexDigit(bl)] + t;
    assert x[1..][1..] == s && y[1..][1..] == t;
  }

  lemma {:induction false} TextOrder(a: seq<Byte>, b: seq<Byte>, i: nat)
    requires |a| == |b|
    ensures Less(TextFrom(a, i), TextFrom(b, i)) <==> BytesLess(a, b)
  {
    if a != [] {
      TextOrder(a[1..], b[1..], i + 1);
      var h := if i == 4 || i == 6 || i == 8 || i == 10 then ['-'] else [];
      var s, t := TextFrom(a[1..], i + 1), TextFrom(b[1..], i + 1);
      PairOrder(a[0], b[0], s, t);
      assert TextFrom(a, i) == h + (HexPair(a[0]) + s) && TextFrom(b, i) == h + (HexPair(b[0]) + t);
      SamePrefix(h, HexPair(a[0]) + s, HexPair(b[0]) + t);
    }
  }

  /** Comparing device or operation ids as lowercase text, as the extension does,
      gives the server's byte order. */
  lemma TextOrderIsByteOrder(a: seq<Byte>, b: seq<Byte>)
    requires |a| == 16 && |b| == 16
    ensures Less(Text(a), Text(b)) <==> BytesLess(a, b)
    ensures Text(a) == Text(b) <==> a == b
  {
    TextOrder(a, b, 0);
    TextOrder(b, a, 0);
    Irreflexive(Text(a));
    if a != b { BytesTotal(a, b); }
  }

  lemma {:induction false} BytesTotal(a: seq<Byte>, b: seq<Byte>)
    requires |a| == |b| && a != b
    ensures BytesLess(a, b) || BytesLess(b, a)
  {
    if a[0] == b[0] {
      assert a == [a[0]] + a[1..] && b == [b[0]] + b[1..];
      BytesTotal(a[1..], b[1..]);
    }
  }

  // --- The server's ordering keys ---

  // A key as the server has it: ids as the bytes of the UUID, compared field by
  // field in this order.
  datatype ServerKey = ServerKey(lamportTimestamp: nat, deviceId: seq<Byte>, operationId: seq<Byte>)

  predicate IsUuid(id: seq<Byte>)
  {
    |id| == 16
  }

  predicate ServerAbove(a: ServerKey, b: ServerKey)
  {
    if a.lamportTimestamp != b.lamportTimestamp then a.lamportTimestamp > b.lamportTimestamp
    else if a.deviceId != b.deviceId then BytesLess(b.deviceId, a.deviceId)
    else BytesLess(b.operationId, a.operationId)
  }

  /** The same key as the extension has it. */
  function ClientKey(k: ServerKey): Conflict.OrderingKey
    requires IsUuid(k.deviceId) && IsUuid(k.operationId)
  {
    Conflict.OrderingKey(k.lamportTimestamp, Text(k.deviceId), Text(k.operationId))
  }

  /** Server and extension put any two operations in the same order. */
  lemma SameOrderOfOperations(a: ServerKey, b: ServerKey)
    requires IsUuid(a.deviceId) && IsUuid(a.operationId) && IsUuid(b.deviceId) && IsUuid(b.operationId)
    ensures ServerAbove(a, b) <==> Conflict.Above(ClientKey(a), ClientKey(b))
    ensures a == b <==> ClientKey(a) == ClientKey(b)
  {
    TextOrderIsByteOrder(a.deviceId, b.deviceId);
    TextOrderIsByteOrder(b.deviceId, a.deviceId);
    TextOrderIsByteOrder(a.operationId, b.operationId);
    TextOrderIsByteOrder(b.operationId, a.operationId);
    Irreflexive(Text(a.operationId));
    Total(Text(a.deviceId), Text(b.deviceId));
    Total(Text(a.operationId), Text(b.operationId));
    Conflict.AboveTotal(ClientKey(a), ClientKey(b));
    hide Text, BytesLess, Less;
    if Less(Text(a.deviceId), Text(b.deviceId)) { Asymmetric(Text(a.deviceId), Text(b.deviceId)); }
    if Less(Text(b.deviceId), Text(a.deviceId)) { Asymmetric(Text(b.deviceId), Text(a.deviceId)); }
    if Less(Text(a.operationId), Text(b.operationId)) { Asymmetric(Text(a.operationId), Text(b.operationId)); }
    if Less(Text(b.operationId), Text(a.operationId)) { Asymmetric(Text(b.operationId), Text(a.operationId)); }
  }
}
