/**
 The packed records on the order gateway's TCP streams: little-endian fields without padding.
 Signed fields are two's complement.
 */
module Codec {

  newtype byte = x: int | 0 <= x < 256

  /** How many values fit in `k` bytes. */
  function Range(k: nat): (n: nat)
    ensures n > 0
  {
    if k == 0 then 1 else 256 * Range(k - 1)
  }

  function Pack(x: nat, k: nat): (s: seq<byte>)
    requires x < Range(k)
    ensures |s| == k
  {
    if k == 0 then [] else [(x % 256) as byte] + Pack(x / 256, k - 1)
  }

  function Unpack(s: seq<byte>): (x: nat)
    ensures x < Range(|s|)
  {
    if s == [] then 0 else s[0] as nat + 256 * Unpack(s[1..])
  }

  lemma {:induction false} UnpackPack(x: nat, k: nat)
    requires x < Range(k)
    ensures Unpack(Pack(x, k)) == x
  {
    if k > 0 {
      UnpackPack(x / 256, k - 1);
    }
  }

  lemma LowByte(b: nat, u: nat)
    requires b < 256
    ensures (b + 256 * u) % 256 == b && (b + 256 * u) / 256 == u
  {
  }

  lemma {:induction false} PackUnpack(s: seq<byte>)
    ensures Pack(Unpack(s), |s|) == s
  {
    if s != [] {
      PackUnpack(s[1..]);
      LowByte(s[0] as nat, Unpack(s[1..]));
      assert s == [s[0]] + s[1..];
    }
  }

  // ----- records of several fields

  function Width(widths: seq<nat>): nat {
    if widths == [] then 0 else widths[0] + Width(widths[1..])
  }

  ghost predicate Sized(values: seq<nat>, widths: seq<nat>) {
    |values| == |widths| && forall i | 0 <= i < |values| :: values[i] < Range(widths[i])
  }

  function PackAll(values: seq<nat>, widths: seq<nat>): (s: seq<byte>)
    requires Sized(values, widths)
    ensures |s| == Width(widths)
  {
    if values == [] then [] else Pack(values[0], widths[0]) + PackAll(values[1..], widths[1..])
  }

  function UnpackAll(s: seq<byte>, widths: seq<nat>): (values: seq<nat>)
    requires |s| == Width(widths)
    ensures Sized(values, widths)
    decreases widths
  {
    if widths == [] then [] else [Unpack(s[..widths[0]])] + UnpackAll(s[widths[0]..], widths[1..])
  }

  lemma {:induction false} FieldsRoundTrip(values: seq<nat>, widths: seq<nat>)
    requires Sized(values, widths)
    ensures UnpackAll(PackAll(values, widths), widths) == values
    decreases widths
  {
    if values != [] {
      UnpackPack(values[0], widths[0]);
      FieldsRoundTrip(values[1..], widths[1..]);
      assert PackAll(values, widths)[..widths[0]] == Pack(values[0], widths[0]);
    }
  }

  lemma {:induction false} BytesRoundTrip(s: seq<byte>, widths: seq<nat>)
    requires |s| == Width(widths)
    ensures PackAll(UnpackAll(s, widths), widths) == s
    decreases widths
  {
    hide Range, Pack, Unpack;
    if widths != [] {
      var w := widths[0];
      PackUnpack(s[..w]);
      BytesRoundTrip(s[w..], widths[1..]);
      var v := UnpackAll(s, widths);
      assert v[0] == Unpack(s[..w]) && v[1..] == UnpackAll(s[w..], widths[1..]);
      assert s == s[..w] + s[w..];
    }
  }

  // ----- signed fields

  predicate Within(x: int, k: nat) {
    var n: int := Range(k);
    -n <= 2 * x < n
  }

  function Wrap(x: int, k: nat): (u: nat)
    requires Within(x, k)
    ensures u < Range(k)
  {
    if x < 0 then x + Range(k) else x
  }

  function Unwrap(u: nat, k: nat): (x: int)
    requires u < Range(k)
    ensures Within(x, k)
  {
    if 2 * u < Range(k) then u else u - Range(k)
  }

  lemma Wrapped(x: int, u: nat, k: nat)
    ensures Within(x, k) ==> Unwrap(Wrap(x, k), k) == x
    ensures u < Range(k) ==> Wrap(Unwrap(u, k), k) == u
  {
  }

  // ----- the two records

  /** A client's request and its number on the stream. */
  datatype Request = Request(n: nat, kind: nat, client: nat, ticker: nat, oid: nat, side: int, price: int, qty: nat)

  const REQUEST_WIDTHS: seq<nat> := [8, 1, 4, 4, 8, 1, 8, 4]

  ghost predicate RequestFits(r: Request) {
    && r.n < Range(8) && r.kind < Range(1) && r.client < Range(4) && r.ticker < Range(4) && r.oid < Range(8)
    && Within(r.side, 1) && Within(r.price, 8) && r.qty < Range(4)
  }

  function RequestFields(r: Request): (v: seq<nat>)
    requires RequestFits(r)
    ensures Sized(v, REQUEST_WIDTHS)
  {
    [r.n, r.kind, r.client, r.ticker, r.oid, Wrap(r.side, 1), Wrap(r.price, 8), r.qty]
  }

  function RequestOf(v: seq<nat>): (r: Request)
    requires Sized(v, REQUEST_WIDTHS)
    ensures RequestFits(r)
  {
    SizedAt(v, REQUEST_WIDTHS, 5);
    SizedAt(v, REQUEST_WIDTHS, 6);
    AllSized8(v);
    Request(v[0], v[1], v[2], v[3], v[4], Unwrap(v[5], 1), Unwrap(v[6], 8), v[7])
  }

  lemma SizedAt(v: seq<nat>, widths: seq<nat>, i: nat)
    requires Sized(v, widths) && i < |v|
    ensures v[i] < Range(widths[i])
  {
  }

  lemma AllSized8(v: seq<nat>)
    requires Sized(v, REQUEST_WIDTHS)
    ensures v[0] < Range(8) && v[1] < Range(1) && v[2] < Range(4)
    ensures v[3] < Range(4) && v[4] < Range(8) && v[7] < Range(4)
  {
    hide Range;
    assert forall i | 0 <= i < 8 :: v[i] < Range(REQUEST_WIDTHS[i]);
  }

  function EncodeRequest(r: Request): seq<byte>
    requires RequestFits(r)
  {
    PackAll(RequestFields(r), REQUEST_WIDTHS)
  }

  function DecodeRequest(s: seq<byte>): (r: Request)
    requires |s| == Width(REQUEST_WIDTHS)
    ensures RequestFits(r)
  {
    RequestOf(UnpackAll(s, REQUEST_WIDTHS))
  }

  lemma RequestFieldsInverse(r: Request, v: seq<nat>)
    ensures RequestFits(r) ==> RequestOf(RequestFields(r)) == r
    ensures Sized(v, REQUEST_WIDTHS) ==> RequestFields(RequestOf(v)) == v
  {
    hide Range, Wrap, Unwrap;
    Wrapped(r.side, 0, 1);
    Wrapped(r.price, 0, 8);
    if Sized(v, REQUEST_WIDTHS) {
      Wrapped(0, v[5], 1);
      Wrapped(0, v[6], 8);
    }
  }

  /** Records decode to the request encoded, and every 38 bytes are the record of what they decode to. */
  lemma RequestRoundTrip(r: Request, s: seq<byte>)
    ensures RequestFits(r) ==> |EncodeRequest(r)| == 38 && DecodeRequest(EncodeRequest(r)) == r
    ensures |s| == 38 ==> Width(REQUEST_WIDTHS) == 38 && EncodeRequest(DecodeRequest(s)) == s
  {
    hide Range, Width, RequestFields, RequestOf;
    RequestWidth();
    if RequestFits(r) {
      RequestFieldsInverse(r, []);
      FieldsRoundTrip(RequestFields(r), REQUEST_WIDTHS);
    }
    if |s| == 38 {
      RequestFieldsInverse(r, UnpackAll(s, REQUEST_WIDTHS));
      BytesRoundTrip(s, REQUEST_WIDTHS);
    }
  }

  lemma RequestWidth()
    ensures Width(REQUEST_WIDTHS) == 38
  {
    WidthOf4(8, 1, 4, 4, [8, 1, 8, 4]);
    WidthOf4(8, 1, 8, 4, []);
    assert REQUEST_WIDTHS == [8, 1, 4, 4] + [8, 1, 8, 4];
    assert [8, 1, 8, 4] + [] == [8, 1, 8, 4];
  }

  lemma WidthOf4(a: nat, b: nat, c: nat, d: nat, rest: seq<nat>)
    ensures Width([a, b, c, d] + rest) == a + b + c + d + Width(rest)
  {
    WidthOf1(a, [b, c, d] + rest);
    WidthOf1(b, [c, d] + rest);
    WidthOf1(c, [d] + rest);
    WidthOf1(d, rest);
    assert [a, b, c, d] + rest == [a] + ([b, c, d] + rest);
    assert [b, c, d] + rest == [b] + ([c, d] + rest);
    assert [c, d] + rest == [c] + ([d] + rest);
  }

  lemma WidthOf1(a: nat, rest: seq<nat>)
    ensures Width([a] + rest) == a + Width(rest)
  {
    assert ([a] + rest)[1..] == rest;
  }

  /** An exchange's response and its number on the stream. */
  datatype Response =
    Response(n: nat, kind: nat, client: nat, ticker: nat, clientOid: nat, marketOid: nat,
             side: int, price: int, exec: nat, remain: nat)

  const RESPONSE_WIDTHS: seq<nat> := [8, 1, 4, 4, 8, 8, 1, 8, 4, 4]

  ghost predicate ResponseFits(r: Response) {
    && r.n < Range(8) && r.kind < Range(1) && r.client < Range(4) && r.ticker < Range(4)
    && r.clientOid < Range(8) && r.marketOid < Range(8)
    && Within(r.side, 1) && Within(r.price, 8) && r.exec < Range(4) && r.remain < Range(4)
  }

  function ResponseFields(r: Response): (v: seq<nat>)
    requires ResponseFits(r)
    ensures Sized(v, RESPONSE_WIDTHS)
  {
    [r.n, r.kind, r.client, r.ticker, r.clientOid, r.marketOid, Wrap(r.side, 1), Wrap(r.price, 8), r.exec, r.remain]
  }

  function ResponseOf(v: seq<nat>): (r: Response)
    requires Sized(v, RESPONSE_WIDTHS)
    ensures ResponseFits(r)
  {
    SizedAt(v, RESPONSE_WIDTHS, 6);
    SizedAt(v, RESPONSE_WIDTHS, 7);
    AllSized10(v);
    Response(v[0], v[1], v[2], v[3], v[4], v[5], Unwrap(v[6], 1), Unwrap(v[7], 8), v[8], v[9])
  }

  lemma AllSized10(v: seq<nat>)
    requires Sized(v, RESPONSE_WIDTHS)
    ensures v[0] < Range(8) && v[1] < Range(1) && v[2] < Range(4) && v[3] < Range(4) && v[4] < Range(8)
    ensures v[5] < Range(8) && v[8] < Range(4) && v[9] < Range(4)
  {
    hide Range;
    assert forall i | 0 <= i < 10 :: v[i] < Range(RESPONSE_WIDTHS[i]);
  }

  function EncodeResponse(r: Response): seq<byte>
    requires ResponseFits(r)
  {
    PackAll(ResponseFields(r), RESPONSE_WIDTHS)
  }

  function DecodeResponse(s: seq<byte>): (r: Response)
    requires |s| == Width(RESPONSE_WIDTHS)
    ensures ResponseFits(r)
  {
    ResponseOf(UnpackAll(s, RESPONSE_WIDTHS))
  }

  lemma ResponseFieldsInverse(r: Response, v: seq<nat>)
    ensures ResponseFits(r) ==> ResponseOf(ResponseFields(r)) == r
    ensures Sized(v, RESPONSE_WIDTHS) ==> ResponseFields(ResponseOf(v)) == v
  {
    hide Range, Wrap, Unwrap;
    Wrapped(r.side, 0, 1);
    Wrapped(r.price, 0, 8);
    if Sized(v, RESPONSE_WIDTHS) {
      Wrapped(0, v[6], 1);
      Wrapped(0, v[7], 8);
    }
  }

  lemma ResponseWidth()
    ensures Width(RESPONSE_WIDTHS) == 50
  {
    WidthOf4(8, 1, 4, 4, [8, 8, 1, 8, 4, 4]);
    WidthOf4(8, 8, 1, 8, [4, 4]);
    WidthOf1(4, [4]);
    WidthOf1(4, []);
    assert RESPONSE_WIDTHS == [8, 1, 4, 4] + [8, 8, 1, 8, 4, 4];
    assert [8, 8, 1, 8, 4, 4] == [8, 8, 1, 8] + [4, 4];
    assert [4] + [4] == [4, 4] && [4] + [] == [4];
  }

  /** Records decode to the response encoded, and every 50 bytes are the record of what they decode to. */
  lemma ResponseRoundTrip(r: Response, s: seq<byte>)
    ensures ResponseFits(r) ==> |EncodeResponse(r)| == 50 && DecodeResponse(EncodeResponse(r)) == r
    ensures |s| == 50 ==> Width(RESPONSE_WIDTHS) == 50 && EncodeResponse(DecodeResponse(s)) == s
  {
    hide Range, Width, ResponseFields, ResponseOf;
    ResponseWidth();
    if ResponseFits(r) {
      ResponseFieldsInverse(r, []);
      FieldsRoundTrip(ResponseFields(r), RESPONSE_WIDTHS);
    }
    if |s| == 50 {
      ResponseFieldsInverse(r, UnpackAll(s, RESPONSE_WIDTHS));
      BytesRoundTrip(s, RESPONSE_WIDTHS);
    }
  }

  // ----- where each field stands in the bytes

  /** The number in four bytes, the first the lowest. */
  function U32(s: seq<byte>, at: nat): nat
    requires at + 4 <= |s|
  {
    s[at] as nat + 0x100 * s[at + 1] as nat + 0x1_0000 * s[at + 2] as nat + 0x100_0000 * s[at + 3] as nat
  }

  /** The number in eight bytes, the first the lowest. */
  function U64(s: seq<byte>, at: nat): nat
    requires at + 8 <= |s|
  {
    U32(s, at) + 0x1_0000_0000 * U32(s, at + 4)
  }

  /** The signed number of the same bits. */
  function Signed(u: nat, modulus: nat): int {
    if 2 * u < modulus then u else u - modulus
  }

  lemma Unpack1(s: seq<byte>)
    requires |s| == 1
    ensures Unpack(s) == s[0] as nat
  {
  }

  lemma Unpack4(s: seq<byte>)
    requires |s| >= 4
    ensures Unpack(s) == U32(s, 0) + 0x1_0000_0000 * Unpack(s[4..])
  {
    assert Unpack(s) == s[0] as nat + 0x100 * Unpack(s[1..]);
    assert Unpack(s[1..]) == s[1] as nat + 0x100 * Unpack(s[2..]) by { assert s[1..][1..] == s[2..]; }
    assert Unpack(s[2..]) == s[2] as nat + 0x100 * Unpack(s[3..]) by { assert s[2..][1..] == s[3..]; }
    assert Unpack(s[3..]) == s[3] as nat + 0x100 * Unpack(s[4..]) by { assert s[3..][1..] == s[4..]; }
  }

  /** The number in a field of four or eight bytes. */
  lemma FieldBytes(s: seq<byte>, at: nat)
    ensures at + 1 <= |s| ==> Unpack(s[at..at + 1]) == s[at] as nat
    ensures at + 4 <= |s| ==> Unpack(s[at..at + 4]) == U32(s, at)
    ensures at + 8 <= |s| ==> Unpack(s[at..at + 8]) == U64(s, at)
  {
    hide Unpack;
    NoBytes();
    if at + 1 <= |s| {
      Unpack1(s[at..at + 1]);
    }
    if at + 4 <= |s| {
      Unpack4(s[at..at + 4]);
      assert s[at..at + 4][4..] == [];
    }
    if at + 8 <= |s| {
      var f := s[at..at + 8];
      Unpack4(f);
      Unpack4(f[4..]);
      assert f[4..][4..] == [];
    }
  }

  lemma NoBytes()
    ensures Unpack([]) == 0
  {
  }

  /** The fields from `i` on are read from byte `at` on. */
  ghost predicate From(s: seq<byte>, widths: seq<nat>, i: nat, at: nat) {
    && |s| == Width(widths) && i <= |widths| && at <= |s| && |s| - at == Width(widths[i..])
    && UnpackAll(s, widths)[i..] == UnpackAll(s[at..], widths[i..])
  }

  lemma Peel(s: seq<byte>, widths: seq<nat>, i: nat, at: nat)
    requires From(s, widths, i, at) && i < |widths|
    ensures at + widths[i] <= |s| && UnpackAll(s, widths)[i] == Unpack(s[at..at + widths[i]])
    ensures From(s, widths, i + 1, at + widths[i])
  {
    hide Unpack;
    var w, r := widths[i], widths[i..];
    assert r[1..] == widths[i + 1..];
    assert s[at..][..w] == s[at..at + w] && s[at..][w..] == s[at + w..];
    assert UnpackAll(s[at..], r) == [Unpack(s[at..at + w])] + UnpackAll(s[at + w..], r[1..]);
    assert UnpackAll(s, widths)[i] == UnpackAll(s, widths)[i..][0];
    assert UnpackAll(s, widths)[i + 1..] == UnpackAll(s, widths)[i..][1..];
  }

  lemma FromStart(s: seq<byte>, widths: seq<nat>)
    requires |s| == Width(widths)
    ensures From(s, widths, 0, 0)
  {
    assert s[0..] == s && widths[0..] == widths;
  }

  lemma Ranges()
    ensures Range(1) == 0x100 && Range(8) == 0x1_0000_0000_0000_0000
  {
    assert Range(2) == 0x1_0000 && Range(4) == 0x1_0000_0000 && Range(6) == 0x1_0000_0000_0000;
  }

  /** A request's fields, byte by byte: each little-endian at its own place. */
  predicate RequestReads(s: seq<byte>, r: Request) {
    && |s| == 38 && r.n == U64(s, 0) && r.kind == s[8] as nat && r.client == U32(s, 9) && r.ticker == U32(s, 13)
    && r.oid == U64(s, 17) && r.side == Signed(s[25] as nat, 0x100)
    && r.price == Signed(U64(s, 26), 0x1_0000_0000_0000_0000) && r.qty == U32(s, 34)
  }

  lemma RequestLayout(s: seq<byte>)
    requires |s| == Width(REQUEST_WIDTHS)
    ensures RequestReads(s, DecodeRequest(s))
  {
    hide Unpack, UnpackAll, Range, Width, From, U32, U64;
    RequestWidth();
    Ranges();
    var w := REQUEST_WIDTHS;
    FromStart(s, w);
    Peel(s, w, 0, 0);
    Peel(s, w, 1, 8);
    Peel(s, w, 2, 9);
    Peel(s, w, 3, 13);
    Peel(s, w, 4, 17);
    Peel(s, w, 5, 25);
    Peel(s, w, 6, 26);
    Peel(s, w, 7, 34);
    FieldBytes(s, 0);
    FieldBytes(s, 8);
    FieldBytes(s, 9);
    FieldBytes(s, 13);
    FieldBytes(s, 17);
    FieldBytes(s, 25);
    FieldBytes(s, 26);
    FieldBytes(s, 34);
  }

  lemma ResponseFront(s: seq<byte>)
    requires |s| == 50 == Width(RESPONSE_WIDTHS)
    ensures var v := UnpackAll(s, RESPONSE_WIDTHS);
            && v[0] == U64(s, 0) && v[1] == s[8] as nat && v[2] == U32(s, 9) && v[3] == U32(s, 13)
            && v[4] == U64(s, 17)
    ensures From(s, RESPONSE_WIDTHS, 5, 25)
  {
    hide Unpack, UnpackAll, Range, Width, From, U32, U64;
    var w := RESPONSE_WIDTHS;
    FromStart(s, w);
    Peel(s, w, 0, 0);
    Peel(s, w, 1, 8);
    Peel(s, w, 2, 9);
    Peel(s, w, 3, 13);
    Peel(s, w, 4, 17);
    FieldBytes(s, 0);
    FieldBytes(s, 8);
    FieldBytes(s, 9);
    FieldBytes(s, 13);
    FieldBytes(s, 17);
  }

  lemma ResponseBack(s: seq<byte>)
    requires |s| == 50 == Width(RESPONSE_WIDTHS) && From(s, RESPONSE_WIDTHS, 5, 25)
    ensures var v := UnpackAll(s, RESPONSE_WIDTHS);
            && v[5] == U64(s, 25) && v[6] == s[33] as nat && v[7] == U64(s, 34) && v[8] == U32(s, 42)
            && v[9] == U32(s, 46)
  {
    hide Unpack, UnpackAll, Range, Width, From, U32, U64;
    var w := RESPONSE_WIDTHS;
    Peel(s, w, 5, 25);
    Peel(s, w, 6, 33);
    Peel(s, w, 7, 34);
    Peel(s, w, 8, 42);
    Peel(s, w, 9, 46);
    FieldBytes(s, 25);
    FieldBytes(s, 33);
    FieldBytes(s, 34);
    FieldBytes(s, 42);
    FieldBytes(s, 46);
  }

  /** A response's fields, byte by byte. */
  predicate ResponseReads(s: seq<byte>, r: Response) {
    && |s| == 50 && r.n == U64(s, 0) && r.kind == s[8] as nat && r.client == U32(s, 9) && r.ticker == U32(s, 13)
    && r.clientOid == U64(s, 17) && r.marketOid == U64(s, 25) && r.side == Signed(s[33] as nat, 0x100)
    && r.price == Signed(U64(s, 34), 0x1_0000_0000_0000_0000) && r.exec == U32(s, 42) && r.remain == U32(s, 46)
  }

  lemma ResponseLayout(s: seq<byte>)
    requires |s| == Width(RESPONSE_WIDTHS)
    ensures ResponseReads(s, DecodeResponse(s))
  {
    hide UnpackAll, Range, Width, From, U32, U64;
    ResponseWidth();
    Ranges();
    ResponseFront(s);
    ResponseBack(s);
  }
}
