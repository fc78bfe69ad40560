// Messages as bytes: a fixed header, for routed messages a name, then the payload.
module Framing {
  import opened Words
  import opened Wrappers

  const HEADER := 20

  // Bit 0 of the flag byte says that a context name follows, bit 1 marks a response.
  datatype Header = Header(from: U32, to: U32, session: U32, len: U32, kind: Byte, route: bool, response: bool)

  function Flags(h: Header): Byte {
    (if h.route then 1 else 0) + (if h.response then 2 else 0)
  }

  function HeaderBytes(h: Header): (b: Bytes)
    ensures |b| == HEADER
  {
    Bytes32(h.from) + Bytes32(h.to) + Bytes32(h.session) + Bytes32(h.len) + [h.kind, Flags(h), 0, 0]
  }

  function HeaderOf(data: Bytes): Header
    requires |data| >= HEADER
  {
    Header(Word32(data[0..4]), Word32(data[4..8]), Word32(data[8..12]), Word32(data[12..16]),
           data[16], data[17] % 2 == 1, data[17] / 2 % 2 == 1)
  }

  // parse(true): none if the bytes are too few for the header, for `len`, or for the name.
  function Parse(data: Bytes): (h: Option<Header>)
    ensures h.Some? ==> |data| >= HEADER && h.value == HeaderOf(data)
  {
    if |data| < HEADER then None else
      var h := HeaderOf(data);
      var size := |data| - HEADER;
      if size < h.len then None
      else if h.route && (size < 1 || size < data[HEADER] as int + 1) then None
      else Some(h)
  }

  predicate AllParse(msgs: seq<Bytes>) {
    forall m | m in msgs :: Parse(m).Some?
  }

  // The context name, empty unless the message is routed by name.
  function Name(data: Bytes): Bytes
    requires Parse(data).Some?
  {
    if HeaderOf(data).route then data[HEADER + 1..HEADER + 1 + data[HEADER]] else []
  }

  // Where the payload view starts and how long it is; the length wraps in 32 bits.
  function PayloadSpan(data: Bytes): (int, U32)
    requires Parse(data).Some?
  {
    var h := HeaderOf(data);
    if h.route then (HEADER + 1 + data[HEADER], Low32(h.len - 1 - data[HEADER])) else (HEADER, h.len)
  }

  predicate PayloadInside(data: Bytes)
    requires Parse(data).Some?
  {
    var (at, n) := PayloadSpan(data);
    at + n <= |data|
  }

  function Payload(data: Bytes): Bytes
    requires Parse(data).Some? && PayloadInside(data)
  {
    var (at, n) := PayloadSpan(data);
    data[at..at + n]
  }

  // parse(true) alone does not keep the payload inside the bytes: it compares the name with the
  // physical size, not with `len`. This is exactly what is missing (the second way needs more than
  // 4 GiB of bytes).
  lemma PayloadInsideExactly(data: Bytes)
    requires Parse(data).Some?
    ensures var h := HeaderOf(data);
      PayloadInside(data) <==> (h.route ==> h.len >= 1 + data[HEADER] as int || HEADER + h.len + WORD <= |data|)
  {
    var h := HeaderOf(data);
    if h.route {
      var n := h.len - 1 - data[HEADER];
      assert Low32(n) == if n >= 0 then n else n + WORD;
    }
  }

  lemma ParseAloneIsNotEnough()
    ensures exists data: Bytes :: Parse(data).Some? && !PayloadInside(data)
  {
    var h := Header(1, 1, 1, 0, 0, true, false);
    var data := HeaderBytes(h) + [0];
    HeaderRoundTrip(h, [0]);
    assert Parse(data) == Some(h);
    PayloadInsideExactly(data);
  }

  lemma HeaderRoundTrip(h: Header, tail: Bytes)
    ensures HeaderOf(HeaderBytes(h) + tail) == h
  {
    var data := HeaderBytes(h) + tail;
    assert data[0..4] == Bytes32(h.from) && data[4..8] == Bytes32(h.to);
    assert data[8..12] == Bytes32(h.session) && data[12..16] == Bytes32(h.len);
    WordRoundTrip(h.from);
    WordRoundTrip(h.to);
    WordRoundTrip(h.session);
    WordRoundTrip(h.len);
  }

  // Where the fields stand: four little-endian words, the type, the flags, two bytes of zeros.
  lemma HeaderLayout(h: Header)
    ensures var b := HeaderBytes(h);
      && |b| == 20
      && h.from == b[0] as int + 256 * b[1] as int + 65536 * b[2] as int + 16777216 * b[3] as int
      && h.to == b[4] as int + 256 * b[5] as int + 65536 * b[6] as int + 16777216 * b[7] as int
      && h.session == b[8] as int + 256 * b[9] as int + 65536 * b[10] as int + 16777216 * b[11] as int
      && h.len == b[12] as int + 256 * b[13] as int + 65536 * b[14] as int + 16777216 * b[15] as int
      && b[16] == h.kind && b[18] == b[19] == 0
      && b[17] < 4 && (b[17] % 2 == 1 <==> h.route) && (b[17] >= 2 <==> h.response)
  {
    WordRoundTrip(h.from);
    WordRoundTrip(h.to);
    WordRoundTrip(h.session);
    WordRoundTrip(h.len);
  }

  // What parse(true) accepts: every header whose length, and whose name if there is one, the bytes
  // behind it can hold.
  lemma ParsesExactly(h: Header, tail: Bytes)
    ensures var data := HeaderBytes(h) + tail;
      && (Parse(data) == None || Parse(data) == Some(h))
      && (Parse(data) == Some(h) <==> h.len <= |tail| && (h.route ==> tail != [] && tail[0] as int < |tail|))
  {
    hide HeaderBytes, HeaderOf;
    HeaderRoundTrip(h, tail);
    var data := HeaderBytes(h) + tail;
    assert tail != [] ==> data[HEADER] == tail[0];
  }

  lemma ShortBytesDoNotParse(data: Bytes)
    requires |data| < 20
    ensures Parse(data) == None
  {
  }

  // The two layouts that `make` writes.

  function Direct(source: U32, to: U32, session: U32, kind: Byte, response: bool, body: Bytes): Bytes {
    HeaderBytes(Header(source, to, session, Low32(|body|), kind, false, response)) + body
  }

  function Routed(source: U32, to: U32, name: Bytes, session: U32, kind: Byte, response: bool, body: Bytes): Bytes {
    var tail := [Low8(|name|)] + name + body;
    HeaderBytes(Header(source, to, session, Low32(|tail|), kind, true, response)) + tail
  }

  // Behind the header stand the body, or the length of the name in one byte, the name, and the body.
  lemma PayloadLayout(source: U32, to: U32, name: Bytes, session: U32, kind: Byte, response: bool, body: Bytes)
    ensures Direct(source, to, session, kind, response, body)[20..] == body
    ensures var data := Routed(source, to, name, session, kind, response, body);
      && |data| == 21 + |name| + |body| && data[20] as int == |name| % 256
      && data[21..21 + |name|] == name && data[21 + |name|..] == body
  {
    var data := Routed(source, to, name, session, kind, response, body);
    assert data[20..] == [Low8(|name|)] + name + body;
  }

  // Round trip of the direct form: it is exact for every body whose length fits the field.
  lemma DirectRoundTrip(source: U32, to: U32, session: U32, kind: Byte, response: bool, body: Bytes)
    ensures var data := Direct(source, to, session, kind, response, body);
      && Parse(data) == Some(Header(source, to, session, Low32(|body|), kind, false, response))
      && Name(data) == [] && PayloadInside(data)
      && (Payload(data) == body <==> |body| < WORD)
  {
    HeaderRoundTrip(Header(source, to, session, Low32(|body|), kind, false, response), body);
    var data := Direct(source, to, session, kind, response, body);
    assert data[HEADER..] == body;
    if |body| < WORD {
      assert Low32(|body|) == |body|;
      assert data[HEADER..HEADER + |body|] == body;
    }
  }

  // A routed message with a name of `n` bytes according to its length byte: the name is what
  // stands before that many bytes, and the payload what follows, as far as 32 bits can count.
  lemma RoutedSplits(h: Header, n: Byte, text: Bytes)
    requires h.route && h.len == Low32(1 + |text|) && n as int <= |text|
    ensures var data := HeaderBytes(h) + ([n] + text);
      && Parse(data) == Some(h) && PayloadInside(data)
      && Name(data) == text[..n] && Payload(data) == text[n..n + Low32(|text| - n)]
  {
    hide HeaderBytes, HeaderOf;
    var data := HeaderBytes(h) + ([n] + text);
    HeaderRoundTrip(h, [n] + text);
    assert data[HEADER] == n;
    assert data[HEADER + 1..] == text;
    LengthWraps(1 + |text|, 1 + n as int);
    assert Low32(|text| - n) <= |text| - n;
    assert data[HEADER + 1..HEADER + 1 + n] == text[..n];
    assert data[HEADER + 1 + n..HEADER + 1 + n + Low32(|text| - n)] == text[n..n + Low32(|text| - n)];
  }

  lemma LengthWraps(total: nat, taken: nat)
    requires taken <= total
    ensures Low32(Low32(total) - taken) == Low32(total - taken)
  {
    var q := total / WORD;
    assert total - taken == (total % WORD - taken) + q * WORD;
    AddWords(total % WORD - taken, q);
  }

  lemma {:induction false} AddWords(x: int, q: nat)
    ensures (x + q * WORD) % WORD == x % WORD
  {
    if q > 0 {
      AddWords(x, q - 1);
      assert x + q * WORD == (x + (q - 1) * WORD) + WORD;
    }
  }

  // Round trip of the routed form, for all inputs: the name's length is one byte, and the name
  // and the payload come back exactly if they fit their length fields. A payload that fits comes
  // back even where `len`, which counts the name too, has wrapped.
  lemma RoutedRoundTrip(source: U32, to: U32, name: Bytes, session: U32, kind: Byte, response: bool, body: Bytes)
    ensures var data := Routed(source, to, name, session, kind, response, body);
      && Parse(data) == Some(Header(source, to, session, Low32(1 + |name| + |body|), kind, true, response))
      && PayloadInside(data)
      && (Name(data) == name && Payload(data) == body <==> |name| <= 255 && |body| < WORD)
  {
    hide HeaderBytes, Parse, Name, Payload, PayloadInside;
    var n, text := Low8(|name|), name + body;
    assert [n] + name + body == [n] + text;
    RoutedSplits(Header(source, to, session, Low32(1 + |text|), kind, true, response), n, text);
    if |name| <= 255 {
      assert text[..n] == name && text[n..] == body;
      if |body| < WORD {
        assert text[n..n + |body|] == body;
      }
    } else {
      assert |text[..n]| < |name|;
    }
  }

  // Writing `src` over the bytes from position `at` on.
  function Overwritten(data: Bytes, at: nat, src: Bytes): (r: Bytes)
    requires at + |src| <= |data|
    ensures |r| == |data|
  {
    data[..at] + src + data[at + |src|..]
  }

  function Resized(data: Bytes, size: nat): (r: Bytes)
    ensures |r| == size
  {
    if size <= |data| then data[..size] else data + seq(size - |data|, _ => 0)
  }

  // The byte string a message is built in.
  class MessageString {
    var data: Bytes

    constructor ()
      ensures data == []
    {
      data := [];
    }

    // make, addressed to a context handle.
    method Make(source: U32, to: U32, session: U32, kind: Byte, response: bool, body: Bytes)
      modifies this
      ensures data == Direct(source, to, session, kind, response, body)
    {
      data := Resized(data, HEADER + |body|);
      data := Overwritten(data, HEADER, body);
      assert data[HEADER..] == body;
      WriteHeader(Header(source, to, session, Low32(|data| - HEADER), kind, false, response));
    }

    // make, addressed to a named context on a node.
    method MakeNamed(source: U32, nodeTo: U32, name: Bytes, session: U32, kind: Byte, response: bool, body: Bytes)
      modifies this
      ensures data == Routed(source, nodeTo, name, session, kind, response, body)
    {
      data := Resized(data, HEADER + 1 + |name| + |body|);
      ghost var d := data;
      data := data[HEADER := Low8(|name|)];
      assert data == d[..HEADER] + [Low8(|name|)] + d[HEADER + 1..];
      data := Overwritten(data, HEADER + 1, name);
      assert data == d[..HEADER] + [Low8(|name|)] + name + d[HEADER + 1 + |name|..];
      data := Overwritten(data, HEADER + 1 + |name|, body);
      assert data == d[..HEADER] + ([Low8(|name|)] + name + body);
      WriteHeader(Header(source, nodeTo, session, Low32(|data| - HEADER), kind, true, response));
    }

    method WriteHeader(h: Header)
      requires |data| >= HEADER
      modifies this
      ensures data == HeaderBytes(h) + old(data)[HEADER..]
    {
      data := Overwritten(data, 0, HeaderBytes(h));
    }
  }
}
