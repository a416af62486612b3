/** The text form of a pagination cursor: a checksummed canonical document in unpadded
    URL-safe base64 (section 5 of RFC 4648). */
module Cursor {
  import opened Common

  type Byte = b: int | 0 <= b < 256
  type Sextet = s: int | 0 <= s < 64

  // ---------------------------------------------------------------- base64 without padding

  function Head(a: Byte): Sextet {
    a as int / 4
  }

  function Middle(a: Byte, b: Byte): Sextet {
    a as int % 4 * 16 + b as int / 16
  }

  function Late(b: Byte, c: Byte): Sextet {
    b as int % 16 * 4 + c as int / 64
  }

  function Tail(c: Byte): Sextet {
    c as int % 64
  }

  function First(s: Sextet, t: Sextet): Byte {
    s as int * 4 + t as int / 16
  }

  function Second(t: Sextet, u: Sextet): Byte {
    t as int % 16 * 16 + u as int / 4
  }

  function Third(u: Sextet, v: Sextet): Byte {
    u as int % 4 * 64 + v as int
  }

  lemma BytesRestored(a: Byte, b: Byte, c: Byte)
    ensures First(Head(a), Middle(a, b)) == a
    ensures Second(Middle(a, b), Late(b, c)) == b
    ensures Third(Late(b, c), Tail(c)) == c
  {
  }

  /** Three bytes become four sextets; one or two trailing bytes become two or three. */
  function Sextets(bytes: seq<Byte>): (r: seq<Sextet>)
    ensures |r| == (4 * |bytes| + 2) / 3
  {
    if |bytes| == 0 then []
    else if |bytes| == 1 then [Head(bytes[0]), Middle(bytes[0], 0)]
    else if |bytes| == 2 then [Head(bytes[0]), Middle(bytes[0], bytes[1]), Late(bytes[1], 0)]
    else
      [Head(bytes[0]), Middle(bytes[0], bytes[1]), Late(bytes[1], bytes[2]), Tail(bytes[2])] + Sextets(bytes[3..])
  }

  /** A single left-over sextet is no byte at all. */
  function Unpacked(s: seq<Sextet>): Option<seq<Byte>> {
    if |s| == 0 then Some([])
    else if |s| == 1 then None
    else if |s| == 2 then Some([First(s[0], s[1])])
    else if |s| == 3 then Some([First(s[0], s[1]), Second(s[1], s[2])])
    else
      match Unpacked(s[4..])
      case None => None
      case Some(rest) => Some([First(s[0], s[1]), Second(s[1], s[2]), Third(s[2], s[3])] + rest)
  }

  lemma {:induction false} UnpackedSextets(bytes: seq<Byte>)
    ensures Unpacked(Sextets(bytes)) == Some(bytes)
    decreases |bytes|
  {
    hide Head, Middle, Late, Tail, First, Second, Third;
    if |bytes| == 1 {
      BytesRestored(bytes[0], 0, 0);
      assert bytes == [bytes[0]];
    } else if |bytes| == 2 {
      BytesRestored(bytes[0], bytes[1], 0);
      assert bytes == [bytes[0], bytes[1]];
    } else if |bytes| >= 3 {
      BytesRestored(bytes[0], bytes[1], bytes[2]);
      UnpackedSextets(bytes[3..]);
      assert Sextets(bytes)[4..] == Sextets(bytes[3..]);
      assert bytes == [bytes[0], bytes[1], bytes[2]] + bytes[3..];
    }
  }

  function CharOf(s: Sextet): char {
    if s < 26 then (s + 'A' as int) as char
    else if s < 52 then (s - 26 + 'a' as int) as char
    else if s < 62 then (s - 52 + '0' as int) as char
    else if s == 62 then '-' else '_'
  }

  predicate InAlphabet(c: char) {
    'A' <= c <= 'Z' || 'a' <= c <= 'z' || '0' <= c <= '9' || c == '-' || c == '_'
  }

  function SextetOf(c: char): Sextet
    requires InAlphabet(c)
  {
    if 'A' <= c <= 'Z' then c as int - 'A' as int
    else if 'a' <= c <= 'z' then c as int - 'a' as int + 26
    else if '0' <= c <= '9' then c as int - '0' as int + 52
    else if c == '-' then 62 else 63
  }

  lemma CharRoundTrip(s: Sextet)
    ensures InAlphabet(CharOf(s)) && SextetOf(CharOf(s)) == s && CharOf(s) != '='
  {
  }

  function TextOf(s: seq<Sextet>): (r: string)
    ensures |r| == |s|
    ensures forall i :: 0 <= i < |r| ==> r[i] == CharOf(s[i])
  {
    seq(|s|, i requires 0 <= i < |s| => CharOf(s[i]))
  }

  predicate AllInAlphabet(text: string) {
    forall i :: 0 <= i < |text| ==> InAlphabet(text[i])
  }

  function SextetsOf(text: string): (r: seq<Sextet>)
    requires AllInAlphabet(text)
    ensures |r| == |text|
    ensures forall i :: 0 <= i < |r| ==> r[i] == SextetOf(text[i])
  {
    seq(|text|, i requires 0 <= i < |text| => SextetOf(text[i]))
  }

  function Pads(n: nat): (r: string)
    ensures |r| == n
  {
    if n == 0 then "" else Pads(n - 1) + "="
  }

  function RStrip(text: string): (r: string)
    ensures |r| <= |text|
    decreases |text|
  {
    if text == "" || text[|text| - 1] != '=' then text else RStrip(text[..|text| - 1])
  }

  /** Missing padding of a text of this length. */
  function Missing(length: int): (n: nat)
    ensures (length + n) % 4 == 0 && n < 4
  {
    -length % 4
  }

  function B64Encode(bytes: seq<Byte>): string {
    var body := TextOf(Sextets(bytes));
    body + Pads(Missing(|body|))
  }

  /** Strict decoding: whole quads, at most two pads, nothing outside the alphabet. */
  function B64Decode(text: string): Option<seq<Byte>> {
    var body := RStrip(text);
    if |text| % 4 != 0 || |text| - |body| > 2 || !AllInAlphabet(body) then None
    else Unpacked(SextetsOf(body))
  }

  lemma {:induction false} RStripPads(body: string, n: nat)
    requires forall i :: 0 <= i < |body| ==> body[i] != '='
    ensures RStrip(body + Pads(n)) == body
    decreases n
  {
    if n == 0 {
      assert body + Pads(0) == body;
    } else {
      assert (body + Pads(n))[..|body + Pads(n)| - 1] == body + Pads(n - 1);
      RStripPads(body, n - 1);
    }
  }

  lemma SextetsLength(n: nat)
    ensures (4 * n + 2) / 3 % 4 != 1
    ensures Missing((4 * n + 2) / 3) <= 2
  {
    var k, r := n / 3, n % 3;
    assert n == 3 * k + r;
    assert (4 * n + 2) / 3 == 4 * k + (4 * r + 2) / 3;
  }

  lemma EncodedText(bytes: seq<Byte>)
    ensures RStrip(B64Encode(bytes)) == TextOf(Sextets(bytes))
    ensures AllInAlphabet(TextOf(Sextets(bytes)))
  {
    var body := TextOf(Sextets(bytes));
    forall i | 0 <= i < |body|
      ensures body[i] != '=' && InAlphabet(body[i])
    {
      CharRoundTrip(Sextets(bytes)[i]);
    }
    RStripPads(body, Missing(|body|));
  }

  lemma SextetsRoundTrip(s: seq<Sextet>)
    ensures AllInAlphabet(TextOf(s)) && SextetsOf(TextOf(s)) == s
  {
    forall i | 0 <= i < |s|
      ensures InAlphabet(TextOf(s)[i]) && SextetOf(TextOf(s)[i]) == s[i]
    {
      CharRoundTrip(s[i]);
    }
  }

  /** Decoding what stripping the padding left, after putting the padding back. */
  lemma Base64RoundTrip(bytes: seq<Byte>)
    ensures
      var cursor := RStrip(B64Encode(bytes));
      && AllInAlphabet(cursor) && |cursor| == (4 * |bytes| + 2) / 3
      && B64Decode(cursor + Pads(Missing(|cursor|))) == Some(bytes)
  {
    hide B64Encode, RStrip, Sextets, AllInAlphabet, Unpacked, Missing;
    EncodedText(bytes);
    var cursor := TextOf(Sextets(bytes));
    SextetsLength(|bytes|);
    SextetsRoundTrip(Sextets(bytes));
    NoPadsInside(cursor);
    RStripPads(cursor, Missing(|cursor|));
    UnpackedSextets(bytes);
  }

  lemma NoPadsInside(text: string)
    requires AllInAlphabet(text)
    ensures forall i :: 0 <= i < |text| ==> text[i] != '='
  {
  }

  // ---------------------------------------------------------------- what the text means

  // The URL-safe alphabet, in the order of its values.
  const CAPITALS := "ABCDEFGHIJKLMNOPQRSTUVWXYZ"
  const SMALL := "abcdefghijklmnopqrstuvwxyz"
  const DIGITS_AND_MARKS := "0123456789-_"

  lemma CapitalsInARow(s: int)
    requires 0 <= s < 26
    ensures |CAPITALS| == 26 && CAPITALS[s] as int == 'A' as int + s
  {
  }

  lemma SmallInARow(s: int)
    requires 0 <= s < 26
    ensures |SMALL| == 26 && SMALL[s] as int == 'a' as int + s
  {
  }

  /** Capitals, small letters, digits and the two marks stand for the values from 0 to 63. */
  lemma AlphabetOrder(s: Sextet)
    ensures |CAPITALS| == |SMALL| == 26 && |DIGITS_AND_MARKS| == 12
    ensures CharOf(s) == if s < 26 then CAPITALS[s as int]
                         else if s < 52 then SMALL[s as int - 26] else DIGITS_AND_MARKS[s as int - 52]
  {
    CapitalsInARow(if s < 26 then s as int else 0);
    SmallInARow(if 26 <= s < 52 then s as int - 26 else 0);
  }

  /** And nothing else is in the alphabet. */
  lemma AlphabetMembers(c: char)
    ensures InAlphabet(c) <==> exists s: Sextet :: CharOf(s) == c
  {
    if InAlphabet(c) {
      assert CharOf(SextetOf(c)) == c;
    }
  }

  /** The sextets of whole bytes are the digits of the same number to base 64; what is left of the
      last sextet after one or two bytes is zero. */
  lemma GroupsOfSextets(bytes: seq<Byte>)
    ensures
      var s := Sextets(bytes);
      && (|bytes| == 0 ==> s == [])
      && (|bytes| == 1 ==> |s| == 2 && 64 * s[0] as int + s[1] as int == 16 * bytes[0] as int)
      && (|bytes| == 2 ==>
            |s| == 3 && 4096 * s[0] as int + 64 * s[1] as int + s[2] as int
                        == 4 * (256 * bytes[0] as int + bytes[1] as int))
      && (|bytes| >= 3 ==>
            && |s| >= 4 && s[4..] == Sextets(bytes[3..])
            && 262144 * s[0] as int + 4096 * s[1] as int + 64 * s[2] as int + s[3] as int
               == 65536 * bytes[0] as int + 256 * bytes[1] as int + bytes[2] as int)
  {
  }

  lemma PairOfSextets(s: Sextet, t: Sextet, u: Sextet, v: Sextet)
    ensures First(s, t) as int == (64 * s as int + t as int) / 16
    ensures 256 * First(s, t) as int + Second(t, u) as int == (4096 * s as int + 64 * t as int + u as int) / 4
    ensures 65536 * First(s, t) as int + 256 * Second(t, u) as int + Third(u, v) as int
         == 262144 * s as int + 4096 * t as int + 64 * u as int + v as int
  {
  }

  /** And back; the bits left over of the last sextet are dropped, and one sextet alone is refused. */
  lemma {:induction false} GroupsOfBytes(s: seq<Sextet>)
    ensures
      match Unpacked(s)
      case None => |s| % 4 == 1
      case Some(bytes) =>
        && |s| % 4 != 1
        && (|s| == 0 ==> bytes == [])
        && (|s| == 2 ==> |bytes| == 1 && bytes[0] as int == (64 * s[0] as int + s[1] as int) / 16)
        && (|s| == 3 ==>
              |bytes| == 2 && 256 * bytes[0] as int + bytes[1] as int
                              == (4096 * s[0] as int + 64 * s[1] as int + s[2] as int) / 4)
        && (|s| >= 4 ==>
              && |bytes| >= 3 && Unpacked(s[4..]) == Some(bytes[3..])
              && 65536 * bytes[0] as int + 256 * bytes[1] as int + bytes[2] as int
                 == 262144 * s[0] as int + 4096 * s[1] as int + 64 * s[2] as int + s[3] as int)
    decreases |s|
  {
    hide First, Second, Third;
    if |s| >= 4 {
      GroupsOfBytes(s[4..]);
      PairOfSextets(s[0], s[1], s[2], s[3]);
    } else if |s| >= 2 {
      PairOfSextets(s[0], s[1], if |s| == 3 then s[2] else 0, 0);
    }
  }

  /** A text of the alphabet with this many pads after it. */
  predicate Padded(text: string, pads: nat) {
    && pads <= |text| && AllInAlphabet(text[..|text| - pads])
    && forall i :: |text| - pads <= i < |text| ==> text[i] == '='
  }

  lemma StripPadded(text: string, pads: nat)
    requires Padded(text, pads)
    ensures RStrip(text) == text[..|text| - pads]
  {
    var body, n := RStrip(text), |text| - pads;
    StrippedText(text);
    if |body| < n {
      LastOfBody(text, n);
    }
  }

  lemma LastOfBody(text: string, n: int)
    requires 0 < n <= |text| && AllInAlphabet(text[..n])
    ensures text[n - 1] != '='
  {
    assert InAlphabet(text[..n][n - 1]);
  }

  /** What strict decoding takes: whole quads of characters of the alphabet, of which at most the last
      two may be pads. */
  lemma B64DecodeIff(text: string)
    ensures B64Decode(text).Some? <==> |text| % 4 == 0 && exists pads :: 0 <= pads <= 2 && Padded(text, pads)
  {
    hide Unpacked, AllInAlphabet, RStrip, SextetsOf;
    var body := RStrip(text);
    StrippedText(text);
    if |text| % 4 == 0 && |text| - |body| <= 2 && AllInAlphabet(body) {
      GroupsOfBytes(SextetsOf(body));
      assert text[..|text| - (|text| - |body|)] == body;
      assert Padded(text, |text| - |body|);
    }
    forall pads | 0 <= pads <= 2 && Padded(text, pads)
      ensures |text| - |body| == pads && AllInAlphabet(body)
    {
      StripPadded(text, pads);
    }
  }

  lemma {:induction false} StrippedText(text: string)
    ensures
      var body := RStrip(text);
      && body <= text && (body == "" || body[|body| - 1] != '=')
      && forall i :: |body| <= i < |text| ==> text[i] == '='
    decreases |text|
  {
    if text != "" && text[|text| - 1] == '=' {
      StrippedText(text[..|text| - 1]);
    }
  }

  // ---------------------------------------------------------------- the cursor document

  datatype Json =
    | Null
    | Bool(flag: bool)
    | Number(number: int)
    | Words(text: string)
    | List(items: seq<Json>)
    | Object(fields: map<string, Json>)

  /** The canonical encoder, a parser of its output, and the checksum, none of them seen inside. */
  datatype Codec = Codec(
    canonical: Json -> seq<Byte>,
    parse: seq<Byte> -> Option<Json>,
    checksum: seq<Byte> -> string)

  /** The parser inverts the encoder, and an empty text is no document. */
  ghost predicate Faithful(c: Codec) {
    && (forall v :: c.parse(c.canonical(v)) == Some(v))
    && c.parse([]) == None
  }

  const LIMIT: int := 2048

  function Payload(stream: string, filters: map<string, Json>, key: seq<Json>): Json {
    Object(map["filters" := Object(filters), "key" := List(key), "stream" := Words(stream), "version" := Number(1)])
  }

  function Envelope(c: Codec, payload: Json): Json {
    Object(map["checksum" := Words(c.checksum(c.canonical(payload))), "payload" := payload])
  }

  function EncodeCursor(c: Codec, stream: string, filters: map<string, Json>, key: seq<Json>): string {
    RStrip(B64Encode(c.canonical(Envelope(c, Payload(stream, filters, key)))))
  }

  /** The key of a payload that belongs to this stream and these filters. */
  function PayloadKey(payload: Json, stream: string, filters: map<string, Json>): Option<seq<Json>> {
    if !(payload.Object? && payload.fields.Keys == {"filters", "key", "stream", "version"}) then None
    else
      var f := payload.fields;
      if && f["version"] == Number(1) && f["stream"] == Words(stream) && f["filters"] == Object(filters)
         && f["key"].List?
      then Some(f["key"].items)
      else None
  }

  /** None is the invalid-cursor error. */
  function DecodeCursor(c: Codec, cursor: string, stream: string, filters: map<string, Json>): Option<seq<Json>> {
    if !(1 <= |cursor| <= LIMIT) || !AllInAlphabet(cursor) then None
    else
      match B64Decode(cursor + Pads(Missing(|cursor|)))
      case None => None
      case Some(raw) =>
        match c.parse(raw)
        case None => None
        case Some(envelope) =>
          if raw != c.canonical(envelope) then None
          else if !(envelope.Object? && envelope.fields.Keys == {"checksum", "payload"}) then None
          else if envelope.fields["checksum"] != Words(c.checksum(c.canonical(envelope.fields["payload"]))) then None
          else PayloadKey(envelope.fields["payload"], stream, filters)
  }

  lemma PayloadRoundTrip(stream: string, filters: map<string, Json>, key: seq<Json>,
                         stream': string, filters': map<string, Json>)
    ensures
      PayloadKey(Payload(stream, filters, key), stream', filters')
        == if stream == stream' && filters == filters' then Some(key) else None
  {
    var p := Payload(stream, filters, key);
    assert p.fields.Keys == {"filters", "key", "stream", "version"};
  }

  /** A cursor decodes to its own key for its own stream and filters, and is refused for any
      other, exactly when its document is no longer than 1536 bytes: the length of the text is
      checked when a cursor is read and not when it is made. No list makes a longer one
      (`Listings.CursorFits`). */
  lemma CursorRoundTrip(c: Codec, stream: string, filters: map<string, Json>, key: seq<Json>,
                        stream': string, filters': map<string, Json>)
    requires Faithful(c)
    ensures
      var document := c.canonical(Envelope(c, Payload(stream, filters, key)));
      DecodeCursor(c, EncodeCursor(c, stream, filters, key), stream', filters')
        == if |document| <= 1536 && stream == stream' && filters == filters' then Some(key) else None
  {
    hide B64Encode, B64Decode, RStrip, Missing, AllInAlphabet, PayloadKey, Payload;
    var payload := Payload(stream, filters, key);
    var envelope := Envelope(c, payload);
    var document := c.canonical(envelope);
    Base64RoundTrip(document);
    PayloadRoundTrip(stream, filters, key, stream', filters');
    assert c.parse(document) == Some(envelope);
    assert document != [];
    assert envelope.fields.Keys == {"checksum", "payload"};
  }

  /** Whatever text decodes carries a canonical document whose checksum matches and whose stream
      and filters are the reader's own. */
  lemma AcceptedCursor(c: Codec, cursor: string, stream: string, filters: map<string, Json>)
    requires DecodeCursor(c, cursor, stream, filters).Some?
    ensures
      var key := DecodeCursor(c, cursor, stream, filters).value;
      && 1 <= |cursor| <= LIMIT
      && B64Decode(cursor + Pads(Missing(|cursor|)))
           == Some(c.canonical(Envelope(c, Payload(stream, filters, key))))
  {
    hide B64Decode, Missing, AllInAlphabet;
    var raw := B64Decode(cursor + Pads(Missing(|cursor|))).value;
    var envelope := c.parse(raw).value;
    var payload := envelope.fields["payload"];
    var key := DecodeCursor(c, cursor, stream, filters).value;
    assert payload.fields == Payload(stream, filters, key).fields;
    assert envelope.fields == Envelope(c, payload).fields;
  }

  /** A text is accepted by a list exactly when it has at most 2048 characters of the alphabet and is
      the text of a document of this stream and these filters: of an object of two fields, the payload
      and the checksum of its canonical bytes, the payload being an object of version, stream, filters
      and key. */
  lemma CursorAcceptedIff(c: Codec, cursor: string, stream: string, filters: map<string, Json>, key: seq<Json>)
    requires Faithful(c)
    ensures DecodeCursor(c, cursor, stream, filters) == Some(key) <==>
              && 1 <= |cursor| <= 2048 && AllInAlphabet(cursor)
              && exists payload: Json, document: Json ::
                   && payload == Object(map["version" := Number(1), "stream" := Words(stream),
                                            "filters" := Object(filters), "key" := List(key)])
                   && document == Object(map["payload" := payload,
                                             "checksum" := Words(c.checksum(c.canonical(payload)))])
                   && B64Decode(cursor + Pads(Missing(|cursor|))) == Some(c.canonical(document))
  {
    hide B64Decode, Missing, AllInAlphabet, Pads;
    var payload := Payload(stream, filters, key);
    var document := Envelope(c, payload);
    assert payload == Object(map["version" := Number(1), "stream" := Words(stream), "filters" := Object(filters),
                                 "key" := List(key)]);
    assert document == Object(map["payload" := payload, "checksum" := Words(c.checksum(c.canonical(payload)))]);
    if DecodeCursor(c, cursor, stream, filters) == Some(key) {
      AcceptedCursor(c, cursor, stream, filters);
    }
    if B64Decode(cursor + Pads(Missing(|cursor|))) == Some(c.canonical(document)) {
      assert c.parse(c.canonical(document)) == Some(document);
      assert document.fields.Keys == {"checksum", "payload"};
      PayloadRoundTrip(stream, filters, key, stream, filters);
    }
  }
}
