/** Reading Protocol Buffers fields back (the tags of src/quick_share_wire.rs:9-372): what a decoder finds in the
    bytes of a file chunk, of an acknowledgement and of the encrypted envelope. */
module Encoding {
  import opened Prelude
  import opened Sending
  import opened FrameSize

  datatype Field = NumberOf(tag: nat, value: nat) | BytesOf(tag: nat, body: bytes)

  /** The number at the front and what follows it, unless the bytes end within it. */
  function ReadVarint(s: bytes): (r: Option<(nat, bytes)>)
    ensures r.Some? ==> |r.value.1| < |s|
  {
    if s == [] then None
    else if s[0] < 128 then Some((s[0], s[1..]))
    else
      match ReadVarint(s[1..])
      case None => None
      case Some((n, rest)) => Some((s[0] - 128 + 128 * n, rest))
  }

  /** A field is a key, which is its tag and its kind, and then a number or a counted string of octets. */
  function ReadField(s: bytes): (r: Option<(Field, bytes)>)
    ensures r.Some? ==> |r.value.1| < |s|
  {
    match ReadVarint(s)
    case None => None
    case Some((key, rest)) =>
      match ReadVarint(rest)
      case None => None
      case Some((n, body)) =>
        if key % 8 == 0 then Some((NumberOf(key / 8, n), body))
        else if key % 8 == 2 && n <= |body| then Some((BytesOf(key / 8, body[..n]), body[n..]))
        else None
  }

  /** All fields of a message, or None if it is malformed. */
  function ReadFields(s: bytes): Option<seq<Field>>
    decreases |s|
  {
    if s == [] then Some([])
    else
      match ReadField(s)
      case None => None
      case Some((field, rest)) =>
        match ReadFields(rest)
        case None => None
        case Some(fields) => Some([field] + fields)
  }

  predicate Reads(s: bytes, fields: seq<Field>) {
    ReadFields(s) == Some(fields)
  }

  /** The signed number of 64 bits that a field's value stands for. */
  function SignedValue(n: nat): int {
    if n <= MAX_I64 then n else n - 0x1_0000_0000_0000_0000
  }

  lemma TwosComplement(n: i64)
    ensures SignedValue(Unsigned64(n)) == n
  {
  }

  // ------------------------------------------------------------------

  lemma {:induction false} VarintReads(n: nat, tail: bytes)
    ensures ReadVarint(Varint(n) + tail) == Some((n, tail))
  {
    var s := Varint(n) + tail;
    if n < 128 {
      assert s[1..] == tail;
    } else {
      VarintReads(n / 128, tail);
      assert s[1..] == Varint(n / 128) + tail;
    }
  }

  /** What a message that starts with this field is read to. */
  function After(field: Field, rest: Option<seq<Field>>): Option<seq<Field>> {
    match rest
    case None => None
    case Some(fields) => Some([field] + fields)
  }

  lemma NumberReads(tag: nat, n: int, tail: bytes)
    requires 0 < tag < 16
    ensures ReadFields(NumberField(tag, n) + tail) == After(NumberOf(tag, Unsigned64(n)), ReadFields(tail))
  {
    hide Varint, Unsigned64, ReadVarint;
    var number := Varint(Unsigned64(n));
    var s := NumberField(tag, n) + tail;
    KeyReads(8 * tag, number + tail);
    assert s == [8 * tag] + (number + tail);
    VarintReads(Unsigned64(n), tail);
  }

  lemma KeyReads(key: byte, rest: bytes)
    requires key < 128
    ensures ReadVarint([key] + rest) == Some((key as nat, rest))
  {
    assert ([key] + rest)[1..] == rest;
  }

  lemma BytesRead(tag: nat, b: bytes, tail: bytes)
    requires 0 < tag < 16
    ensures ReadFields(BytesField(tag, b) + tail) == After(BytesOf(tag, b), ReadFields(tail))
  {
    hide Varint, ReadVarint;
    var s := BytesField(tag, b) + tail;
    var rest := Varint(|b|) + (b + tail);
    KeyReads(8 * tag + 2, rest);
    assert s == [8 * tag + 2] + rest;
    VarintReads(|b|, b + tail);
    assert (b + tail)[..|b|] == b && (b + tail)[|b|..] == tail;
  }

  lemma NothingReads()
    ensures ReadFields([]) == Some([])
  {
  }

  lemma NaturalReads(tag: nat, n: nat, tail: bytes)
    requires 0 < tag < 16 && n < 0x1_0000_0000_0000_0000
    ensures ReadFields(NumberField(tag, n) + tail) == After(NumberOf(tag, n), ReadFields(tail))
  {
    NumberReads(tag, n, tail);
    hide ReadFields, NumberField;
  }

  lemma RegroupThree(a: bytes, b: bytes, c: bytes)
    ensures a + b + c == a + (b + (c + []))
  {
  }

  lemma RegroupFour(a: bytes, b: bytes, c: bytes, d: bytes)
    ensures a + b + c + d == a + (b + (c + (d + [])))
  {
  }

  lemma Regroup(a: bytes, b: bytes, c: bytes, d: bytes, e: bytes, f: bytes, g: bytes)
    ensures a + b + c + d + e + f + g == a + (b + (c + (d + (e + (f + (g + []))))))
  {
  }

  lemma TwoFields(a: bytes, b: bytes)
    ensures a + b == a + (b + [])
  {
  }

  // ------------------------------------------------------------------
  // A file chunk

  lemma HeaderReads(file: OutgoingFile, name: bytes, parent: bytes, modified: i64)
    ensures Reads(HeaderBytes(file, name, parent, modified), [
              NumberOf(1, Unsigned64(file.payloadId)), NumberOf(2, 2), NumberOf(3, Unsigned64(file.size)), NumberOf(4, 0),
              BytesOf(5, name), BytesOf(6, parent), NumberOf(7, Unsigned64(modified))])
  {
    hide NumberField, BytesField, ReadFields, Unsigned64;
    var s7 := NumberField(7, modified) + [];
    var s6 := BytesField(6, parent) + s7;
    var s5 := BytesField(5, name) + s6;
    var s4 := NumberField(4, 0) + s5;
    var s3 := NumberField(3, file.size) + s4;
    var s2 := NumberField(2, 2) + s3;
    NumberReads(7, modified, []);
    BytesRead(6, parent, s7);
    BytesRead(5, name, s6);
    NaturalReads(4, 0, s5);
    NumberReads(3, file.size, s4);
    NaturalReads(2, 2, s3);
    NumberReads(1, file.payloadId, s2);
    NothingReads();
    Regroup(
      NumberField(1, file.payloadId), NumberField(2, 2), NumberField(3, file.size), NumberField(4, 0),
      BytesField(5, name), BytesField(6, parent), NumberField(7, modified));
    assert ReadFields(HeaderBytes(file, name, parent, modified)).value == [
        NumberOf(1, Unsigned64(file.payloadId)), NumberOf(2, 2), NumberOf(3, Unsigned64(file.size)), NumberOf(4, 0),
        BytesOf(5, name), BytesOf(6, parent), NumberOf(7, Unsigned64(modified))];
  }

  lemma ChunkReads(offset: nat, body: bytes, last: bool)
    ensures Reads(ChunkBytes(offset, body, last), [
              NumberOf(1, if last then 1 else 0), NumberOf(2, Unsigned64(AsI64(offset))), BytesOf(3, body)])
  {
    hide NumberField, BytesField, ReadFields, Unsigned64, AsI64;
    var flags := if last then 1 else 0;
    var s3 := BytesField(3, body) + [];
    var s2 := NumberField(2, AsI64(offset)) + s3;
    BytesRead(3, body, []);
    NumberReads(2, AsI64(offset), s3);
    NaturalReads(1, flags, s2);
    NothingReads();
    RegroupThree(NumberField(1, flags), NumberField(2, AsI64(offset)), BytesField(3, body));
    assert ReadFields(ChunkBytes(offset, body, last)).value == [
        NumberOf(1, flags), NumberOf(2, Unsigned64(AsI64(offset))), BytesOf(3, body)];
  }

  /** A message of a number and a string of octets. */
  lemma PairReads(tag: nat, n: nat, other: nat, b: bytes)
    requires 0 < tag < 16 && 0 < other < 16 && n < 0x1_0000_0000_0000_0000
    ensures Reads(NumberField(tag, n) + BytesField(other, b), [NumberOf(tag, n), BytesOf(other, b)])
  {
    hide NumberField, BytesField, ReadFields, Unsigned64;
    BytesRead(other, b, []);
    NaturalReads(tag, n, BytesField(other, b) + []);
    NothingReads();
    TwoFields(NumberField(tag, n), BytesField(other, b));
    assert ReadFields(NumberField(tag, n) + BytesField(other, b)).value == [NumberOf(tag, n), BytesOf(other, b)];
  }

  /** The bytes of a file chunk are read back, message within message, to version 1, a payload frame of a data packet, the
      file's id, kind, size, name, folder and time, and the chunk's mark, offset and body. */
  lemma FrameReads(file: OutgoingFile, name: bytes, parent: bytes, modified: i64, offset: nat, body: bytes, last: bool)
    returns (v1: bytes, transfer: bytes, header: bytes, chunk: bytes)
    ensures Reads(FrameBytes(file, name, parent, modified, offset, body, last), [NumberOf(1, 1), BytesOf(2, v1)])
    ensures Reads(v1, [NumberOf(1, 3), BytesOf(4, transfer)])
    ensures Reads(transfer, [NumberOf(1, 1), BytesOf(2, header), BytesOf(3, chunk)])
    ensures Reads(header, [
              NumberOf(1, Unsigned64(file.payloadId)), NumberOf(2, 2), NumberOf(3, Unsigned64(file.size)), NumberOf(4, 0),
              BytesOf(5, name), BytesOf(6, parent), NumberOf(7, Unsigned64(modified))])
    ensures Reads(chunk, [
              NumberOf(1, if last then 1 else 0), NumberOf(2, Unsigned64(AsI64(offset))), BytesOf(3, body)])
  {
    hide NumberField, BytesField, ReadFields, Unsigned64, AsI64, HeaderBytes, ChunkBytes;
    header, chunk := HeaderBytes(file, name, parent, modified), ChunkBytes(offset, body, last);
    HeaderReads(file, name, parent, modified);
    ChunkReads(offset, body, last);
    transfer := NumberField(1, 1) + BytesField(2, header) + BytesField(3, chunk);
    v1 := NumberField(1, 3) + BytesField(4, transfer);
    PairReads(1, 1, 2, v1);
    PairReads(1, 3, 4, transfer);
    var s3 := BytesField(3, chunk) + [];
    var s2 := BytesField(2, header) + s3;
    BytesRead(3, chunk, []);
    BytesRead(2, header, s3);
    NaturalReads(1, 1, s2);
    NothingReads();
    RegroupThree(NumberField(1, 1), BytesField(2, header), BytesField(3, chunk));
    assert ReadFields(transfer).value == [NumberOf(1, 1), BytesOf(2, header), BytesOf(3, chunk)];
  }

  /** So is an acknowledgement: version 1, a keep-alive that is an answer, and its number if there is one. */
  lemma AckReads(seqNum: Option<int>) returns (v1: bytes, keepAlive: bytes)
    ensures Reads(AckBytes(seqNum), [NumberOf(1, 1), BytesOf(2, v1)])
    ensures Reads(v1, [NumberOf(1, 5), BytesOf(6, keepAlive)])
    ensures Reads(keepAlive, [NumberOf(1, 1)] + if seqNum.Some? then [NumberOf(2, Unsigned64(seqNum.value))] else [])
  {
    hide NumberField, BytesField, ReadFields, Unsigned64;
    var number := match seqNum case Some(n) => NumberField(2, n) case None => [];
    keepAlive := NumberField(1, 1) + number;
    v1 := NumberField(1, 5) + BytesField(6, keepAlive);
    PairReads(1, 1, 2, v1);
    PairReads(1, 5, 6, keepAlive);
    NothingReads();
    NaturalReads(1, 1, number);
    if seqNum.Some? {
      NumberReads(2, seqNum.value, []);
      assert number + [] == number;
    }
    assert ReadFields(keepAlive).value == [NumberOf(1, 1)] + if seqNum.Some? then [NumberOf(2, Unsigned64(seqNum.value))] else [];
  }

  // ------------------------------------------------------------------
  // The envelope

  /** The envelope is read back to header and ciphertext, signed as one; the header to both schemes, the IV and the
      metadata; and what is encrypted to the frame and its number. */
  lemma EnvelopeReads(l: Lengths, frame: bytes, sequence: nat, iv: bytes)
    returns (content: bytes, header: bytes, metadata: bytes, plaintext: bytes)
    requires sequence <= MAX_I32
    ensures Reads(Envelope(l, frame, sequence, iv), [BytesOf(1, content), BytesOf(2, l.sign(content))])
    ensures Reads(content, [BytesOf(1, header), BytesOf(2, l.cipher(plaintext))])
    ensures Reads(header, [NumberOf(1, 1), NumberOf(2, 2), BytesOf(5, iv), BytesOf(6, metadata)])
    ensures Reads(metadata, [NumberOf(1, 13), NumberOf(2, 1)])
    ensures Reads(plaintext, [BytesOf(1, frame), NumberOf(2, sequence)])
  {
    hide NumberField, BytesField, ReadFields, Unsigned64;
    plaintext := BytesField(1, frame) + NumberField(2, sequence);
    metadata := NumberField(1, 13) + NumberField(2, 1);
    header := NumberField(1, 1) + NumberField(2, 2) + BytesField(5, iv) + BytesField(6, metadata);
    content := BytesField(1, header) + BytesField(2, l.cipher(plaintext));
    TwoStringsRead(content, l.sign(content));
    TwoStringsRead(header, l.cipher(plaintext));
    var h4 := BytesField(6, metadata) + [];
    var h3 := BytesField(5, iv) + h4;
    var h2 := NumberField(2, 2) + h3;
    BytesRead(6, metadata, []);
    BytesRead(5, iv, h4);
    NaturalReads(2, 2, h3);
    NaturalReads(1, 1, h2);
    NaturalReads(2, 1, []);
    NaturalReads(1, 13, NumberField(2, 1) + []);
    NaturalReads(2, sequence, []);
    BytesRead(1, frame, NumberField(2, sequence) + []);
    NothingReads();
    RegroupFour(NumberField(1, 1), NumberField(2, 2), BytesField(5, iv), BytesField(6, metadata));
    TwoFields(NumberField(1, 13), NumberField(2, 1));
    TwoFields(BytesField(1, frame), NumberField(2, sequence));
    assert ReadFields(header).value == [NumberOf(1, 1), NumberOf(2, 2), BytesOf(5, iv), BytesOf(6, metadata)];
    assert ReadFields(metadata).value == [NumberOf(1, 13), NumberOf(2, 1)];
    assert ReadFields(plaintext).value == [BytesOf(1, frame), NumberOf(2, sequence)];
  }

  lemma TwoStringsRead(a: bytes, b: bytes)
    ensures Reads(BytesField(1, a) + BytesField(2, b), [BytesOf(1, a), BytesOf(2, b)])
  {
    hide NumberField, BytesField, ReadFields, Unsigned64;
    BytesRead(2, b, []);
    BytesRead(1, a, BytesField(2, b) + []);
    NothingReads();
    TwoFields(BytesField(1, a), BytesField(2, b));
    assert ReadFields(BytesField(1, a) + BytesField(2, b)).value == [BytesOf(1, a), BytesOf(2, b)];
  }
}
