/** The bytes of an encrypted file chunk and the 5 MiB limit of a frame (src/quick_share_sender.rs:622-653,
    src/quick_share_crypto.rs:269-311, src/quick_share_wire.rs, src/quick_share_transport.rs:45-47). Encodings
    are those of Protocol Buffers; the cipher and the signature are known by their lengths only. */
module FrameSize {
  import opened Prelude
  import opened Transport
  import opened Sending

  /** A base-128 number, least significant group first. */
  function Varint(n: nat): (r: bytes)
    ensures |r| >= 1
  {
    if n < 128 then [n] else [128 + n % 128] + Varint(n / 128)
  }

  /** A signed field is encoded as its 64-bit two's complement. */
  function Unsigned64(n: int): nat {
    n % 0x1_0000_0000_0000_0000
  }

  function NumberField(tag: nat, n: int): bytes
    requires 0 < tag < 16
  {
    [8 * tag] + Varint(Unsigned64(n))
  }

  function BytesField(tag: nat, b: bytes): bytes
    requires 0 < tag < 16
  {
    [8 * tag + 2] + Varint(|b|) + b
  }

  function HeaderBytes(file: OutgoingFile, name: bytes, parent: bytes, modified: i64): bytes {
    NumberField(1, file.payloadId) + NumberField(2, 2) + NumberField(3, file.size) + NumberField(4, 0)
    + BytesField(5, name) + BytesField(6, parent) + NumberField(7, modified)
  }

  function ChunkBytes(offset: nat, body: bytes, last: bool): bytes {
    NumberField(1, if last then 1 else 0) + NumberField(2, AsI64(offset)) + BytesField(3, body)
  }

  /** The offline frame of `send_file_chunk`. */
  function FrameBytes(file: OutgoingFile, name: bytes, parent: bytes, modified: i64, offset: nat, body: bytes, last: bool): bytes {
    var header, chunk := HeaderBytes(file, name, parent, modified), ChunkBytes(offset, body, last);
    var transfer := NumberField(1, 1) + BytesField(2, header) + BytesField(3, chunk);
    var v1 := NumberField(1, 3) + BytesField(4, transfer);
    NumberField(1, 1) + BytesField(2, v1)
  }

  /** The acknowledgement of a keep-alive. */
  function AckBytes(seqNum: Option<int>): bytes {
    var keepAlive := NumberField(1, 1) + match seqNum case Some(n) => NumberField(2, n) case None => [];
    NumberField(1, 1) + BytesField(2, NumberField(1, 5) + BytesField(6, keepAlive))
  }

  /** AES-256-CBC with PKCS #7 padding, and HMAC-SHA256. */
  datatype Lengths = Lengths(cipher: bytes -> bytes, sign: bytes -> bytes)

  ghost predicate Usual(l: Lengths) {
    && (forall p: bytes :: |l.cipher(p)| == 16 * (|p| / 16 + 1))
    && (forall b: bytes :: |l.sign(b)| == 32)
  }

  /** The envelope of `encrypt_offline_frame`. */
  function Envelope(l: Lengths, frame: bytes, sequence: nat, iv: bytes): bytes {
    var plaintext := BytesField(1, frame) + NumberField(2, sequence);
    var metadata := NumberField(1, 13) + NumberField(2, 1);
    var header := NumberField(1, 1) + NumberField(2, 2) + BytesField(5, iv) + BytesField(6, metadata);
    var content := BytesField(1, header) + BytesField(2, l.cipher(plaintext));
    BytesField(1, content) + BytesField(2, l.sign(content))
  }

  // ------------------------------------------------------------------

  function Power128(k: nat): nat {
    if k == 0 then 1 else 128 * Power128(k - 1)
  }

  lemma {:induction false} VarintLength(n: nat, k: nat)
    requires 0 < k && n < Power128(k)
    ensures |Varint(n)| <= k
  {
    if n >= 128 {
      assert k > 1 by { assert Power128(1) == 128 * Power128(0); }
      assert n / 128 < Power128(k - 1);
      VarintLength(n / 128, k - 1);
    }
  }

  lemma Powers()
    ensures Power128(4) == 0x1000_0000 && Power128(10) == 0x40_0000_0000_0000_0000
  {
    assert Power128(1) == 128 && Power128(2) == 0x4000 && Power128(3) == 0x20_0000 && Power128(4) == 0x1000_0000;
    assert Power128(5) == 0x8_0000_0000 && Power128(6) == 0x400_0000_0000 && Power128(7) == 0x2_0000_0000_0000;
    assert Power128(8) == 0x100_0000_0000_0000 && Power128(9) == 0x8000_0000_0000_0000;
  }

  lemma NumberLength(tag: nat, n: int)
    requires 0 < tag < 16
    ensures 2 <= |NumberField(tag, n)| <= 11
    ensures 0 <= n < 128 ==> |NumberField(tag, n)| == 2
  {
    Powers();
    VarintLength(Unsigned64(n), 10);
  }

  lemma BytesLength(tag: nat, b: bytes)
    requires 0 < tag < 16
    ensures |b| + 2 <= |BytesField(tag, b)|
    ensures |b| < 0x1000_0000 ==> |BytesField(tag, b)| <= |b| + 5
    ensures |b| < 128 ==> |BytesField(tag, b)| == |b| + 2
  {
    Powers();
    if |b| < 0x1000_0000 {
      VarintLength(|b|, 4);
    }
  }

  const SMALL: int := 0x200_0000

  lemma FrameLength(file: OutgoingFile, name: bytes, parent: bytes, modified: i64, offset: nat, body: bytes, last: bool)
    ensures var length, sum := |FrameBytes(file, name, parent, modified, offset, body, last)|, |name| + |parent| + |body|;
            sum + 34 <= length && (sum < SMALL ==> length <= sum + 100)
  {
    hide NumberField, BytesField;
    HeaderLength(file, name, parent, modified);
    ChunkLength(offset, body, last);
    var header, chunk := HeaderBytes(file, name, parent, modified), ChunkBytes(offset, body, last);
    hide HeaderBytes, ChunkBytes;
    NumberLength(1, 1);
    NumberLength(1, 3);
    BytesLength(2, header);
    BytesLength(3, chunk);
    var transfer := NumberField(1, 1) + BytesField(2, header) + BytesField(3, chunk);
    BytesLength(4, transfer);
    var v1 := NumberField(1, 3) + BytesField(4, transfer);
    BytesLength(2, v1);
  }

  lemma HeaderLength(file: OutgoingFile, name: bytes, parent: bytes, modified: i64)
    ensures var length, sum := |HeaderBytes(file, name, parent, modified)|, |name| + |parent|;
            sum + 14 <= length && (sum < SMALL ==> length <= sum + 47)
  {
    hide NumberField, BytesField;
    NumberLength(1, file.payloadId);
    NumberLength(2, 2);
    NumberLength(3, file.size);
    NumberLength(4, 0);
    NumberLength(7, modified);
    BytesLength(5, name);
    BytesLength(6, parent);
  }

  lemma ChunkLength(offset: nat, body: bytes, last: bool)
    ensures |body| + 6 <= |ChunkBytes(offset, body, last)|
    ensures |body| < SMALL ==> |ChunkBytes(offset, body, last)| <= |body| + 18
  {
    hide NumberField, BytesField;
    NumberLength(1, if last then 1 else 0);
    NumberLength(2, AsI64(offset));
    BytesLength(3, body);
  }

  lemma EnvelopeLength(l: Lengths, frame: bytes, sequence: nat, iv: bytes)
    requires Usual(l) && |iv| == 16
    ensures |frame| + 73 <= |Envelope(l, frame, sequence, iv)|
    ensures |frame| < 2 * SMALL ==> |Envelope(l, frame, sequence, iv)| <= |frame| + 106
  {
    hide NumberField, BytesField;
    BytesLength(1, frame);
    NumberLength(2, sequence);
    var plaintext := BytesField(1, frame) + NumberField(2, sequence);
    NumberLength(1, 13);
    NumberLength(2, 1);
    NumberLength(1, 1);
    NumberLength(2, 2);
    BytesLength(5, iv);
    var metadata := NumberField(1, 13) + NumberField(2, 1);
    BytesLength(6, metadata);
    var header := NumberField(1, 1) + NumberField(2, 2) + BytesField(5, iv) + BytesField(6, metadata);
    BytesLength(1, header);
    var body := l.cipher(plaintext);
    assert |plaintext| < |body| <= |plaintext| + 16;
    BytesLength(2, body);
    var content := BytesField(1, header) + BytesField(2, body);
    BytesLength(1, content);
    BytesLength(2, l.sign(content));
  }

  /** An encrypted file chunk can be written as one frame whenever name, parent folder and body together leave
      206 bytes of the 5 MiB; it cannot once they leave fewer than 107. */
  lemma {:induction false} ChunkFits(
    l: Lengths, file: OutgoingFile, name: bytes, parent: bytes, modified: i64, offset: nat, body: bytes, last: bool,
    sequence: nat, iv: bytes)
    requires Usual(l) && |iv| == 16
    ensures var sum := |name| + |parent| + |body|;
            var packet := Envelope(l, FrameBytes(file, name, parent, modified, offset, body, last), sequence, iv);
            && (sum <= MAX_WIRE_FRAME_BYTES - 206 ==> Sendable(packet))
            && (sum > MAX_WIRE_FRAME_BYTES - 107 ==> !Sendable(packet))
  {
    FrameLength(file, name, parent, modified, offset, body, last);
    EnvelopeLength(l, FrameBytes(file, name, parent, modified, offset, body, last), sequence, iv);
    hide FrameBytes, Envelope;
  }

  /** So every chunk of a file fits, whatever the reads, when name and parent folder take at most 4 MiB; and a
      full chunk does not fit once they take 4.5 MiB. */
  lemma {:induction false} EveryChunkFits(
    l: Lengths, file: OutgoingFile, name: bytes, parent: bytes, modified: i64, offset: nat, body: bytes, last: bool,
    sequence: nat, iv: bytes)
    requires Usual(l) && |iv| == 16 && |body| <= FILE_CHUNK_BYTES
    ensures var packet := Envelope(l, FrameBytes(file, name, parent, modified, offset, body, last), sequence, iv);
            && (|name| + |parent| <= 4 * 1024 * 1024 ==> Sendable(packet))
            && (|name| + |parent| >= 4608 * 1024 && |body| == FILE_CHUNK_BYTES ==> !Sendable(packet))
  {
    ChunkFits(l, file, name, parent, modified, offset, body, last, sequence, iv);
  }

  /** An acknowledgement always fits. */
  lemma AckFits(l: Lengths, seqNum: Option<int>, sequence: nat, iv: bytes)
    requires Usual(l) && |iv| == 16
    ensures Sendable(Envelope(l, AckBytes(seqNum), sequence, iv))
  {
    AckLength(seqNum);
    EnvelopeLength(l, AckBytes(seqNum), sequence, iv);
    hide AckBytes, Envelope;
  }

  lemma AckLength(seqNum: Option<int>)
    ensures if seqNum.None? then |AckBytes(seqNum)| == 10 else 12 <= |AckBytes(seqNum)| <= 21
  {
    hide NumberField, BytesField;
    NumberLength(1, 1);
    NumberLength(1, 5);
    if seqNum.Some? {
      NumberLength(2, seqNum.value);
    }
    var keepAlive := NumberField(1, 1) + match seqNum case Some(n) => NumberField(2, n) case None => [];
    BytesLength(6, keepAlive);
    BytesLength(2, NumberField(1, 5) + BytesField(6, keepAlive));
  }
}
