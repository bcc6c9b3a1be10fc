/** Endpoint info: the encoder (src/quick_share.rs:92-120), its three parsers (src/quick_share_qr.rs:179-190,
    src/quick_share_discovery.rs:88-105, src/quick_share_receiver.rs:378-414) and the record scanners of the
    QR code search (src/quick_share_qr.rs:150-228). */
module Endpoint {
  import opened Prelude

  const PCP_POINT_TO_POINT: byte := 0x23
  const SERVICE_ID: bytes := [0xfc, 0x9f, 0x5e]

  /** base64url without padding (section 5 of RFC 4648) and UTF-8, each an encoder with its decoder, and
      AES-128-GCM: what it makes of (key, nonce, associated data, plaintext), and what it opens. */
  datatype Codecs = Codecs(
    toText: bytes -> string, fromText: string -> Option<bytes>,
    toUtf8: string -> bytes, fromUtf8: bytes -> Option<string>,
    seal: (bytes, bytes, bytes, bytes) -> bytes, open: (bytes, bytes, bytes, bytes) -> Option<bytes>)

  ghost predicate Lawful(c: Codecs) {
    && (forall b: bytes :: c.fromText(c.toText(b)) == Some(b))
    && (forall s: string :: c.fromUtf8(c.toUtf8(s)) == Some(s))
  }

  /** Exactly what was sealed under the same key, nonce and associated data opens, to what was sealed; a tag of 16
      octets is added; and a text has one form in UTF-8. */
  ghost predicate Sealing(c: Codecs) {
    && (forall k: bytes, n: bytes, a: bytes, p: bytes, s: bytes :: c.open(k, n, a, s) == Some(p) <==> s == c.seal(k, n, a, p))
    && (forall k: bytes, n: bytes, a: bytes, p: bytes :: |c.seal(k, n, a, p)| == |p| + 16)
    && (forall b: bytes, s: string :: c.fromUtf8(b) == Some(s) <==> b == c.toUtf8(s))
  }

  datatype Device = Unknown | Phone | Tablet | Laptop

  function DeviceCode(d: Device): byte {
    match d
    case Unknown => 0
    case Phone => 1
    case Tablet => 2
    case Laptop => 3
  }

  function DeviceOf(code: int): Device {
    if code == 1 then Phone else if code == 2 then Tablet else if code == 3 then Laptop else Unknown
  }

  /** `info[0] & 0x10 != 0`. */
  predicate Hidden(b: byte) {
    b / 16 % 2 == 1
  }

  /** `(info[0] >> 1) & 0x07`. */
  function TypeBits(b: byte): int {
    b / 2 % 8
  }

  /** The first octet of an endpoint info: three bits, the hidden bit, the type, one bit. */
  lemma FirstOctet(b: byte) returns (high: nat, low: nat)
    ensures high < 8 && low < 2 && 0 <= TypeBits(b) < 8
    ensures b as int == 32 * high + (if Hidden(b) then 16 else 0) + 2 * TypeBits(b) + low
  {
    high, low := b / 32, b % 2;
    assert b / 16 == 2 * high + b / 16 % 2 && b / 2 == 8 * (b / 16) + b / 2 % 8;
  }

  /** The codes of the four types, in what is written and in what is read. */
  lemma DeviceCodes()
    ensures DeviceCode(Phone) == 1 && DeviceCode(Tablet) == 2 && DeviceCode(Laptop) == 3
    ensures forall d, code: int :: DeviceOf(code) == d <==> code == DeviceCode(d) || (d == Unknown && !(1 <= code <= 3))
  {
  }

  datatype Advertisement = Advertisement(instanceName: string, endpointInfo: string)

  // ------------------------------------------------------------------
  // The encoder

  function InfoOf(device: Device, metadata: bytes, name: bytes): bytes
    requires |name| < 256
  {
    [2 * DeviceCode(device)] + metadata + [|name|] + name
  }

  function FromParts(c: Codecs, endpointId: bytes, metadata: bytes, device: Device, displayName: string): Option<Advertisement> {
    var name := c.toUtf8(displayName);
    if name == [] || |name| > 255 then None
    else
      Some(Advertisement(
        c.toText([PCP_POINT_TO_POINT] + endpointId + SERVICE_ID + [0, 0]),
        c.toText(InfoOf(device, metadata, name))))
  }

  /** The bytes are pushed one field after the other. */
  method Build(c: Codecs, endpointId: bytes, metadata: bytes, device: Device, displayName: string) returns (r: Option<Advertisement>)
    ensures r == FromParts(c, endpointId, metadata, device, displayName)
  {
    var name := c.toUtf8(displayName);
    if name == [] || |name| > 255 {
      return None;
    }
    var instance: bytes := [];
    instance := instance + [PCP_POINT_TO_POINT];
    instance := instance + endpointId;
    instance := instance + SERVICE_ID;
    instance := instance + [0, 0];
    assert instance == [PCP_POINT_TO_POINT] + endpointId + SERVICE_ID + [0, 0];
    var info: bytes := [];
    info := info + [2 * DeviceCode(device)];
    info := info + metadata;
    info := info + [|name|];
    info := info + name;
    assert info == InfoOf(device, metadata, name);
    r := Some(Advertisement(c.toText(instance), c.toText(info)));
  }

  // ------------------------------------------------------------------
  // The three parsers

  /** The name and where it ends. */
  function ParseVisibleName(c: Codecs, info: bytes): (r: Option<(string, nat)>)
    ensures r.Some? ==> r.value.1 <= |info|
  {
    if |info| < 18 || Hidden(info[0]) then None
    else
      var end := 18 + info[17] as int;
      if end > |info| then None
      else
        var name := c.fromUtf8(info[18..end]);
        if name.None? then None else Some((name.value, end))
  }

  function DecodeVisible(c: Codecs, encoded: string): Option<(string, Device)> {
    var decoded := c.fromText(encoded);
    if decoded.None? then None
    else
      var info := decoded.value;
      if |info| < 18 || Hidden(info[0]) then None
      else
        var end := 18 + info[17] as int;
        if end > |info| then None
        else
          var name := c.fromUtf8(info[18..end]);
          if name.None? then None else Some((name.value, DeviceOf(TypeBits(info[0]))))
  }

  /** The receiver's: the hidden bit is not looked at. */
  function ParseConnectionRequest(c: Codecs, info: bytes): Option<(string, int)> {
    if |info| < 18 then None
    else
      var end := 18 + info[17] as int;
      if end > |info| then None
      else
        var name := c.fromUtf8(info[18..end]);
        if name.None? then None else Some((name.value, TypeBits(info[0])))
  }

  // ------------------------------------------------------------------
  // Records

  datatype Record = Record(recordType: byte, value: bytes)

  predicate Fit(records: seq<Record>) {
    forall i :: 0 <= i < |records| ==> |records[i].value| < 256
  }

  function EncodeRecord(r: Record): bytes
    requires |r.value| < 256
  {
    [r.recordType, |r.value|] + r.value
  }

  function EncodeRecords(records: seq<Record>): bytes
    requires Fit(records)
  {
    if records == [] then [] else EncodeRecord(records[0]) + EncodeRecords(records[1..])
  }

  /** The record at the front, if there is a whole one. */
  function FirstRecord(tail: bytes): (r: Option<Record>)
    ensures r.Some? ==> 2 + |r.value.value| <= |tail| && |r.value.value| < 256
  {
    if |tail| < 2 || 2 + tail[1] as int > |tail| then None
    else Some(Record(tail[0], tail[2..2 + tail[1] as int]))
  }

  /** What `hit` gives for the first record for which it gives anything; a cut record ends the search. */
  function FirstHit<T>(hit: Record -> Option<T>, tail: bytes): Option<T>
    decreases |tail|
  {
    var record := FirstRecord(tail);
    if record.None? then None
    else if hit(record.value).Some? then hit(record.value)
    else FirstHit(hit, tail[2 + |record.value.value|..])
  }

  function TokenHit(token: bytes): Record -> Option<()> {
    (r: Record) => if r.recordType == 1 && r.value == token then Some(()) else None
  }

  function NameHit(c: Codecs, token: bytes, key: bytes): Record -> Option<string> {
    (r: Record) =>
      if r.recordType != 1 || |r.value| < 28 then None
      else
        var plain := c.open(key, r.value[..12], token, r.value[12..]);
        if plain.None? then None else c.fromUtf8(plain.value)
  }

  /** `endpoint_if_token_matches`: the name to show, or None. */
  function TokenMatches(c: Codecs, encoded: Option<string>, token: bytes, key: bytes): Option<string> {
    if encoded.None? || c.fromText(encoded.value).None? then None
    else
      var info := c.fromText(encoded.value).value;
      if |info| < 17 then None
      else if Hidden(info[0]) then FirstHit(NameHit(c, token, key), info[17..])
      else
        var visible := ParseVisibleName(c, info);
        if visible.None? then None
        else if FirstHit(TokenHit(token), info[visible.value.1..]).Some? then Some(visible.value.0)
        else None
  }

  lemma RecordAt(info: bytes, at: nat)
    requires at + 2 <= |info| && at + 2 + info[at + 1] as int <= |info|
    ensures var value := info[at + 2..at + 2 + info[at + 1] as int];
            && FirstRecord(info[at..]) == Some(Record(info[at], value))
            && info[at..][2 + |value|..] == info[at + 2 + |value|..]
  {
    var tail := info[at..];
    assert tail[0] == info[at] && tail[1] == info[at + 1];
    assert tail[2..2 + tail[1] as int] == info[at + 2..at + 2 + info[at + 1] as int];
  }

  /** One turn of either scanning loop. */
  lemma ScanStep<T>(hit: Record -> Option<T>, info: bytes, at: nat)
    requires at <= |info|
    ensures var found := FirstHit(hit, info[at..]);
            if at + 2 > |info| || at + 2 + info[at + 1] as int > |info| then found.None?
            else
              var end := at + 2 + info[at + 1] as int;
              var record := Record(info[at], info[at + 2..end]);
              found == if hit(record).Some? then hit(record) else FirstHit(hit, info[end..])
  {
    if at + 2 <= |info| && at + 2 + info[at + 1] as int <= |info| {
      RecordAt(info, at);
    }
  }

  method DecryptHiddenName(c: Codecs, info: bytes, token: bytes, key: bytes) returns (r: Option<string>)
    requires |info| >= 17
    ensures r == FirstHit(NameHit(c, token, key), info[17..])
  {
    hide FirstHit, FirstRecord;
    var hit := NameHit(c, token, key);
    var offset := 17;
    while |info| - offset >= 2
      invariant 17 <= offset <= |info|
      invariant FirstHit(hit, info[17..]) == FirstHit(hit, info[offset..])
    {
      ScanStep(hit, info, offset);
      var recordType, length := info[offset], info[offset + 1] as int;
      offset := offset + 2;
      var end := offset + length;
      if end > |info| {
        return None;
      }
      var value := info[offset..end];
      if recordType == 1 && |value| >= 28 {
        var plain := c.open(key, value[..12], token, value[12..]);
        if plain.Some? {
          var name := c.fromUtf8(plain.value);
          if name.Some? {
            return name;
          }
        }
      }
      offset := end;
    }
    ScanStep(hit, info, offset);
    r := None;
  }

  method EndpointIfTokenMatches(c: Codecs, encoded: Option<string>, token: bytes, key: bytes) returns (r: Option<string>)
    ensures r == TokenMatches(c, encoded, token, key)
  {
    hide FirstHit, FirstRecord;
    if encoded.None? {
      return None;
    }
    var decoded := c.fromText(encoded.value);
    if decoded.None? || |decoded.value| < 17 {
      return None;
    }
    var info := decoded.value;
    if Hidden(info[0]) {
      r := DecryptHiddenName(c, info, token, key);
      return;
    }
    var visible := ParseVisibleName(c, info);
    if visible.None? {
      return None;
    }
    var (name, start) := visible.value;
    var offset := start;
    while |info| - offset >= 2
      invariant start <= offset <= |info|
      invariant FirstHit(TokenHit(token), info[start..]) == FirstHit(TokenHit(token), info[offset..])
    {
      ScanStep(TokenHit(token), info, offset);
      var recordType, length := info[offset], info[offset + 1] as int;
      offset := offset + 2;
      var end := offset + length;
      if end > |info| {
        return None;
      }
      if recordType == 1 && info[offset..end] == token {
        return Some(name);
      }
      offset := end;
    }
    ScanStep(TokenHit(token), info, offset);
    r := None;
  }

  // ------------------------------------------------------------------
  // What the scan finds

  /** The last of `records` is the first for which `hit` gives anything, and it gives `x`. */
  ghost predicate LastHits<T>(hit: Record -> Option<T>, records: seq<Record>, x: T) {
    && records != [] && hit(records[|records| - 1]) == Some(x)
    && forall i :: 0 <= i < |records| - 1 ==> hit(records[i]).None?
  }

  lemma FirstIsEncoded(tail: bytes)
    requires FirstRecord(tail).Some?
    ensures var r := FirstRecord(tail).value; tail == EncodeRecord(r) + tail[2 + |r.value|..]
  {
  }

  lemma EncodedIsFirst(records: seq<Record>, tail: bytes)
    requires records != [] && Fit(records) && EncodeRecords(records) <= tail
    ensures FirstRecord(tail) == Some(records[0])
    ensures EncodeRecords(records[1..]) <= tail[2 + |records[0].value|..]
  {
    var first, rest := EncodeRecord(records[0]), EncodeRecords(records[1..]);
    assert tail == first + rest + tail[|first + rest|..];
    assert tail[0] == first[0] && tail[1] == first[1];
    assert tail[2..2 + |records[0].value|] == records[0].value;
    assert tail[|first|..] == rest + tail[|first + rest|..];
  }

  lemma EncodeCons(r: Record, more: seq<Record>)
    requires |r.value| < 256 && Fit(more)
    ensures Fit([r] + more) && EncodeRecords([r] + more) == EncodeRecord(r) + EncodeRecords(more)
  {
    assert ([r] + more)[1..] == more;
  }

  lemma HitsCons<T>(hit: Record -> Option<T>, r: Record, more: seq<Record>, x: T)
    requires hit(r).None? && LastHits(hit, more, x)
    ensures LastHits(hit, [r] + more, x)
  {
    var records := [r] + more;
    assert records[|records| - 1] == more[|more| - 1];
    forall i | 0 <= i < |records| - 1
      ensures hit(records[i]).None?
    {
      if i > 0 {
        assert records[i] == more[i - 1];
      }
    }
  }

  lemma {:induction false} HitIsThere<T>(hit: Record -> Option<T>, tail: bytes, x: T) returns (records: seq<Record>)
    requires FirstHit(hit, tail) == Some(x)
    ensures Fit(records) && EncodeRecords(records) <= tail && LastHits(hit, records, x)
    decreases |tail|
  {
    var r := FirstRecord(tail).value;
    FirstIsEncoded(tail);
    if hit(r).Some? {
      EncodeCons(r, []);
      records := [r] + [];
      assert EncodeRecord(r) + [] == EncodeRecord(r);
    } else {
      var rest := tail[2 + |r.value|..];
      var more := HitIsThere(hit, rest, x);
      records := [r] + more;
      EncodeCons(r, more);
      HitsCons(hit, r, more, x);
      hide EncodeRecords, EncodeRecord, LastHits, FirstRecord, FirstHit;
      assert rest == EncodeRecords(more) + rest[|EncodeRecords(more)|..];
      assert tail == EncodeRecord(r) + EncodeRecords(more) + rest[|EncodeRecords(more)|..];
    }
  }

  lemma {:induction false} ThereIsHit<T>(hit: Record -> Option<T>, tail: bytes, x: T, records: seq<Record>)
    requires Fit(records) && EncodeRecords(records) <= tail && LastHits(hit, records, x)
    ensures FirstHit(hit, tail) == Some(x)
    decreases |records|
  {
    EncodedIsFirst(records, tail);
    if |records| > 1 {
      assert hit(records[0]).None?;
      ThereIsHit(hit, tail[2 + |records[0].value|..], x, records[1..]);
    }
  }

  ghost predicate Begins<T>(hit: Record -> Option<T>, tail: bytes, x: T, records: seq<Record>) {
    Fit(records) && EncodeRecords(records) <= tail && LastHits(hit, records, x)
  }

  /** The search gives `x` exactly when the bytes begin with whole records of which the last is the first hit,
      and hits with `x`. */
  lemma FirstHitIff<T>(hit: Record -> Option<T>, tail: bytes, x: T)
    ensures FirstHit(hit, tail) == Some(x) <==> exists records :: Begins(hit, tail, x, records)
  {
    if FirstHit(hit, tail) == Some(x) {
      var records := HitIsThere(hit, tail, x);
      assert Begins(hit, tail, x, records);
    }
    if records :| Begins(hit, tail, x, records) {
      ThereIsHit(hit, tail, x, records);
    }
  }

  ghost predicate Lists(tail: bytes, records: seq<Record>, token: bytes) {
    Fit(records) && EncodeRecords(records) <= tail && Record(1, token) in records
  }

  lemma {:induction false} ListedIsHit(tail: bytes, records: seq<Record>, token: bytes)
    requires Lists(tail, records, token)
    ensures FirstHit(TokenHit(token), tail).Some?
    decreases |records|
  {
    EncodedIsFirst(records, tail);
    if TokenHit(token)(records[0]).None? {
      ListedIsHit(tail[2 + |records[0].value|..], records[1..], token);
    }
  }

  /** A token is found exactly when the bytes begin with whole records of which one is of type 1 with the token. */
  lemma TokenFoundIff(tail: bytes, token: bytes)
    ensures FirstHit(TokenHit(token), tail).Some? <==> exists records :: Lists(tail, records, token)
  {
    if FirstHit(TokenHit(token), tail).Some? {
      var records := HitIsThere(TokenHit(token), tail, FirstHit(TokenHit(token), tail).value);
      assert records[|records| - 1] == Record(1, token);
      assert Lists(tail, records, token);
    }
    if records :| Lists(tail, records, token) {
      ListedIsHit(tail, records, token);
    }
  }

  // ------------------------------------------------------------------
  // Hidden names

  /** The record holds the name, sealed under the key with the token, after its nonce. */
  ghost predicate HoldsName(c: Codecs, token: bytes, key: bytes, r: Record, name: string) {
    exists nonce: bytes :: |nonce| == 12 && r == Record(1, nonce + c.seal(key, nonce, token, c.toUtf8(name)))
  }

  /** Whole records of which the last, and none before it, holds a name, this one. */
  ghost predicate FirstHolds(c: Codecs, token: bytes, key: bytes, records: seq<Record>, name: string) {
    && records != [] && HoldsName(c, token, key, records[|records| - 1], name)
    && forall i, other :: 0 <= i < |records| - 1 ==> !HoldsName(c, token, key, records[i], other)
  }

  ghost predicate BeginsWithName(c: Codecs, tail: bytes, token: bytes, key: bytes, records: seq<Record>, name: string) {
    Fit(records) && EncodeRecords(records) <= tail && FirstHolds(c, token, key, records, name)
  }

  lemma NameHitIff(c: Codecs, token: bytes, key: bytes, r: Record, name: string)
    requires Sealing(c)
    ensures NameHit(c, token, key)(r) == Some(name) <==> HoldsName(c, token, key, r, name)
  {
    if |r.value| >= 28 {
      var nonce, sealed := r.value[..12], r.value[12..];
      assert r.value == nonce + sealed;
      if NameHit(c, token, key)(r) == Some(name) {
        var plain := c.open(key, nonce, token, sealed).value;
        assert r == Record(1, nonce + c.seal(key, nonce, token, c.toUtf8(name)));
      }
    }
    if HoldsName(c, token, key, r, name) {
      var nonce: bytes :| |nonce| == 12 && r == Record(1, nonce + c.seal(key, nonce, token, c.toUtf8(name)));
      var sealed := c.seal(key, nonce, token, c.toUtf8(name));
      assert r.value[..12] == nonce && r.value[12..] == sealed && |sealed| >= 16;
      assert c.open(key, nonce, token, sealed) == Some(c.toUtf8(name)) && c.fromUtf8(c.toUtf8(name)) == Some(name);
    }
  }

  lemma NameMissIff(c: Codecs, token: bytes, key: bytes, r: Record)
    requires Sealing(c)
    ensures NameHit(c, token, key)(r).None? <==> forall name :: !HoldsName(c, token, key, r, name)
  {
    forall name
      ensures NameHit(c, token, key)(r) == Some(name) <==> HoldsName(c, token, key, r, name)
    {
      NameHitIff(c, token, key, r, name);
    }
    hide NameHit, HoldsName, Sealing;
    if NameHit(c, token, key)(r).Some? {
      assert HoldsName(c, token, key, r, NameHit(c, token, key)(r).value);
    }
  }

  lemma FirstHoldsIff(c: Codecs, token: bytes, key: bytes, records: seq<Record>, name: string)
    requires Sealing(c)
    ensures LastHits(NameHit(c, token, key), records, name) <==> FirstHolds(c, token, key, records, name)
  {
    hide NameHit, HoldsName, Sealing;
    forall i | 0 <= i < |records|
      ensures NameHit(c, token, key)(records[i]).None? <==> forall other :: !HoldsName(c, token, key, records[i], other)
    {
      NameMissIff(c, token, key, records[i]);
    }
    if records != [] {
      NameHitIff(c, token, key, records[|records| - 1], name);
    }
  }

  /** The search of a hidden endpoint gives a name exactly when its bytes after the first 17 begin with whole records of
      which the last holds that name, sealed under the name key with the token as associated data, and none before it
      holds any. */
  lemma HiddenNameFoundIff(c: Codecs, info: bytes, token: bytes, key: bytes, name: string)
    requires Lawful(c) && Sealing(c) && |info| >= 17 && Hidden(info[0])
    ensures TokenMatches(c, Some(c.toText(info)), token, key) == Some(name) <==>
            exists records :: BeginsWithName(c, info[17..], token, key, records, name)
  {
    assert c.fromText(c.toText(info)) == Some(info);
    var hit, tail := NameHit(c, token, key), info[17..];
    FirstHitIff(hit, tail, name);
    hide Lawful, Sealing, NameHit, FirstHit, LastHits, FirstHolds, Hidden;
    if records :| Begins(hit, tail, name, records) {
      FirstHoldsIff(c, token, key, records, name);
      assert BeginsWithName(c, tail, token, key, records, name);
    }
    if records :| BeginsWithName(c, tail, token, key, records, name) {
      FirstHoldsIff(c, token, key, records, name);
      assert Begins(hit, tail, name, records);
    }
  }

  // ------------------------------------------------------------------
  // Round trips and agreement

  /** On every byte string the three parsers agree when the hidden bit is clear; when it is set the two that
      look at it refuse, and the receiver's goes on as if it were clear. */
  lemma {:induction false} ParsersAgree(c: Codecs, info: bytes)
    requires Lawful(c)
    ensures var asReceiver, asScanner := ParseConnectionRequest(c, info), ParseVisibleName(c, info);
            var asBrowser := DecodeVisible(c, c.toText(info));
            if |info| >= 18 && Hidden(info[0]) then
              asScanner.None? && asBrowser.None? && asReceiver == ParseConnectionRequest(c, info[0 := info[0] - 16])
            else
              && (asReceiver.None? <==> asScanner.None?) && (asReceiver.None? <==> asBrowser.None?)
              && (asReceiver.Some? ==>
                    && asReceiver.value.0 == asScanner.value.0 == asBrowser.value.0
                    && asBrowser.value.1 == DeviceOf(asReceiver.value.1)
                    && asScanner.value.1 == 18 + info[17] as int)
  {
    assert c.fromText(c.toText(info)) == Some(info);
    hide Lawful;
    if |info| >= 18 && Hidden(info[0]) {
      ClearedIsSame(c, info);
      hide ParseConnectionRequest, Hidden;
    }
  }

  lemma SameTypeBits(b: byte)
    requires Hidden(b)
    ensures b >= 16 && TypeBits(b - 16) == TypeBits(b)
  {
  }

  lemma ClearedIsSame(c: Codecs, info: bytes)
    requires |info| >= 18 && Hidden(info[0])
    ensures ParseConnectionRequest(c, info) == ParseConnectionRequest(c, info[0 := info[0] - 16])
  {
    var cleared, end := info[0 := info[0] - 16], 18 + info[17] as int;
    SameTypeBits(info[0]);
    hide TypeBits, Hidden;
    assert cleared[17] == info[17];
    if end <= |info| {
      assert cleared[18..end] == info[18..end];
    }
  }

  lemma InfoShape(device: Device, metadata: bytes, name: bytes, more: bytes)
    requires |metadata| == 16 && |name| < 256
    ensures var info := InfoOf(device, metadata, name) + more;
            && |info| >= 18 && !Hidden(info[0]) && DeviceOf(TypeBits(info[0])) == device && TypeBits(info[0]) == DeviceCode(device) as int
            && info[17] == |name| && info[18..18 + |name|] == name && info[18 + |name|..] == more
  {
    var head: bytes := [2 * DeviceCode(device)] + metadata;
    var info := InfoOf(device, metadata, name) + more;
    assert info == head + [|name|] + name + more && |head| == 17;
    assert info[0] == 2 * DeviceCode(device);
  }

  /** For every valid name and every list of records after it, all parsers recover the name and the type, and
      the QR search succeeds exactly when some record is of type 1 with the token. */
  lemma {:induction false} EndpointRoundTrip(
    c: Codecs, endpointId: bytes, metadata: bytes, device: Device, displayName: string, records: seq<Record>, token: bytes, key: bytes)
    requires Lawful(c) && |metadata| == 16 && 0 < |c.toUtf8(displayName)| < 256 && Fit(records)
    ensures var name := c.toUtf8(displayName);
            var plain := InfoOf(device, metadata, name);
            var info := plain + EncodeRecords(records);
            && FromParts(c, endpointId, metadata, device, displayName).Some?
            && c.fromText(FromParts(c, endpointId, metadata, device, displayName).value.instanceName)
               == Some([0x23] + endpointId + [0xfc, 0x9f, 0x5e, 0, 0])
            && FromParts(c, endpointId, metadata, device, displayName).value.endpointInfo == c.toText(plain)
            && ParseVisibleName(c, info) == Some((displayName, 18 + |name|))
            && DecodeVisible(c, c.toText(info)) == Some((displayName, device))
            && ParseConnectionRequest(c, info) == Some((displayName, DeviceCode(device) as int))
            && TokenMatches(c, Some(c.toText(info)), token, key) == if Record(1, token) in records then Some(displayName) else None
  {
    var name := c.toUtf8(displayName);
    var info := InfoOf(device, metadata, name) + EncodeRecords(records);
    InfoShape(device, metadata, name, EncodeRecords(records));
    assert c.fromText(c.toText(info)) == Some(info);
    assert c.fromUtf8(name) == Some(displayName);
    var instance := [PCP_POINT_TO_POINT] + endpointId + SERVICE_ID + [0, 0];
    assert c.fromText(c.toText(instance)) == Some(instance) && instance == [0x23] + endpointId + [0xfc, 0x9f, 0x5e, 0, 0];
    AllRecordsScanned(records, token);
    hide InfoOf, EncodeRecords, FirstHit, Lawful, Hidden, TypeBits, DeviceOf, TokenHit, NameHit;
  }

  lemma {:induction false} AllRecordsScanned(records: seq<Record>, token: bytes)
    requires Fit(records)
    ensures FirstHit(TokenHit(token), EncodeRecords(records)).Some? <==> Record(1, token) in records
  {
    if records != [] {
      EncodedIsFirst(records, EncodeRecords(records));
      var rest := EncodeRecords(records)[2 + |records[0].value|..];
      assert rest == EncodeRecords(records[1..]);
      AllRecordsScanned(records[1..], token);
      assert records == [records[0]] + records[1..];
    }
  }
}
