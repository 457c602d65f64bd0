/** The backup envelope of `backup_crypto.py`: framing, chunked streams, and a
    destination that appears only once the tag over the whole ciphertext holds. */
module Envelope {
  import opened Base64
  import opened Power

  /** A data key: `os.urandom(32)`. */
  type Key = b: Bytes | |b| == 32 witness seq(32, i => 0)

  /** An RSA recipient: its key file and its modulus length. */
  datatype PublicKey = PublicKey(file: Bytes, bits: nat)

  /** The JSON header's fields, before their text encoding. */
  datatype Header = Header(nonce: Bytes, recipient: Bytes, wrapped: Bytes)

  /** The cryptography and the reading of JSON: a stream cipher working on one byte at
      each position, its authentication tag, the wrapping of a data key, which may
      raise, the hash in hexadecimal, and the reading of a header. */
  datatype Suite = Suite(
    seal: (Key, Bytes, nat, Byte) -> Byte,
    open: (Key, Bytes, nat, Byte) -> Byte,
    tag: (Key, Bytes, Bytes, Bytes) -> Bytes,
    wrap: (PublicKey, Key) -> Option<Bytes>,
    unwrap: (nat, Bytes) -> Option<Key>,
    hash: Bytes -> Bytes,
    parse: Bytes -> Option<Header>)

  const CHUNK: nat := 1024 * 1024
  const TAG: nat := 16
  const MAGIC: Bytes := [76, 69, 69, 84, 80, 76, 85, 83, 45, 66, 65, 67, 75, 85, 80, 45, 49, 0]
  const WORD := 0x1_0000_0000

  const NONCE: nat := 12

  /** Modulus lengths: the shortest `encrypt` allows, the longest OpenSSL encrypts
      with, and the longest whose header `decrypt` would still read. */
  const SMALLEST_KEY := 3072
  const LARGEST_KEY := 16384
  const READABLE_KEY := 23568

  /** The header as `json.dumps` prints it: sorted keys, no spaces. */
  function Render(h: Header): Bytes {
    Ascii("{\"algorithm\":\"RSA-OAEP-SHA256+AES-256-GCM\",\"nonce\":\"") + Encode(h.nonce)
    + Ascii("\",\"recipient\":\"") + h.recipient
    + Ascii("\",\"wrappedKey\":\"") + Encode(h.wrapped) + Ascii("\"}")
  }

  /** The header of a data key for one recipient. */
  function HeaderFor(s: Suite, public: PublicKey, key: Key, nonce: Bytes): Header
    requires s.wrap(public, key).Some?
  {
    Header(nonce, s.hash(public.file), s.wrap(public, key).value)
  }

  function HeaderText(s: Suite, public: PublicKey, key: Key, nonce: Bytes): Bytes
    requires s.wrap(public, key).Some?
  {
    Render(HeaderFor(s, public, key, nonce))
  }

  /** The key can be wrapped, and the header's length fits its word. */
  predicate Sealable(s: Suite, public: PublicKey, key: Key, nonce: Bytes) {
    s.wrap(public, key).Some? && |HeaderText(s, public, key, nonce)| < 0x1_0000_0000
  }

  /** What is assumed of the suite, for one key pair: RSA output fills the modulus and
      moduli up to OpenSSL's limit are accepted, SHA-256 has 64 digits, and a header reads
      back as it was printed. */
  ghost predicate Works(s: Suite, public: PublicKey, private: nat) {
    && (forall key: Key, nonce, i: nat, b: Byte :: s.open(key, nonce, i, s.seal(key, nonce, i, b)) == b)
    && (forall key: Key, nonce, header, text :: |s.tag(key, nonce, header, text)| == TAG)
    && (forall nonce, file, wrapped :: |nonce| == NONCE ==>
          s.parse(Render(Header(nonce, s.hash(file), wrapped))) == Some(Header(nonce, s.hash(file), wrapped)))
    && (forall key: Key :: SMALLEST_KEY <= public.bits <= LARGEST_KEY ==> s.wrap(public, key).Some?)
    && (forall key: Key :: s.wrap(public, key).Some? ==>
          && |s.wrap(public, key).value| == (public.bits + 7) / 8
          && s.unwrap(private, s.wrap(public, key).value) == Some(key))
    && (forall b :: |s.hash(b)| == 64)
  }

  /** The header's length, from 677 bytes for the shortest key to 2897 for the longest. */
  lemma HeaderLength(s: Suite, public: PublicKey, private: nat, key: Key, nonce: Bytes)
    requires Works(s, public, private) && |nonce| == NONCE && s.wrap(public, key).Some?
    ensures |HeaderText(s, public, key, nonce)| == 165 + ((public.bits + 7) / 8 + 2) / 3 * 4
    ensures public.bits >= SMALLEST_KEY ==>
              (100 <= |HeaderText(s, public, key, nonce)| <= 4096 <==> public.bits <= READABLE_KEY)
  {
    var h := HeaderFor(s, public, key, nonce);
    assert |Encode(h.nonce)| == 16;
    assert |Encode(h.wrapped)| == (|h.wrapped| + 2) / 3 * 4;
  }

  // ---- The assumptions can be met.

  function Repeated(b: Byte, n: nat): Bytes {
    seq(n, i => b)
  }

  function Parts(t: Bytes): Option<Header> {
    if |t| < 165 then None else Some(Header(Decode(t[52..68]), t[83..147], Decode(t[163..|t| - 2])))
  }

  function Padded(public: PublicKey, key: Key): Option<Bytes> {
    if public.bits < SMALLEST_KEY then None else Some(key + Repeated(0, (public.bits + 7) / 8 - 32))
  }

  function Unpadded(w: Bytes): Option<Key> {
    if |w| < 32 then None else Some(w[..32])
  }

  /** A suite without secrets that has every property assumed. */
  function PlainSuite(): Suite {
    Suite((key: Key, nonce: Bytes, i: nat, b: Byte) => b, (key: Key, nonce: Bytes, i: nat, b: Byte) => b,
          (key: Key, nonce: Bytes, header: Bytes, text: Bytes) => Repeated(0, TAG),
          Padded, (private: nat, w: Bytes) => Unpadded(w), (b: Bytes) => Repeated(0, 64), Parts)
  }

  lemma RenderedParts(h: Header)
    requires |h.nonce| == NONCE && |h.recipient| == 64
    ensures Parts(Render(h)) == Some(h)
  {
    var n, w := Encode(h.nonce), Encode(h.wrapped);
    var a := Ascii("{\"algorithm\":\"RSA-OAEP-SHA256+AES-256-GCM\",\"nonce\":\"");
    var b, c, d := Ascii("\",\"recipient\":\""), Ascii("\",\"wrappedKey\":\""), Ascii("\"}");
    Base64.RoundTrip(h.nonce);
    Base64.RoundTrip(h.wrapped);
    hide Encode;
    hide Decode;
    PartsAt(a, n, b, h.recipient, c, w, d);
  }

  lemma PartsAt(a: Bytes, n: Bytes, b: Bytes, r: Bytes, c: Bytes, w: Bytes, d: Bytes)
    requires |a| == 52 && |n| == 16 && |b| == 15 && |r| == 64 && |c| == 16 && |d| == 2
    ensures var t := a + n + b + r + c + w + d;
            |t| == 165 + |w| && t[52..68] == n && t[83..147] == r && t[163..|t| - 2] == w
  {
  }

  /** For every key `encrypt` allows, what is assumed of the suite holds of some suite. */
  lemma WorksCanHold(public: PublicKey, private: nat)
    requires public.bits >= SMALLEST_KEY
    ensures Works(PlainSuite(), public, private)
  {
    var s := PlainSuite();
    forall nonce, file, wrapped | |nonce| == NONCE
      ensures s.parse(Render(Header(nonce, s.hash(file), wrapped))) == Some(Header(nonce, s.hash(file), wrapped))
    {
      RenderedParts(Header(nonce, s.hash(file), wrapped));
    }
    forall key: Key
      ensures s.wrap(public, key).Some? && s.unwrap(private, s.wrap(public, key).value) == Some(key)
    {
      assert (key + Repeated(0, (public.bits + 7) / 8 - 32))[..32] == key;
    }
  }

  /** `struct.pack(">I", n)`. */
  function Word(n: nat): (r: Bytes)
    requires n < WORD
    ensures |r| == 4
  {
    [n / 0x100_0000, n / 0x1_0000 % 0x100, n / 0x100 % 0x100, n % 0x100]
  }

  function WordValue(b: Bytes): nat
    requires |b| == 4
  {
    b[0] as nat * 0x100_0000 + b[1] as nat * 0x1_0000 + b[2] as nat * 0x100 + b[3] as nat
  }

  lemma WordRoundTrip(n: nat)
    requires n < WORD
    ensures WordValue(Word(n)) == n
  {
    assert n / 0x100 == n / 0x1_0000 * 0x100 + n / 0x100 % 0x100;
    assert n / 0x1_0000 == n / 0x100_0000 * 0x100 + n / 0x1_0000 % 0x100;
  }

  function Sealed(s: Suite, key: Key, nonce: Bytes, from: nat, text: Bytes): Bytes {
    seq(|text|, i requires 0 <= i < |text| => s.seal(key, nonce, from + i, text[i]))
  }

  function Opened(s: Suite, key: Key, nonce: Bytes, from: nat, text: Bytes): Bytes {
    seq(|text|, i requires 0 <= i < |text| => s.open(key, nonce, from + i, text[i]))
  }

  lemma OpenedSealed(s: Suite, public: PublicKey, private: nat, key: Key, nonce: Bytes, text: Bytes)
    requires Works(s, public, private)
    ensures Opened(s, key, nonce, 0, Sealed(s, key, nonce, 0, text)) == text
  {
  }

  /** Everything before the ciphertext. */
  function Front(header: Bytes): Bytes
    requires |header| < WORD
  {
    MAGIC + Word(|header|) + header
  }

  /** What `encrypt` writes. */
  function Envelop(s: Suite, public: PublicKey, key: Key, nonce: Bytes, text: Bytes): Bytes
    requires Sealable(s, public, key, nonce)
  {
    var header := HeaderText(s, public, key, nonce);
    var sealed := Sealed(s, key, nonce, 0, text);
    Front(header) + sealed + s.tag(key, nonce, header, sealed)
  }

  const HEAD: nat := |MAGIC| + 4

  /** What `decrypt` accepts, and the plaintext it then publishes. */
  function Accepted(s: Suite, private: nat, raw: Bytes): Option<Bytes> {
    if |raw| < HEAD || raw[..|MAGIC|] != MAGIC then None
    else
      var length := WordValue(raw[|MAGIC|..HEAD]);
      if !(100 <= length <= 4096) || |raw| < HEAD + length + TAG then None
      else
        var header, text, tag := raw[HEAD..HEAD + length], raw[HEAD + length..|raw| - TAG], raw[|raw| - TAG..];
        var h := s.parse(header);
        if h.None? then None
        else
          var key := s.unwrap(private, h.value.wrapped);
          if key.None? || tag != s.tag(key.value, h.value.nonce, header, text) then None
          else Some(Opened(s, key.value, h.value.nonce, 0, text))
  }

  lemma FrontParts(header: Bytes, rest: Bytes)
    requires |header| < WORD
    ensures var raw := Front(header) + rest;
            && |raw| >= HEAD && raw[..|MAGIC|] == MAGIC && raw[|MAGIC|..HEAD] == Word(|header|)
            && raw[HEAD..HEAD + |header|] == header && raw[HEAD + |header|..] == rest
  {
  }

  /** Decrypting what was encrypted gives the same bytes back, for every plaintext and
      every key that `encrypt` and its library accept. */
  lemma RoundTrip(s: Suite, public: PublicKey, private: nat, key: Key, nonce: Bytes, text: Bytes)
    requires Works(s, public, private) && |nonce| == NONCE && SMALLEST_KEY <= public.bits <= LARGEST_KEY
    ensures Sealable(s, public, key, nonce)
    ensures Accepted(s, private, Envelop(s, public, key, nonce, text)) == Some(text)
  {
    HeaderLength(s, public, private, key, nonce);
    RoundTripMargin(s, public, private, key, nonce, text);
  }

  /** The margin: a longer key, could it be wrapped, would round-trip exactly as long as
      its header stays within what `decrypt` reads. */
  lemma RoundTripMargin(s: Suite, public: PublicKey, private: nat, key: Key, nonce: Bytes, text: Bytes)
    requires Works(s, public, private) && |nonce| == NONCE && public.bits >= SMALLEST_KEY
    requires Sealable(s, public, key, nonce)
    ensures Accepted(s, private, Envelop(s, public, key, nonce, text)) ==
              if public.bits <= READABLE_KEY then Some(text) else None
  {
    hide Render;
    var h := HeaderFor(s, public, key, nonce);
    assert s.parse(Render(h)) == Some(h) && s.unwrap(private, h.wrapped) == Some(key);
    HeaderLength(s, public, private, key, nonce);
    OpenedSealed(s, public, private, key, nonce, text);
    Reads(s, private, key, h, Render(h), Sealed(s, key, nonce, 0, text));
  }

  /** What `decrypt` makes of a header, a ciphertext and its tag. */
  lemma Reads(s: Suite, private: nat, key: Key, h: Header, header: Bytes, sealed: Bytes)
    requires |header| < WORD && s.parse(header) == Some(h) && s.unwrap(private, h.wrapped) == Some(key)
    requires |s.tag(key, h.nonce, header, sealed)| == TAG
    ensures Accepted(s, private, Front(header) + sealed + s.tag(key, h.nonce, header, sealed)) ==
              if 100 <= |header| <= 4096 then Some(Opened(s, key, h.nonce, 0, sealed)) else None
  {
    var tag := s.tag(key, h.nonce, header, sealed);
    EnvelopeParts(header, sealed, tag, Front(header) + sealed + tag);
    hide Front;
    hide WordValue;
    hide Opened;
  }

  lemma EnvelopeParts(header: Bytes, sealed: Bytes, tag: Bytes, raw: Bytes)
    requires |header| < WORD && |tag| == TAG && raw == Front(header) + sealed + tag
    ensures |raw| == HEAD + |header| + |sealed| + TAG
    ensures raw[..|MAGIC|] == MAGIC && WordValue(raw[|MAGIC|..HEAD]) == |header|
    ensures raw[HEAD..HEAD + |header|] == header
    ensures raw[HEAD + |header|..|raw| - TAG] == sealed && raw[|raw| - TAG..] == tag
  {
    FrontParts(header, sealed + tag);
    assert raw == Front(header) + (sealed + tag);
    WordRoundTrip(|header|);
    var at := HEAD + |header|;
    assert raw[at..][..|sealed|] == sealed && raw[at..][|sealed|..] == tag;
  }

  /** A file by its bytes: the magic, the header's length most significant byte first,
      the header, one byte of ciphertext for each of the text, and 16 bytes of tag over
      the header and the whole ciphertext. */
  ghost predicate Framed(raw: Bytes, header: Bytes, sealed: Bytes, tag: Bytes) {
    var n := |header|;
    && |raw| == 22 + n + |sealed| + 16 && |tag| == 16
    && raw[..18] == Ascii("LEETPLUS-BACKUP-1") + [0]
    && raw[18] as int * 16777216 + raw[19] as int * 65536 + raw[20] as int * 256 + raw[21] as int == n
    && raw[22..22 + n] == header
    && raw[22 + n..|raw| - 16] == sealed
    && raw[|raw| - 16..] == tag
  }

  /** What `encrypt` writes, without the functions it is made of. */
  lemma EnvelopeLayout(s: Suite, public: PublicKey, private: nat, key: Key, nonce: Bytes, text: Bytes)
    returns (sealed: Bytes)
    requires Works(s, public, private) && Sealable(s, public, key, nonce)
    ensures var header := Ascii("{\"algorithm\":\"RSA-OAEP-SHA256+AES-256-GCM\",\"nonce\":\"") + Encode(nonce)
              + Ascii("\",\"recipient\":\"") + s.hash(public.file)
              + Ascii("\",\"wrappedKey\":\"") + Encode(s.wrap(public, key).value) + Ascii("\"}");
            Framed(Envelop(s, public, key, nonce, text), header, sealed, s.tag(key, nonce, header, sealed))
    ensures |sealed| == |text| && forall i :: 0 <= i < |text| ==> sealed[i] == s.seal(key, nonce, i, text[i])
  {
    var header := HeaderText(s, public, key, nonce);
    sealed := Sealed(s, key, nonce, 0, text);
    FramedParts(header, sealed, s.tag(key, nonce, header, sealed), Envelop(s, public, key, nonce, text));
  }

  lemma FramedParts(header: Bytes, sealed: Bytes, tag: Bytes, raw: Bytes)
    requires |header| < WORD && |tag| == TAG && raw == Front(header) + sealed + tag
    ensures Framed(raw, header, sealed, tag)
  {
    EnvelopeParts(header, sealed, tag, raw);
    assert MAGIC == Ascii("LEETPLUS-BACKUP-1") + [0];
    var length := raw[|MAGIC|..HEAD];
    assert forall i :: 0 <= i < 4 ==> length[i] == raw[18 + i];
    assert raw[22..22 + |header|] == header;
    assert raw[22 + |header|..|raw| - 16] == sealed;
  }

  lemma FrontReads(raw: Bytes)
    requires |raw| >= 22
    ensures raw[..|MAGIC|] == MAGIC <==> raw[..18] == Ascii("LEETPLUS-BACKUP-1") + [0]
    ensures WordValue(raw[|MAGIC|..HEAD]) ==
              raw[18] as int * 16777216 + raw[19] as int * 65536 + raw[20] as int * 256 + raw[21] as int
  {
    assert MAGIC == Ascii("LEETPLUS-BACKUP-1") + [0];
    var length := raw[|MAGIC|..HEAD];
    assert forall i :: 0 <= i < 4 ==> length[i] == raw[18 + i];
  }

  /** `decrypt` publishes a text exactly for the files framed as above whose header reads,
      is between 100 and 4096 bytes, holds a key the private key opens, and whose tag is
      that key's over the header and the whole ciphertext. */
  lemma AcceptedLayout(s: Suite, private: nat, raw: Bytes, text: Bytes)
    ensures Accepted(s, private, raw) == Some(text) <==>
              exists header, sealed, h, key :: Authentic(s, private, raw, text, header, sealed, h, key)
  {
    if |raw| >= 22 {
      FrontReads(raw);
    }
    hide WordValue;
    hide Ascii;
    if Accepted(s, private, raw) == Some(text) {
      var n := WordValue(raw[|MAGIC|..HEAD]);
      var header, sealed := raw[HEAD..HEAD + n], raw[HEAD + n..|raw| - TAG];
      var h := s.parse(header).value;
      assert Authentic(s, private, raw, text, header, sealed, h, s.unwrap(private, h.wrapped).value);
    }
    if header, sealed, h, key :| Authentic(s, private, raw, text, header, sealed, h, key) {
      assert Opened(s, key, h.nonce, 0, sealed) == text;
    }
  }

  ghost predicate Authentic(s: Suite, private: nat, raw: Bytes, text: Bytes,
                            header: Bytes, sealed: Bytes, h: Header, key: Key) {
    && Framed(raw, header, sealed, s.tag(key, h.nonce, header, sealed))
    && 100 <= |header| <= 4096 && s.parse(header) == Some(h) && s.unwrap(private, h.wrapped) == Some(key)
    && |sealed| == |text| && forall i :: 0 <= i < |text| ==> text[i] == s.open(key, h.nonce, i, sealed[i])
  }

  // ---- The two programs.

  /** The destination, and the temporary beside it. */
  datatype Folder = Folder(destination: Option<Bytes>, partial: Option<Bytes>)

  method Append(m: Machine<Folder>, block: Bytes) returns (r: Status)
    requires m.disk.partial.Some?
    modifies m
    ensures r == if old(m.power) == 0 then PowerLost else Ok
    ensures m.disk == if r.Ok? then old(m.disk).(partial := Some(old(m.disk).partial.value + block)) else old(m.disk)
    ensures m.power == if r.Ok? then old(m.power) - 1 else 0
  {
    r := m.Put(m.disk.(partial := Some(m.disk.partial.value + block)));
  }

  function Chunks(length: nat): nat {
    (length + CHUNK - 1) / CHUNK
  }

  lemma OneMoreChunk(at: nat, length: nat)
    requires at <= length
    ensures at < length ==> Chunks(length - at) == 1 + Chunks(length - at - Least(CHUNK, length - at))
  {
    if CHUNK < length - at {
      assert (length - at + CHUNK - 1) == (length - at - CHUNK + CHUNK - 1) + CHUNK;
    }
  }

  function Least(a: nat, b: nat): nat {
    if a <= b then a else b
  }

  /** The read loop of `encrypt`: chunk after chunk, until a read comes back empty. */
  method SealAll(m: Machine<Folder>, s: Suite, key: Key, nonce: Bytes, source: Bytes) returns (r: Status, sealed: Bytes)
    requires m.disk.partial.Some?
    modifies m
    ensures m.disk.destination == old(m.disk).destination && m.disk.partial.Some?
    ensures r.Ok? ==> sealed == Sealed(s, key, nonce, 0, source)
                      && m.disk.partial.value == old(m.disk).partial.value + sealed
    ensures !r.Refused? && (r.PowerLost? <==> old(m.power) < Chunks(|source|))
    ensures r.Ok? ==> m.power == old(m.power) - Chunks(|source|)
  {
    sealed := [];
    r := Ok;
    var at := 0;
    assert old(m.disk).partial.value + sealed == m.disk.partial.value;
    while true
      invariant r.Ok?
      invariant at <= |source| && sealed == Sealed(s, key, nonce, 0, source[..at])
      invariant m.disk == old(m.disk).(partial := Some(old(m.disk).partial.value + sealed))
      invariant m.power + Chunks(|source|) == old(m.power) + Chunks(|source| - at)
      decreases |source| - at
    {
      var block := source[at..at + Least(CHUNK, |source| - at)];
      if block == [] {
        break;
      }
      OneMoreChunk(at, |source|);
      assert source[..at] + block == source[..at + |block|];
      var next := Sealed(s, key, nonce, at, block);
      assert sealed + next == Sealed(s, key, nonce, 0, source[..at + |block|]);
      assert old(m.disk).partial.value + (sealed + next) == old(m.disk).partial.value + sealed + next;
      r := Append(m, next);
      if !r.Ok? { return; }
      sealed, at := sealed + next, at + |block|;
    }
    assert source[..at] == source;
  }

  /** The checks of `encrypt` before it creates anything. */
  predicate MayEncrypt(d: Folder, s: Suite, public: PublicKey, key: Key) {
    d == Folder(None, None) && public.bits >= 3072 && s.wrap(public, key).Some?
  }

  /** `encrypt`, with the data key and nonce it drew. A header too long for its length
      word raises after the temporary was created, which then stays. */
  method Encrypt(m: Machine<Folder>, s: Suite, public: PublicKey, key: Key, nonce: Bytes, source: Bytes)
    returns (r: Status)
    modifies m
    ensures r.Ok? ==> MayEncrypt(old(m.disk), s, public, key) && Sealable(s, public, key, nonce)
                      && m.disk == Folder(Some(Envelop(s, public, key, nonce, source)), None)
    ensures r.Refused? <==> !MayEncrypt(old(m.disk), s, public, key)
                            || (old(m.power) > 0 && !Sealable(s, public, key, nonce))
    ensures r.Refused? ==> m.disk == old(m.disk)
                           || (!Sealable(s, public, key, nonce) && m.disk == Folder(None, Some([])))
    ensures m.disk.destination.Some? && old(m.disk).destination.None? ==>
              Sealable(s, public, key, nonce) && m.disk.destination.value == Envelop(s, public, key, nonce, source)
    ensures old(m.disk).destination.Some? ==> m.disk == old(m.disk)
    ensures r.PowerLost? ==> old(m.power) < Chunks(|source|) + 5
  {
    r := Ok;
    :- Need(public.bits >= SMALLEST_KEY);
    :- Need(s.wrap(public, key).Some?);
    var header := HeaderText(s, public, key, nonce);
    :- Need(m.disk.destination.None? && m.disk.partial.None?);
    hide Render;
    :- m.Put(m.disk.(partial := Some([])));
    :- Need(|header| < WORD);
    :- Append(m, Front(header));
    assert m.disk.partial.value == Front(header);
    var sealed;
    r, sealed := SealAll(m, s, key, nonce, source);
    if !r.Ok? { return; }
    :- Append(m, s.tag(key, nonce, header, sealed));
    assert m.disk.partial.value == Envelop(s, public, key, nonce, source);
    :- m.Put(m.disk.(destination := m.disk.partial));
    r := m.Put(m.disk.(partial := None));
  }

  /** The read loop of `decrypt`: `remaining` counts down to the tag. */
  method OpenAll(m: Machine<Folder>, s: Suite, key: Key, nonce: Bytes, text: Bytes) returns (r: Status)
    requires m.disk.partial == Some([])
    modifies m
    ensures m.disk.destination == old(m.disk).destination && m.disk.partial.Some?
    ensures r.Ok? ==> m.disk.partial.value == Opened(s, key, nonce, 0, text)
    ensures !r.Refused? && (r.PowerLost? <==> old(m.power) < Chunks(|text|))
    ensures r.Ok? ==> m.power == old(m.power) - Chunks(|text|)
  {
    var remaining: nat := |text|;
    assert Opened(s, key, nonce, 0, text[..0]) == [];
    while remaining != 0
      invariant 0 <= remaining <= |text|
      invariant m.disk == old(m.disk).(partial := Some(Opened(s, key, nonce, 0, text[..|text| - remaining])))
      invariant m.power + Chunks(|text|) == old(m.power) + Chunks(remaining)
      decreases remaining
    {
      var at := |text| - remaining;
      var block := text[at..at + Least(CHUNK, remaining)];
      OneMoreChunk(at, |text|);
      assert text[..at] + block == text[..at + |block|];
      var next := Opened(s, key, nonce, at, block);
      assert Opened(s, key, nonce, 0, text[..at]) + next == Opened(s, key, nonce, 0, text[..at + |block|]);
      :- Append(m, next);
      remaining := remaining - |block|;
    }
    assert text[..|text|] == text;
    return Ok;
  }

  /** An error removes the temporary this run created, unless power is what failed. */
  method Abandon(m: Machine<Folder>, failed: Status) returns (r: Status)
    requires failed.Refused?
    modifies m
    ensures m.disk == if r.Refused? then old(m.disk).(partial := None) else old(m.disk)
    ensures r == if old(m.power) == 0 then PowerLost else Refused
  {
    r := Ok;
    :- m.Put(m.disk.(partial := None));
    r := failed;
  }

  /** `decrypt`: accepts exactly the authentic envelopes, publishes exactly their
      plaintext, and at no cut is the destination anything else. */
  method Decrypt(m: Machine<Folder>, s: Suite, private: nat, raw: Bytes) returns (r: Status)
    modifies m
    ensures r.Ok? ==> old(m.disk) == Folder(None, None) && Accepted(s, private, raw).Some?
                      && m.disk == Folder(Accepted(s, private, raw), None)
    ensures r.Refused? ==> old(m.disk) != Folder(None, None) || Accepted(s, private, raw).None?
    ensures r.Refused? ==> m.disk == old(m.disk)
    ensures m.disk.destination != old(m.disk).destination ==>
              Accepted(s, private, raw).Some? && m.disk.destination == Accepted(s, private, raw)
    ensures r.PowerLost? ==> old(m.power) < Chunks(|raw|) + 3
  {
    r := Ok;
    :- Need(m.disk.destination.None? && m.disk.partial.None?);
    :- m.Put(m.disk.(partial := Some([])));
    if |raw| < HEAD || raw[..|MAGIC|] != MAGIC {
      r := Abandon(m, Refused);
      return;
    }
    var length := WordValue(raw[|MAGIC|..HEAD]);
    if !(100 <= length <= 4096) || |raw| < HEAD + length + TAG {
      r := Abandon(m, Refused);
      return;
    }
    var header := raw[HEAD..HEAD + length];
    var h := s.parse(header);
    if h.None? {
      r := Abandon(m, Refused);
      return;
    }
    var key := s.unwrap(private, h.value.wrapped);
    if key.None? {
      r := Abandon(m, Refused);
      return;
    }
    var text := raw[HEAD + length..|raw| - TAG];
    FewerChunks(|text|, |raw|);
    :- OpenAll(m, s, key.value, h.value.nonce, text);
    if raw[|raw| - TAG..] != s.tag(key.value, h.value.nonce, header, text) {
      r := Abandon(m, Refused);
      return;
    }
    :- m.Put(m.disk.(destination := m.disk.partial));
    r := m.Put(m.disk.(partial := None));
  }

  lemma FewerChunks(a: nat, b: nat)
    requires a <= b
    ensures Chunks(a) <= Chunks(b)
  {
  }

  /** A backup made on one host and restored on another: the source comes back. */
  method ThereAndBack(backup: Machine<Folder>, restore: Machine<Folder>, s: Suite, public: PublicKey, private: nat,
                      key: Key, nonce: Bytes, source: Bytes) returns (r: Status)
    requires Works(s, public, private) && |nonce| == NONCE && SMALLEST_KEY <= public.bits <= LARGEST_KEY
    requires backup != restore && backup.disk == restore.disk == Folder(None, None)
    modifies backup, restore
    ensures r.Ok? && restore.disk == Folder(Some(source), None)
    ensures Sealable(s, public, key, nonce)
    ensures backup.disk == Folder(Some(Envelop(s, public, key, nonce, source)), None)
  {
    RoundTrip(s, public, private, key, nonce, source);
    assert s.wrap(public, key).Some?;
    hide Works;
    hide Accepted;
    hide Envelop;
    hide Sealable;
    backup.power := Chunks(|source|) + 5;
    r := Encrypt(backup, s, public, key, nonce, source);
    var raw := backup.disk.destination.value;
    restore.power := Chunks(|raw|) + 3;
    r := Decrypt(restore, s, private, raw);
  }
}
