/**
 The per-node web password as the database stores it: a version byte, a nonce, a short tag and the
 password, masked with a keystream of HMACs in counter mode, all in base 64. The HMAC with the
 installation's key is a parameter: any function from byte strings to 32 bytes.
 */
module NodeCred {
  import opened Bytes
  import opened Seqs
  import opened Wrappers
  import Base64
  import Utf8

  const VERSION: byte := 1
  const NONCE_LEN := 16
  const TAG_LEN := 8
  const DIGEST_LEN := 32
  /** The counter has four bytes. */
  const LIMIT := 32 * 0x1_0000_0000

  type Digest = d: seq<byte> | |d| == 32 witness ZeroBytes(32)
  type Mac = seq<byte> -> Digest
  type Nonce = n: seq<byte> | |n| == 16 witness ZeroBytes(16)
  type Text = seq<Utf8.CodePoint>

  /** `OverflowError` of the counter, `UnicodeEncodeError` of the password. */
  datatype CredError = Overflow | Unencodable

  // -------------------------------------------------------------- keystream

  function StreamAt(mac: Mac, nonce: Nonce, i: nat): (b: byte)
    requires i < LIMIT
  {
    mac(nonce + Be32(i / DIGEST_LEN))[i % DIGEST_LEN]
  }

  function Stream(mac: Mac, nonce: Nonce, n: nat): (s: seq<byte>)
    requires n <= LIMIT
  {
    seq(n, i requires 0 <= i < n => StreamAt(mac, nonce, i))
  }

  /** A shorter keystream is the start of a longer one. */
  lemma StreamPrefix(mac: Mac, nonce: Nonce, m: nat, n: nat)
    requires m <= n <= LIMIT
    ensures Stream(mac, nonce, m) == Stream(mac, nonce, n)[..m]
  {
  }

  lemma NextBlock(mac: Mac, nonce: Nonce, k: nat)
    requires k < 0x1_0000_0000
    ensures Stream(mac, nonce, DIGEST_LEN * (k + 1)) == Stream(mac, nonce, DIGEST_LEN * k) + mac(nonce + Be32(k))
  {
    var l, r := Stream(mac, nonce, DIGEST_LEN * (k + 1)), Stream(mac, nonce, DIGEST_LEN * k) + mac(nonce + Be32(k));
    forall i | 0 <= i < |l|
      ensures l[i] == r[i]
    {
      if i >= DIGEST_LEN * k {
        assert i / DIGEST_LEN == k && i % DIGEST_LEN == i - DIGEST_LEN * k;
      }
    }
  }

  method Keystream(mac: Mac, nonce: Nonce, n: nat) returns (r: Result<seq<byte>, CredError>)
    ensures r == if n <= LIMIT then Success(Stream(mac, nonce, n)) else Failure(Overflow)
  {
    var out: seq<byte> := [];
    var counter := 0;
    while |out| < n
      invariant counter <= 0x1_0000_0000
      invariant out == Stream(mac, nonce, DIGEST_LEN * counter)
      decreases n - |out|
    {
      if counter >= 0x1_0000_0000 {
        return Failure(Overflow);
      }
      NextBlock(mac, nonce, counter);
      out := out + mac(nonce + Be32(counter));
      counter := counter + 1;
    }
    StreamPrefix(mac, nonce, n, |out|);
    return Success(out[..n]);
  }

  // ------------------------------------------------------------- the blob

  /** `bytes(b ^ k for b, k in zip(s, keystream))` */
  function Masked(mac: Mac, nonce: Nonce, s: seq<byte>): (t: seq<byte>)
    requires |s| <= LIMIT
  {
    seq(|s|, i requires 0 <= i < |s| => XorByte(s[i], StreamAt(mac, nonce, i)))
  }

  lemma MaskedTwice(mac: Mac, nonce: Nonce, s: seq<byte>)
    requires |s| <= LIMIT
    ensures Masked(mac, nonce, Masked(mac, nonce, s)) == s
  {
    forall i | 0 <= i < |s|
      ensures Masked(mac, nonce, Masked(mac, nonce, s))[i] == s[i]
    {
      XorTwice(s[i], StreamAt(mac, nonce, i));
    }
  }

  /** `b"nodecred-tag|"` */
  const TAG_LABEL: seq<byte> := [0x6E, 0x6F, 0x64, 0x65, 0x63, 0x72, 0x65, 0x64, 0x2D, 0x74, 0x61, 0x67, 0x7C]

  function Tag(mac: Mac, nonce: Nonce, cipher: seq<byte>): (t: seq<byte>)
  {
    mac(TAG_LABEL + nonce + cipher)[..TAG_LEN]
  }

  function Raw(mac: Mac, nonce: Nonce, plain: seq<byte>): (raw: seq<byte>)
    requires |plain| <= LIMIT
  {
    var cipher := Masked(mac, nonce, plain);
    [VERSION] + nonce + Tag(mac, nonce, cipher) + cipher
  }

  /** A password that can be stored at all. */
  predicate Storable(plain: Text)
  {
    Utf8.Encode(plain).Some? && |Utf8.Encode(plain).value| <= LIMIT
  }

  /** What `obfuscate` stores for a password, given the nonce it drew. */
  function Blob(mac: Mac, nonce: Nonce, plain: Text): (blob: string)
    requires Storable(plain)
  {
    Base64.Encode(Raw(mac, nonce, Utf8.Encode(plain).value))
  }

  // --------------------------------------------------- taking a blob apart

  function NonceOf(raw: seq<byte>): (n: Nonce)
    requires |raw| >= 25
  {
    raw[1..17]
  }

  function CipherOf(raw: seq<byte>): (c: seq<byte>)
    requires |raw| >= 25
  {
    raw[25..]
  }

  /** The version is known and the tag is the one this installation's key gives. */
  predicate Genuine(mac: Mac, raw: seq<byte>)
  {
    |raw| >= 25 && raw[0] == VERSION && raw[17..25] == Tag(mac, NonceOf(raw), CipherOf(raw))
  }

  /** What `deobfuscate` returns. */
  function Opened(mac: Mac, blob: string): (r: Result<Option<Text>, CredError>)
  {
    match Base64.Decode(blob)
    case None => Success(None)
    case Some(raw) =>
      if !Genuine(mac, raw) then Success(None)
      else if |CipherOf(raw)| > LIMIT then Failure(Overflow)
      else Success(Utf8.Decode(Masked(mac, NonceOf(raw), CipherOf(raw))))
  }

  lemma RawParts(mac: Mac, nonce: Nonce, plain: seq<byte>)
    requires |plain| <= LIMIT
    ensures var raw := Raw(mac, nonce, plain);
            Genuine(mac, raw) && NonceOf(raw) == nonce && CipherOf(raw) == Masked(mac, nonce, plain)
  {
    var cipher := Masked(mac, nonce, plain);
    var raw := Raw(mac, nonce, plain);
    assert raw[1..17] == nonce;
    assert raw[17..25] == Tag(mac, nonce, cipher);
    assert raw[25..] == cipher;
  }

  lemma RawBack(mac: Mac, raw: seq<byte>)
    requires Genuine(mac, raw) && |CipherOf(raw)| <= LIMIT
    ensures raw == Raw(mac, NonceOf(raw), Masked(mac, NonceOf(raw), CipherOf(raw)))
  {
    MaskedTwice(mac, NonceOf(raw), CipherOf(raw));
    assert raw == [raw[0]] + raw[1..17] + raw[17..25] + raw[25..];
  }

  /** Every stored password comes back, whatever the key and the nonce. */
  lemma RoundTrip(mac: Mac, nonce: Nonce, plain: Text)
    requires Storable(plain)
    ensures Opened(mac, Blob(mac, nonce, plain)) == Success(Some(plain))
  {
    var s := Utf8.Encode(plain).value;
    Base64.EncodeDecode(Raw(mac, nonce, s));
    RawParts(mac, nonce, s);
    MaskedTwice(mac, nonce, s);
    Utf8.EncodeDecode(plain);
  }

  /** `raw` is what this installation writes for the password under some nonce. */
  ghost predicate Writes(mac: Mac, plain: Text, raw: seq<byte>)
  {
    Storable(plain) && exists nonce: Nonce :: raw == Raw(mac, nonce, Utf8.Encode(plain).value)
  }

  /** A blob opens to a password exactly when its bytes are some blob of that password. */
  lemma OpensGenuineOnly(mac: Mac, blob: string, plain: Text)
    ensures Opened(mac, blob) == Success(Some(plain))
       <==> Base64.Decode(blob).Some? && Writes(mac, plain, Base64.Decode(blob).value)
  {
    if Base64.Decode(blob).Some? {
      var raw := Base64.Decode(blob).value;
      if Opened(mac, blob) == Success(Some(plain)) {
        Utf8.DecodeEncode(Masked(mac, NonceOf(raw), CipherOf(raw)));
        RawBack(mac, raw);
      }
      if Writes(mac, plain, raw) {
        var s := Utf8.Encode(plain).value;
        var nonce: Nonce :| raw == Raw(mac, nonce, s);
        RawParts(mac, nonce, s);
        MaskedTwice(mac, nonce, s);
        Utf8.EncodeDecode(plain);
      }
    }
  }

  /** Two draws of the nonce never give the same blob, so equal passwords do not show. */
  lemma EqualPasswordsHidden(mac: Mac, m: Nonce, n: Nonce, plain: Text, other: Text)
    requires Storable(plain) && Storable(other) && Blob(mac, m, plain) == Blob(mac, n, other)
    ensures m == n && plain == other
  {
    RoundTrip(mac, m, plain);
    RoundTrip(mac, n, other);
    var s, t := Utf8.Encode(plain).value, Utf8.Encode(other).value;
    Base64.EncodeDecode(Raw(mac, m, s));
    Base64.EncodeDecode(Raw(mac, n, t));
    RawParts(mac, m, s);
    RawParts(mac, n, t);
  }

  /**
   Under another key a blob is refused if and only if the two keys give it different tags, or what that key
   unmasks is no UTF-8; otherwise it opens to just that.
   */
  lemma OtherKeyRefused(mine: Mac, theirs: Mac, nonce: Nonce, plain: Text)
    requires Storable(plain)
    ensures var cipher := Masked(theirs, nonce, Utf8.Encode(plain).value);
            && (Opened(mine, Blob(theirs, nonce, plain)) == Success(None) <==>
                Tag(mine, nonce, cipher) != Tag(theirs, nonce, cipher)
                || Utf8.Decode(Masked(mine, nonce, cipher)).None?)
            && (Tag(mine, nonce, cipher) == Tag(theirs, nonce, cipher) ==>
                Opened(mine, Blob(theirs, nonce, plain)) == Success(Utf8.Decode(Masked(mine, nonce, cipher))))
  {
    var s := Utf8.Encode(plain).value;
    Base64.EncodeDecode(Raw(theirs, nonce, s));
    RawParts(theirs, nonce, s);
  }

  // ------------------------------------------------------------ the methods

  /** `zip` of a string and its keystream. */
  method Mask(mac: Mac, nonce: Nonce, s: seq<byte>) returns (r: Result<seq<byte>, CredError>)
    ensures r == if |s| <= LIMIT then Success(Masked(mac, nonce, s)) else Failure(Overflow)
  {
    var stream := Keystream(mac, nonce, |s|);
    match stream {
      case Failure(e) => return Failure(e);
      case Success(k) =>
        var t := seq(|s|, i requires 0 <= i < |s| => XorByte(s[i], k[i]));
        assert t == Masked(mac, nonce, s);
        return Success(t);
    }
  }

  method Obfuscate(mac: Mac, nonce: Nonce, plain: Text) returns (r: Result<string, CredError>)
    ensures r.Success? <==> Storable(plain)
    ensures r.Success? ==> r.value == Blob(mac, nonce, plain) && Opened(mac, r.value) == Success(Some(plain))
    ensures r.Failure? ==> r.error == if Utf8.Encode(plain).None? then Unencodable else Overflow
  {
    var raw := Utf8.Encode(plain);
    if raw.None? {
      return Failure(Unencodable);
    }
    var cipher := Mask(mac, nonce, raw.value);
    if cipher.Failure? {
      return Failure(cipher.error);
    }
    RoundTrip(mac, nonce, plain);
    var blob := [VERSION] + nonce + Tag(mac, nonce, cipher.value) + cipher.value;
    return Success(Base64.Encode(blob));
  }

  method Deobfuscate(mac: Mac, blob: string) returns (r: Result<Option<Text>, CredError>)
    ensures r == Opened(mac, blob)
  {
    if blob == "" {
      return Success(None);
    }
    var decoded := Base64.Decode(blob);
    if decoded.None? {
      return Success(None);
    }
    var raw := decoded.value;
    if |raw| < 1 + NONCE_LEN + TAG_LEN || raw[0] != VERSION {
      return Success(None);
    }
    var nonce: Nonce := raw[1..1 + NONCE_LEN];
    var tag := raw[1 + NONCE_LEN..1 + NONCE_LEN + TAG_LEN];
    var cipher := raw[1 + NONCE_LEN + TAG_LEN..];
    if tag != Tag(mac, nonce, cipher) {
      return Success(None);
    }
    var plain := Mask(mac, nonce, cipher);
    if plain.Failure? {
      return Failure(plain.error);
    }
    return Success(Utf8.Decode(plain.value));
  }
}
