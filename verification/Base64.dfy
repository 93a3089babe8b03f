/** Base 64 (section 4 of RFC 4648), strict about characters and padding but not about the bits padding leaves over. */
module Base64 {
  import opened Bytes
  import opened Seqs
  import opened Wrappers

  type Sextet = v: int | 0 <= v < 64

  function Char(v: Sextet): (c: char)
  {
    if v < 26 then 'A' + v as char
    else if v < 52 then 'a' + (v - 26) as char
    else if v < 62 then '0' + (v - 52) as char
    else if v == 62 then '+'
    else '/'
  }

  function Value(c: char): (v: Option<Sextet>)
  {
    if 'A' <= c <= 'Z' then Some(c as int - 'A' as int)
    else if 'a' <= c <= 'z' then Some(c as int - 'a' as int + 26)
    else if '0' <= c <= '9' then Some(c as int - '0' as int + 52)
    else if c == '+' then Some(62)
    else if c == '/' then Some(63)
    else None
  }

  lemma CharValue(v: Sextet)
    ensures Value(Char(v)) == Some(v)
  {
  }

  function Encode(b: seq<byte>): (s: string)
  {
    if b == [] then ""
    else if |b| == 1 then Quad(b[0], 0, 0)[..2] + "=="
    else if |b| == 2 then Quad(b[0], b[1], 0)[..3] + "="
    else Quad(b[0], b[1], b[2]) + Encode(b[3..])
  }

  function Quad(a: byte, b: byte, c: byte): (s: string)
    ensures |s| == 4
  {
    [Char(a / 4), Char(a % 4 * 16 + b / 16), Char(b % 16 * 4 + c / 64), Char(c % 64)]
  }

  /** The bytes of four characters of the alphabet. */
  function Triple(a: Sextet, b: Sextet, c: Sextet, d: Sextet): (t: seq<byte>)
    ensures |t| == 3
  {
    [a * 4 + b / 16, b % 16 * 16 + c / 4, c % 4 * 64 + d]
  }

  function FromQuad(s: string): (t: Option<seq<byte>>)
    requires |s| == 4
    ensures t.Some? ==> |t.value| == 3
  {
    match (Value(s[0]), Value(s[1]), Value(s[2]), Value(s[3]))
    case (Some(a), Some(b), Some(c), Some(d)) => Some(Triple(a, b, c, d))
    case _ => None
  }

  /** The last four characters, of which one or two may be padding. */
  function FromLast(s: string): (t: Option<seq<byte>>)
    requires |s| == 4
  {
    if s[3] != '=' then FromQuad(s)
    else
      match (Value(s[0]), Value(s[1]), Value(s[2]))
      case (Some(a), Some(b), Some(c)) => Some(Triple(a, b, c, 0)[..2])
      case (Some(a), Some(b), None) => if s[2] == '=' then Some(Triple(a, b, 0, 0)[..1]) else None
      case _ => None
  }

  /** `b64decode(s, validate=True)`; `None` stands for `binascii.Error`. */
  function Decode(s: string): (b: Option<seq<byte>>)
  {
    if s == "" then Some([])
    else if |s| < 4 then None
    else if |s| == 4 then FromLast(s)
    else
      match (FromQuad(s[..4]), Decode(s[4..]))
      case (Some(t), Some(more)) => Some(t + more)
      case _ => None
  }

  lemma BytesBack(a: byte, b: byte, c: byte)
    ensures Triple(a / 4, a % 4 * 16 + b / 16, b % 16 * 4 + c / 64, c % 64) == [a, b, c]
  {
  }

  lemma QuadValues(a: byte, b: byte, c: byte)
    ensures var q := Quad(a, b, c);
            Value(q[0]) == Some(a / 4) && Value(q[1]) == Some(a % 4 * 16 + b / 16)
            && Value(q[2]) == Some(b % 16 * 4 + c / 64) && Value(q[3]) == Some(c % 64)
  {
    CharValue(a / 4);
    CharValue(a % 4 * 16 + b / 16);
    CharValue(b % 16 * 4 + c / 64);
    CharValue(c % 64);
  }

  lemma TripleOfQuad(a: byte, b: byte, c: byte)
    ensures FromQuad(Quad(a, b, c)) == Some([a, b, c]) && Quad(a, b, c)[3] != '='
  {
    QuadValues(a, b, c);
    BytesBack(a, b, c);
  }

  lemma LastOfOne(a: byte)
    ensures FromLast(Quad(a, 0, 0)[..2] + "==") == Some([a])
  {
    QuadValues(a, 0, 0);
    BytesBack(a, 0, 0);
    assert Triple(a / 4, a % 4 * 16, 0, 0)[..1] == [a];
  }

  lemma LastOfTwo(a: byte, b: byte)
    ensures FromLast(Quad(a, b, 0)[..3] + "=") == Some([a, b])
  {
    QuadValues(a, b, 0);
    BytesBack(a, b, 0);
    assert Triple(a / 4, a % 4 * 16 + b / 16, b % 16 * 4, 0)[..2] == [a, b];
  }

  lemma OneRoundTrip(b: seq<byte>)
    requires |b| == 1
    ensures Decode(Encode(b)) == Some(b)
  {
    LastOfOne(b[0]);
    assert b == [b[0]];
  }

  lemma TwoRoundTrip(b: seq<byte>)
    requires |b| == 2
    ensures Decode(Encode(b)) == Some(b)
  {
    LastOfTwo(b[0], b[1]);
    assert b == [b[0], b[1]];
  }

  /** Decoding gives back every string of bytes. */
  lemma {:induction false} EncodeDecode(b: seq<byte>)
    ensures Decode(Encode(b)) == Some(b)
  {
    if |b| == 1 {
      OneRoundTrip(b);
    } else if |b| == 2 {
      TwoRoundTrip(b);
    } else if |b| > 2 {
      EncodeDecode(b[3..]);
      DecodeQuad(b[0], b[1], b[2], Encode(b[3..]), b[3..]);
      assert b == [b[0], b[1], b[2]] + b[3..];
    }
  }

  lemma DecodeQuad(a: byte, b: byte, c: byte, s: string, more: seq<byte>)
    requires Decode(s) == Some(more)
    ensures Decode(Quad(a, b, c) + s) == Some([a, b, c] + more)
  {
    TripleOfQuad(a, b, c);
    Split(Quad(a, b, c), s);
    if s == "" {
      Empty(Quad(a, b, c));
      Empty([a, b, c]);
    }
  }

  // ------------------------------------------- which spellings decode at all

  /** No bits are set that the padding throws away. */
  predicate Canonical(s: string)
  {
    |s| >= 4 && s[|s| - 1] == '=' ==>
      if s[|s| - 2] == '=' then Value(s[|s| - 3]).Some? && Value(s[|s| - 3]).value % 16 == 0
      else Value(s[|s| - 2]).Some? && Value(s[|s| - 2]).value % 4 == 0
  }

  lemma ValueChar(c: char)
    requires Value(c).Some?
    ensures Char(Value(c).value) == c
  {
  }

  lemma SextetsBack(a: Sextet, b: Sextet, c: Sextet, d: Sextet)
    ensures var t := Triple(a, b, c, d);
            t[0] / 4 == a && t[0] % 4 * 16 + t[1] / 16 == b && t[1] % 16 * 4 + t[2] / 64 == c && t[2] % 64 == d
  {
  }

  lemma QuadOfSextets(a: Sextet, b: Sextet, c: Sextet, d: Sextet)
    ensures var t := Triple(a, b, c, d); Quad(t[0], t[1], t[2]) == [Char(a), Char(b), Char(c), Char(d)]
  {
    SextetsBack(a, b, c, d);
  }

  lemma QuadOfTriple(s: string)
    requires |s| == 4 && FromQuad(s).Some?
    ensures var t := FromQuad(s).value; Quad(t[0], t[1], t[2]) == s
  {
    QuadOfSextets(Value(s[0]).value, Value(s[1]).value, Value(s[2]).value, Value(s[3]).value);
    ValueChar(s[0]);
    ValueChar(s[1]);
    ValueChar(s[2]);
    ValueChar(s[3]);
  }

  lemma LastBack(s: string)
    requires |s| == 4 && FromLast(s).Some?
    ensures Encode(FromLast(s).value) == s <==> Canonical(s)
  {
    if s[3] != '=' {
      QuadOfTriple(s);
      var t := FromQuad(s).value;
      assert Encode(t) == Quad(t[0], t[1], t[2]) + Encode(t[3..]);
      Empty(s);
    } else if Value(s[2]).Some? {
      TwoBack(s);
    } else {
      OneBack(s);
    }
  }

  /** Two bytes put their last four bits, shifted, into the third character. */
  lemma TwoBack(s: string)
    requires |s| == 4 && s[3] == '=' && FromLast(s).Some? && Value(s[2]).Some?
    ensures Encode(FromLast(s).value) == s <==> Value(s[2]).value % 4 == 0
  {
    ValueChar(s[0]);
    ValueChar(s[1]);
    ValueChar(s[2]);
    var a, b, c := Value(s[0]).value, Value(s[1]).value, Value(s[2]).value;
    var t := Triple(a, b, c, 0);
    SextetsBack(a, b, c, 0);
    assert Encode(t[..2]) == Quad(t[0], t[1], 0)[..3] + "=";
    QuadValues(t[0], t[1], 0);
    assert s == s[..2] + [s[2]] + "=";
  }

  lemma OneBack(s: string)
    requires |s| == 4 && s[2] == s[3] == '=' && FromLast(s).Some?
    ensures Encode(FromLast(s).value) == s <==> Value(s[1]).value % 16 == 0
  {
    ValueChar(s[0]);
    ValueChar(s[1]);
    var a, b := Value(s[0]).value, Value(s[1]).value;
    var t := Triple(a, b, 0, 0);
    SextetsBack(a, b, 0, 0);
    assert Encode(t[..1]) == Quad(t[0], 0, 0)[..2] + "==";
    QuadValues(t[0], 0, 0);
    assert s == [s[0]] + [s[1]] + "==";
  }

  /** A string that decodes is the encoding of its bytes exactly when the padding throws no set bits away. */
  lemma {:induction false} DecodeEncode(s: string)
    requires Decode(s).Some?
    ensures Encode(Decode(s).value) == s <==> Canonical(s)
  {
    if |s| == 4 {
      LastBack(s);
    } else if |s| > 4 {
      var t, more := FromQuad(s[..4]).value, Decode(s[4..]).value;
      DecodeEncode(s[4..]);
      QuadOfTriple(s[..4]);
    }
  }
}
