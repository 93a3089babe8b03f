/** Strict UTF-8, as `str.encode("utf-8")` and `bytes.decode("utf-8")` do it (section 3 of RFC 3629). */
module Utf8 {
  import opened Bytes
  import opened Seqs
  import opened Wrappers

  /** A Python string may hold lone surrogates; they have no encoding. */
  type CodePoint = c: int | 0 <= c < 0x11_0000

  predicate IsSurrogate(c: int)
  {
    0xD800 <= c < 0xE000
  }

  function EncodeOne(c: CodePoint): (s: seq<byte>)
    ensures 1 <= |s| <= 4
  {
    if c < 0x80 then [c]
    else if c < 0x800 then [0xC0 + c / 0x40, 0x80 + c % 0x40]
    else if c < 0x1_0000 then [0xE0 + c / 0x40 / 0x40, 0x80 + c / 0x40 % 0x40, 0x80 + c % 0x40]
    else [0xF0 + c / 0x40 / 0x40 / 0x40, 0x80 + c / 0x40 / 0x40 % 0x40, 0x80 + c / 0x40 % 0x40, 0x80 + c % 0x40]
  }

  /** `None` stands for `UnicodeEncodeError`. */
  function Encode(text: seq<CodePoint>): (r: Option<seq<byte>>)
  {
    if text == [] then Some([])
    else if IsSurrogate(text[0]) then None
    else
      match Encode(text[1..])
      case Some(more) => Some(EncodeOne(text[0]) + more)
      case None => None
  }

  predicate IsContinuation(b: byte)
  {
    0x80 <= b < 0xC0
  }

  /** How many bytes the first one announces; 0 if no character starts with it. */
  function Announced(b: byte): (n: nat)
    ensures n <= 4
  {
    if b < 0x80 then 1
    else if b < 0xC0 then 0
    else if b < 0xE0 then 2
    else if b < 0xF0 then 3
    else if b < 0xF8 then 4
    else 0
  }

  /** The six bits a continuation byte carries. */
  function Six(b: byte): (n: nat)
    requires IsContinuation(b)
    ensures n < 0x40
  {
    b - 0x80
  }

  lemma SixBack(n: nat, d: nat)
    requires d < 0x40
    ensures (n * 0x40 + d) / 0x40 == n && (n * 0x40 + d) % 0x40 == d
  {
  }

  /** The bits of one character's bytes. */
  function Bits(s: seq<byte>): (c: nat)
    requires 1 <= |s| <= 4 && Announced(s[0]) == |s|
    requires forall i :: 1 <= i < |s| ==> IsContinuation(s[i])
  {
    var first := s[0] as int;
    if |s| == 1 then first
    else if |s| == 2 then (first - 0xC0) * 0x40 + Six(s[1])
    else if |s| == 3 then ((first - 0xE0) * 0x40 + Six(s[1])) * 0x40 + Six(s[2])
    else (((first - 0xF0) * 0x40 + Six(s[1])) * 0x40 + Six(s[2])) * 0x40 + Six(s[3])
  }

  /** No shorter form, no surrogate, nothing beyond the last code point. */
  predicate Proper(c: nat, length: nat)
  {
    && c < 0x11_0000 && !IsSurrogate(c)
    && (length == 2 ==> c >= 0x80) && (length == 3 ==> c >= 0x800) && (length == 4 ==> c >= 0x1_0000)
  }

  /** The character at the start of `s` and its number of bytes. */
  function DecodeOne(s: seq<byte>): (r: Option<(CodePoint, nat)>)
    requires s != []
    ensures r.Some? ==> 1 <= r.value.1 <= |s|
  {
    var n := Announced(s[0]);
    if n == 0 || n > |s| || exists i :: 1 <= i < n && !IsContinuation(s[i]) then None
    else
      var c := Bits(s[..n]);
      if Proper(c, n) then Some((c, n)) else None
  }

  /** `None` stands for `UnicodeDecodeError`. */
  function Decode(s: seq<byte>): (r: Option<seq<CodePoint>>)
    decreases |s|
  {
    if s == [] then Some([])
    else
      match DecodeOne(s)
      case None => None
      case Some((c, n)) =>
        match Decode(s[n..])
        case Some(more) => Some([c] + more)
        case None => None
  }

  lemma OneThere(c: CodePoint, more: seq<byte>)
    requires !IsSurrogate(c)
    ensures DecodeOne(EncodeOne(c) + more) == Some((c, |EncodeOne(c)|))
  {
    var s := EncodeOne(c);
    assert (s + more)[..|s|] == s;
    assert forall i :: 0 <= i < |s| ==> (s + more)[i] == s[i];
    OneBits(c);
  }

  lemma OneBits(c: CodePoint)
    requires !IsSurrogate(c)
    ensures var s := EncodeOne(c);
            Announced(s[0]) == |s| && (forall i :: 1 <= i < |s| ==> IsContinuation(s[i])) && Bits(s) == c
            && Proper(c, |s|)
  {
  }

  lemma ThreeBack(s: seq<byte>)
    requires |s| == 3 && Announced(s[0]) == 3
    requires forall i :: 1 <= i < 3 ==> IsContinuation(s[i])
    requires Proper(Bits(s), 3)
    ensures EncodeOne(Bits(s)) == s
  {
    var a := (s[0] - 0xE0) as nat;
    SixBack(a, Six(s[1]));
    SixBack(a * 0x40 + Six(s[1]), Six(s[2]));
  }

  lemma FourBack(s: seq<byte>)
    requires |s| == 4 && Announced(s[0]) == 4
    requires forall i :: 1 <= i < 4 ==> IsContinuation(s[i])
    requires Proper(Bits(s), 4)
    ensures EncodeOne(Bits(s)) == s
  {
    var a := (s[0] - 0xF0) as nat;
    var b := a * 0x40 + Six(s[1]);
    var c := b * 0x40 + Six(s[2]);
    SixBack(a, Six(s[1]));
    SixBack(b, Six(s[2]));
    SixBack(c, Six(s[3]));
  }

  lemma OneBack(s: seq<byte>)
    requires 1 <= |s| <= 4 && Announced(s[0]) == |s|
    requires forall i :: 1 <= i < |s| ==> IsContinuation(s[i])
    requires Proper(Bits(s), |s|)
    ensures EncodeOne(Bits(s)) == s
  {
    if |s| == 2 {
      SixBack(s[0] - 0xC0, Six(s[1]));
    } else if |s| == 3 {
      ThreeBack(s);
    } else if |s| == 4 {
      FourBack(s);
    }
  }

  lemma DecodedOne(s: seq<byte>)
    requires s != [] && DecodeOne(s).Some?
    ensures var (c, n) := DecodeOne(s).value;
            !IsSurrogate(c) && EncodeOne(c) == s[..n]
  {
    OneBack(s[..DecodeOne(s).value.1]);
  }

  /** Decoding gives back every text that has an encoding. */
  lemma {:induction false} EncodeDecode(text: seq<CodePoint>)
    requires Encode(text).Some?
    ensures Decode(Encode(text).value) == Some(text)
  {
    if text != [] {
      var s, more := EncodeOne(text[0]), Encode(text[1..]).value;
      EncodeDecode(text[1..]);
      OneThere(text[0], more);
      Split(s, more);
      assert [text[0]] + text[1..] == text;
    }
  }

  lemma StepBack(s: seq<byte>, more: seq<CodePoint>)
    requires s != [] && DecodeOne(s).Some? && Encode(more) == Some(s[DecodeOne(s).value.1..])
    ensures Encode([DecodeOne(s).value.0] + more) == Some(s)
  {
    var (c, n) := DecodeOne(s).value;
    DecodedOne(s);
    Cons(c, more);
    assert s[..n] + s[n..] == s;
  }

  /** Only the encoding of a text decodes: there is no second spelling. */
  lemma {:induction false} DecodeEncode(s: seq<byte>)
    requires Decode(s).Some?
    ensures Encode(Decode(s).value) == Some(s)
    decreases |s|
  {
    if s != [] {
      var rest := s[DecodeOne(s).value.1..];
      DecodeEncode(rest);
      StepBack(s, Decode(rest).value);
    }
  }
}
