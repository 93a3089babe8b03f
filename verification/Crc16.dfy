/**
 The CRC-16 of a firmware image, as `nrfutil` computes it: a byte at a time, by swaps, shifts and
 exclusive ors. Here it is shown to be the remainder of a plain polynomial division, and which errors
 it cannot miss. A number below 2^16 is written as its sixteen bits, the most significant first.
 */
module Crc16 {
  import opened Seqs

  function Zeros(n: nat): (z: seq<bool>)
    ensures |z| == n
  {
    seq(n, i => false)
  }

  type Word = w: seq<bool> | |w| == 16 witness Zeros(16)
  type Octet = b: seq<bool> | |b| == 8 witness Zeros(8)

  function Xor(a: seq<bool>, b: seq<bool>): (c: seq<bool>)
    requires |a| == |b|
  {
    seq(|a|, i requires 0 <= i < |a| => a[i] != b[i])
  }

  function Or(a: Word, b: Word): (c: Word)
  {
    seq(16, i requires 0 <= i < 16 => a[i] || b[i])
  }

  /** `(w << n) & 0xFFFF` */
  function Left(w: Word, n: nat): (r: Word)
    requires n <= 16
  {
    w[n..] + Zeros(n)
  }

  /** `w >> n` */
  function Right(w: Word, n: nat): (r: Word)
    requires n <= 16
  {
    Zeros(n) + w[..16 - n]
  }

  /** `w & 0xFF` */
  function Low(w: Word): (r: Word)
  {
    Zeros(8) + w[8..]
  }

  const ONES: Word := seq(16, i => true)

  /** x^12 + x^5 + 1: the generator without its leading x^16. */
  const POLY: Word :=
    [false, false, false, true, false, false, false, false,
     false, false, true, false, false, false, false, true]

  // ------------------------------------------------------------ byte at a time

  /** The loop body of `crc16_ccitt`. */
  function Byte(crc: Word, b: Octet): (r: Word)
  {
    var c1: Word := Or(Low(Right(crc, 8)), Left(crc, 8));
    var c2: Word := Xor(c1, Zeros(8) + b);
    var c3: Word := Xor(c2, Right(Low(c2), 4));
    var c4: Word := Xor(c3, Left(c3, 12));
    Xor(c4, Left(Low(c4), 5))
  }

  // ------------------------------------------------------------- bit at a time

  /** The register with no input: times x, modulo the generator. */
  function Shift(w: Word): (r: Word)
  {
    if w[0] then Xor(Left(w, 1), POLY) else Left(w, 1)
  }

  /** One bit of the message, added to the top of the register. */
  function Bit(w: Word, bit: bool): (r: Word)
  {
    Shift(w[0 := w[0] != bit])
  }

  /** A whole message, the most significant bit of every byte first. */
  function Feed(w: Word, bits: seq<bool>): (r: Word)
    decreases |bits|
  {
    if bits == [] then w else Feed(Bit(w, bits[0]), bits[1..])
  }

  function Bits(data: seq<Octet>): (bits: seq<bool>)
  {
    if data == [] then [] else data[0] + Bits(data[1..])
  }

  /** The checksum composes over concatenation. */
  lemma {:induction false} FeedConcat(w: Word, a: seq<bool>, b: seq<bool>)
    ensures Feed(w, a + b) == Feed(Feed(w, a), b)
    decreases |a|
  {
    if a == [] {
      Empty(b);
    } else {
      ConsConcat(a, b);
      FeedConcat(Bit(w, a[0]), a[1..], b);
    }
  }

  // -------------------------------------- up to sixteen bits go in all at once

  function Shifts(w: Word, n: nat): (r: Word)
    decreases n
  {
    if n == 0 then w else Shifts(Shift(w), n - 1)
  }

  /** The places of `POLY`. */
  predicate Tap(j: nat)
  {
    j == 3 || j == 10 || j == 15
  }

  lemma ShiftAt(w: Word, j: nat)
    requires j < 16
    ensures Shift(w)[j] == ((j < 15 && w[j + 1]) != (w[0] && Tap(j)))
  {
  }

  /** Bits lined up at the top of the register. */
  function Load(bits: seq<bool>): (w: Word)
    requires |bits| <= 16
  {
    bits + Zeros(16 - |bits|)
  }

  lemma LoadOne(w: Word, bits: seq<bool>)
    requires 0 < |bits| <= 16
    ensures Shift(Xor(w, Load(bits))) == Xor(Bit(w, bits[0]), Load(bits[1..]))
  {
    var l, m := Shift(Xor(w, Load(bits))), Xor(Bit(w, bits[0]), Load(bits[1..]));
    forall j | 0 <= j < 16
      ensures l[j] == m[j]
    {
      ShiftAt(Xor(w, Load(bits)), j);
      ShiftAt(w[0 := w[0] != bits[0]], j);
    }
  }

  lemma {:induction false} FeedIsLoad(w: Word, bits: seq<bool>)
    requires |bits| <= 16
    ensures Feed(w, bits) == Shifts(Xor(w, Load(bits)), |bits|)
    decreases |bits|
  {
    if bits == [] {
      assert Xor(w, Load(bits)) == w;
    } else {
      LoadOne(w, bits);
      FeedIsLoad(Bit(w, bits[0]), bits[1..]);
    }
  }

  // ------------------------------------------- the byte step is eight bit steps

  /** The bit at `j`, and none beyond the end. */
  predicate At(w: Word, j: nat)
  {
    j < 16 && w[j]
  }

  /** What the first bits, falling out one after another, put back at `j`. */
  predicate Folded(a: bool, b: bool, c: bool, d: bool, j: nat)
  {
    ((a && Tap(j + 3)) != (b && Tap(j + 2))) != ((c && Tap(j + 1)) != (d && Tap(j)))
  }

  lemma OneShift(w: Word, j: nat)
    ensures At(Shift(w), j) == (At(w, j + 1) != (w[0] && Tap(j)))
  {
    if j < 16 {
      ShiftAt(w, j);
    }
  }

  lemma TwoShifts(w: Word, j: nat)
    ensures At(Shift(Shift(w)), j) == (At(w, j + 2) != ((w[0] && Tap(j + 1)) != (w[1] && Tap(j))))
  {
    OneShift(w, j + 1);
    OneShift(Shift(w), j);
    ShiftAt(w, 0);
  }

  lemma FourTurns(w: Word)
    ensures Shifts(w, 4) == Shift(Shift(Shift(Shift(w))))
  {
    assert Shifts(w, 4) == Shifts(Shift(w), 3) == Shifts(Shift(Shift(w)), 2);
  }

  /** Shifting four times: nothing that falls out comes round again. */
  lemma FourShifts(w: Word, j: nat)
    ensures At(Shifts(w, 4), j) == (At(w, j + 4) != Folded(w[0], w[1], w[2], w[3], j))
  {
    var v := Shift(Shift(w));
    FourTurns(w);
    assert v[0] == w[2] && v[1] == w[3] by {
      TwoShifts(w, 0);
      TwoShifts(w, 1);
    }
    TwoShifts(w, j + 2);
    TwoShifts(v, j);
  }

  /** The byte on top of the register, its lower half mixed with its upper half. */
  function Mixed(crc: Word, b: Octet): (s: Octet)
  {
    var t := Xor(crc[..8], b);
    Xor(t, Zeros(4) + t[..4])
  }

  lemma MixedAt(crc: Word, b: Octet, i: nat)
    requires i < 8
    ensures Mixed(crc, b)[i] == ((crc[i] != b[i]) != (i >= 4 && crc[i - 4] != b[i - 4]))
  {
  }

  lemma ByteAt(crc: Word, b: Octet, j: nat)
    requires j < 16
    ensures var s := Mixed(crc, b);
            Byte(crc, b)[j] == (At(crc, j + 8)
              != ((j >= 8 && s[j - 8]) != ((j < 4 && s[j + 4]) != (3 <= j < 11 && s[j - 3]))))
  {
    var c1: Word := Or(Low(Right(crc, 8)), Left(crc, 8));
    assert c1 == crc[8..] + crc[..8];
    var c2: Word := Xor(c1, Zeros(8) + b);
    var c3: Word := Xor(c2, Right(Low(c2), 4));
    assert c3 == crc[8..] + Mixed(crc, b);
    var c4: Word := Xor(c3, Left(c3, 12));
    forall i | 0 <= i < 8
      ensures c4[i + 8] == Mixed(crc, b)[i]
    {
      assert c3[i + 8] == Mixed(crc, b)[i];
      assert !Left(c3, 12)[i + 8];
    }
    assert c4[8..] == Mixed(crc, b);
  }

  /** The register after four shifts starts with its second four bits mixed with its first. */
  lemma FourthBits(w: Word, i: nat)
    requires i < 4
    ensures Shifts(w, 4)[i] == (w[i + 4] != w[i])
  {
    FourShifts(w, i);
  }

  lemma EightShifts(w: Word, s: Octet, j: nat)
    requires j < 16
    requires forall i :: 0 <= i < 4 ==> s[i] == w[i] && s[i + 4] == (w[i + 4] != w[i])
    ensures Shifts(w, 8)[j]
         == (At(w, j + 8) != (Folded(s[0], s[1], s[2], s[3], j + 4) != Folded(s[4], s[5], s[6], s[7], j)))
  {
    ShiftsAdd(w, 4, 4);
    var u := Shifts(w, 4);
    assert At(u, j + 4) == (At(w, j + 8) != Folded(s[0], s[1], s[2], s[3], j + 4)) by {
      FourShifts(w, j + 4);
    }
    assert Folded(u[0], u[1], u[2], u[3], j) == Folded(s[4], s[5], s[6], s[7], j) by {
      FourthBits(w, 0);
      FourthBits(w, 1);
      FourthBits(w, 2);
      FourthBits(w, 3);
    }
    FourShifts(u, j);
  }

  lemma {:induction false} ShiftsAdd(w: Word, m: nat, n: nat)
    ensures Shifts(w, m + n) == Shifts(Shifts(w, m), n)
    decreases m
  {
    if m > 0 {
      ShiftsAdd(Shift(w), m - 1, n);
    }
  }

  lemma FoldedBoth(s: Octet, j: nat)
    requires j < 16
    ensures (Folded(s[0], s[1], s[2], s[3], j + 4) != Folded(s[4], s[5], s[6], s[7], j))
         == ((j >= 8 && s[j - 8]) != ((j < 4 && s[j + 4]) != (3 <= j < 11 && s[j - 3])))
  {
  }

  lemma MixedHalves(crc: Word, b: Octet, i: nat)
    requires i < 4
    ensures var w, s := Xor(crc, Load(b)), Mixed(crc, b);
            s[i] == w[i] && s[i + 4] == (w[i + 4] != w[i])
  {
    MixedAt(crc, b, i);
    MixedAt(crc, b, i + 4);
  }

  lemma ShiftsAsByte(crc: Word, b: Octet, j: nat)
    requires j < 16
    ensures var s := Mixed(crc, b);
            Shifts(Xor(crc, Load(b)), 8)[j] == (At(crc, j + 8)
              != ((j >= 8 && s[j - 8]) != ((j < 4 && s[j + 4]) != (3 <= j < 11 && s[j - 3]))))
  {
    var w, s := Xor(crc, Load(b)), Mixed(crc, b);
    forall i | 0 <= i < 4
      ensures s[i] == w[i] && s[i + 4] == (w[i + 4] != w[i])
    {
      MixedHalves(crc, b, i);
    }
    EightShifts(w, s, j);
    FoldedBoth(s, j);
  }

  /** The byte trick is the division, eight bits further. */
  lemma ByteIsEightBits(crc: Word, b: Octet)
    ensures Byte(crc, b) == Feed(crc, b)
  {
    FeedIsLoad(crc, b);
    forall j | 0 <= j < 16
      ensures Byte(crc, b)[j] == Shifts(Xor(crc, Load(b)), 8)[j]
    {
      ByteAt(crc, b, j);
      ShiftsAsByte(crc, b, j);
    }
  }

  // ------------------------------------------------------- polynomial division

  /** x^16 + x^12 + x^5 + 1, the highest power first. */
  const GENERATOR: seq<bool> := [true] + POLY

  /** `b` in front of the generator's multiples: `b` times the generator, with room for the rest. */
  function Multiple(b: bool, n: nat): (p: seq<bool>)
  {
    (if b then GENERATOR else Zeros(17)) + Zeros(n)
  }

  /** The product of `q` and the generator. */
  function Product(q: seq<bool>): (p: seq<bool>)
    decreases |q|
  {
    if q == [] then Zeros(16) else Xor(Multiple(q[0], |q| - 1), [false] + Product(q[1..]))
  }

  /** The message times x^16, with the initial register added to its first sixteen places. */
  function Dividend(w: Word, bits: seq<bool>): (p: seq<bool>)
  {
    Xor(bits + Zeros(16), w + Zeros(|bits|))
  }

  /** `p == q * GENERATOR + r`, and `r` has a lower degree than the generator. */
  predicate Division(p: seq<bool>, q: seq<bool>, r: Word)
  {
    |p| == |q| + 16 && p == Xor(Product(q), Zeros(|q|) + r)
  }

  lemma DividendStep(w: Word, bits: seq<bool>)
    requires bits != []
    ensures var t := w[0] != bits[0];
            Dividend(w, bits) == Xor(Multiple(t, |bits| - 1), [false] + Dividend(Bit(w, bits[0]), bits[1..]))
  {
    var t, n := w[0] != bits[0], |bits|;
    var v := Bit(w, bits[0]);
    var l, m := Dividend(w, bits), Xor(Multiple(t, n - 1), [false] + Dividend(v, bits[1..]));
    forall k | 0 <= k < n + 16
      ensures l[k] == m[k]
    {
      if 0 < k <= 16 {
        ShiftAt(w[0 := t], k - 1);
        assert v[k - 1] == ((k < 16 && w[k]) != (t && POLY[k - 1]));
      }
    }
  }

  lemma XorAssoc(a: seq<bool>, b: seq<bool>, c: seq<bool>)
    requires |a| == |b| == |c|
    ensures Xor(a, Xor(b, c)) == Xor(Xor(a, b), c)
  {
  }

  function Quotient(w: Word, bits: seq<bool>): (q: seq<bool>)
    decreases |bits|
  {
    if bits == [] then [] else [w[0] != bits[0]] + Quotient(Bit(w, bits[0]), bits[1..])
  }

  /** The checksum is the remainder of dividing by the generator. */
  lemma {:induction false} FeedIsRemainder(w: Word, bits: seq<bool>)
    ensures Division(Dividend(w, bits), Quotient(w, bits), Feed(w, bits))
    decreases |bits|
  {
    var q, r, n := Quotient(w, bits), Feed(w, bits), |bits|;
    if bits == [] {
      assert Dividend(w, bits) == Xor(Product(q), Zeros(0) + r);
    } else {
      var v, rest := Bit(w, bits[0]), bits[1..];
      FeedIsRemainder(v, rest);
      DividendStep(w, bits);
      Cons(w[0] != bits[0], Quotient(v, rest));
      var m, z := Product(q[1..]), Zeros(n - 1) + r;
      assert [false] + Xor(m, z) == Xor([false] + m, [false] + z);
      assert [false] + z == Zeros(n) + r;
      XorAssoc(Multiple(q[0], n - 1), [false] + m, [false] + z);
    }
  }

  lemma ProductHead(q: seq<bool>)
    requires q != []
    ensures Product(q)[0] == q[0]
  {
  }

  /** No other quotient and remainder will do. */
  lemma {:induction false} RemainderUnique(p: seq<bool>, q: seq<bool>, r: Word, k: seq<bool>, s: Word)
    requires Division(p, q, r) && Division(p, k, s)
    ensures q == k && r == s
    decreases |q|
  {
    var n := |q|;
    if n == 0 {
      assert Xor(Zeros(16), r) == r && Xor(Zeros(16), s) == s;
      assert Zeros(0) + r == r && Zeros(0) + s == s;
    } else {
      ProductHead(q);
      ProductHead(k);
      assert p[0] == q[0] == k[0];
      DivisionTail(p, q, r);
      DivisionTail(p, k, s);
      RemainderUnique(Xor(p, Multiple(q[0], n - 1))[1..], q[1..], r, k[1..], s);
      assert q == [q[0]] + q[1..] && k == [k[0]] + k[1..];
    }
  }

  lemma DivisionTail(p: seq<bool>, q: seq<bool>, r: Word)
    requires Division(p, q, r) && q != []
    ensures Division(Xor(p, Multiple(q[0], |q| - 1))[1..], q[1..], r)
  {
    var n := |q|;
    var g, m, z := Multiple(q[0], n - 1), Product(q[1..]), Zeros(n - 1) + r;
    var l, x := Xor(p, g)[1..], Xor(m, z);
    forall j | 0 <= j < n + 15
      ensures l[j] == x[j]
    {
      assert (Zeros(n) + r)[j + 1] == z[j];
      assert ([false] + m)[j + 1] == m[j];
    }
  }

  /** The checksum of a firmware image, as the publishing tool compares it with the manifest. */
  method Checksum(data: seq<Octet>, initial: Word := ONES) returns (crc: Word)
    ensures crc == Feed(initial, Bits(data))
    ensures Division(Dividend(initial, Bits(data)), Quotient(initial, Bits(data)), crc)
  {
    FeedIsRemainder(initial, Bits(data));
    crc := initial;
    var i := 0;
    while i < |data|
      invariant i <= |data|
      invariant Feed(initial, Bits(data)) == Feed(crc, Bits(data[i..]))
    {
      var b := data[i];
      FeedConcat(crc, b, Bits(data[i + 1..]));
      ByteIsEightBits(crc, b);
      ghost var was := crc;
      crc := Or(Low(Right(crc, 8)), Left(crc, 8));
      crc := Xor(crc, Zeros(8) + b);
      crc := Xor(crc, Right(Low(crc), 4));
      crc := Xor(crc, Left(crc, 12));
      crc := Xor(crc, Left(Low(crc), 5));
      assert crc == Byte(was, b);
      assert Bits(data[i..]) == b + Bits(data[i + 1..]);
      i := i + 1;
    }
  }

  // ------------------------------------------------------- errors never missed

  lemma ShiftLinear(a: Word, b: Word)
    ensures Shift(Xor(a, b)) == Xor(Shift(a), Shift(b))
  {
    var l, m := Shift(Xor(a, b)), Xor(Shift(a), Shift(b));
    forall j | 0 <= j < 16
      ensures l[j] == m[j]
    {
      ShiftAt(a, j);
      ShiftAt(b, j);
      ShiftAt(Xor(a, b), j);
    }
  }

  /** The checksums of two messages differ by the checksum, from zero, of where they differ. */
  lemma {:induction false} FeedLinear(a: Word, b: Word, x: seq<bool>, y: seq<bool>)
    requires |x| == |y|
    ensures Feed(Xor(a, b), Xor(x, y)) == Xor(Feed(a, x), Feed(b, y))
    decreases |x|
  {
    if x != [] {
      var u, v := a[0 := a[0] != x[0]], b[0 := b[0] != y[0]];
      ShiftLinear(u, v);
      assert Xor(a, b)[0 := Xor(a, b)[0] != Xor(x, y)[0]] == Xor(u, v);
      assert Xor(x, y)[1..] == Xor(x[1..], y[1..]);
      FeedLinear(Bit(a, x[0]), Bit(b, y[0]), x[1..], y[1..]);
    }
  }

  /** No shift loses anything: the place below shows what fell out on top. */
  lemma ShiftInjective(a: Word, b: Word)
    requires Shift(a) == Shift(b)
    ensures a == b
  {
    ShiftAt(a, 15);
    ShiftAt(b, 15);
    forall j | 0 < j < 16
      ensures a[j] == b[j]
    {
      ShiftAt(a, j - 1);
      ShiftAt(b, j - 1);
    }
  }

  lemma {:induction false} ShiftsInjective(a: Word, b: Word, n: nat)
    requires Shifts(a, n) == Shifts(b, n)
    ensures a == b
    decreases n
  {
    if n > 0 {
      ShiftsInjective(Shift(a), Shift(b), n - 1);
      ShiftInjective(a, b);
    }
  }

  lemma {:induction false} FeedInjective(a: Word, b: Word, bits: seq<bool>)
    requires Feed(a, bits) == Feed(b, bits)
    ensures a == b
    decreases |bits|
  {
    if bits != [] {
      FeedInjective(Bit(a, bits[0]), Bit(b, bits[0]), bits[1..]);
      ShiftInjective(a[0 := a[0] != bits[0]], b[0 := b[0] != bits[0]]);
      assert a == a[0 := a[0] != bits[0]][0 := a[0]] == b;
    }
  }

  lemma FewBitsShow(w: Word, a: seq<bool>, b: seq<bool>)
    requires |a| == |b| <= 16 && Feed(w, a) == Feed(w, b)
    ensures a == b
  {
    FeedIsLoad(w, a);
    FeedIsLoad(w, b);
    ShiftsInjective(Xor(w, Load(a)), Xor(w, Load(b)), |a|);
    forall i | 0 <= i < |a|
      ensures a[i] == b[i]
    {
      assert Xor(w, Load(a))[i] == (w[i] != a[i]);
      assert Xor(w, Load(b))[i] == (w[i] != b[i]);
    }
  }

  /** Two messages that differ only within a burst of sixteen bits never have the same checksum. */
  lemma BurstsDetected(w: Word, before: seq<bool>, a: seq<bool>, b: seq<bool>, after: seq<bool>)
    requires |a| == |b| <= 16
    ensures Feed(w, before + a + after) == Feed(w, before + b + after) <==> a == b
  {
    FeedConcat(w, before + a, after);
    FeedConcat(w, before + b, after);
    FeedConcat(w, before, a);
    FeedConcat(w, before, b);
    if Feed(w, before + a + after) == Feed(w, before + b + after) {
      FeedInjective(Feed(w, before + a), Feed(w, before + b), after);
      FewBitsShow(Feed(w, before), a, b);
    }
  }

  /** Whether an odd number of bits is set. */
  predicate Odd(s: seq<bool>)
  {
    s != [] && s[0] != Odd(s[1..])
  }

  lemma {:induction false} OddConcat(a: seq<bool>, b: seq<bool>)
    ensures Odd(a + b) == (Odd(a) != Odd(b))
  {
    if a == [] {
      Empty(b);
    } else {
      ConsConcat(a, b);
      OddConcat(a[1..], b);
    }
  }

  lemma {:induction false} OddXor(a: seq<bool>, b: seq<bool>)
    requires |a| == |b|
    ensures Odd(Xor(a, b)) == (Odd(a) != Odd(b))
  {
    if a != [] {
      assert Xor(a, b)[1..] == Xor(a[1..], b[1..]);
      OddXor(a[1..], b[1..]);
    }
  }

  lemma {:induction false} EvenZeros(n: nat)
    ensures !Odd(Zeros(n))
  {
    if n > 0 {
      assert Zeros(n)[1..] == Zeros(n - 1);
      EvenZeros(n - 1);
    }
  }

  lemma OddLast(n: nat)
    ensures Odd(Zeros(n) + [true])
  {
    OddConcat(Zeros(n), [true]);
    EvenZeros(n);
  }

  lemma OddPoly()
    ensures Odd(POLY)
  {
    var a, b, c := Zeros(3) + [true], Zeros(6) + [true], Zeros(4) + [true];
    assert POLY == a + b + c;
    OddLast(3);
    OddLast(6);
    OddLast(4);
    OddConcat(a, b);
    OddConcat(a + b, c);
  }

  lemma OddBit(w: Word, bit: bool)
    ensures Odd(Bit(w, bit)) == (Odd(w) != bit)
  {
    var u := w[0 := w[0] != bit];
    assert u[1..] == w[1..];
    OddConcat(u[1..], [false]);
    assert Left(u, 1) == u[1..] + [false];
    if u[0] {
      OddXor(Left(u, 1), POLY);
      OddPoly();
    }
  }

  /** The checksum keeps the parity of the message. */
  lemma {:induction false} ParityKept(w: Word, bits: seq<bool>)
    ensures Odd(Feed(w, bits)) == (Odd(w) != Odd(bits))
    decreases |bits|
  {
    if bits != [] {
      OddBit(w, bits[0]);
      ParityKept(Bit(w, bits[0]), bits[1..]);
    }
  }

  /** An odd number of flipped bits, anywhere in a message, always shows. */
  lemma OddErrorsDetected(w: Word, bits: seq<bool>, flips: seq<bool>)
    requires |bits| == |flips| && Odd(flips)
    ensures Feed(w, Xor(bits, flips)) != Feed(w, bits)
  {
    OddXor(bits, flips);
    ParityKept(w, bits);
    ParityKept(w, Xor(bits, flips));
  }
}
