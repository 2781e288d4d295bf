/** Section 4 of RFC 4648 in terms of bits: what the encoder writes and what the decoder reads. */
module Base64Standard {
  import opened Prelude
  import opened Base64

  const ALPHABET := "ABCDEFGHIJKLMNOPQRSTUVWXYZ" + "abcdefghijklmnopqrstuvwxyz" + "0123456789+/"

  type Bit = n: int | 0 <= n < 2

  /** The lowest `k` bits of a number, highest first. */
  function Bits(n: nat, k: nat): (r: seq<Bit>)
    ensures |r| == k
  {
    if k == 0 then [] else Bits(n / 2, k - 1) + [n % 2]
  }

  /** The bytes as one string of bits. */
  function BitsOf(d: Bytes): (r: seq<Bit>)
    ensures |r| == 8 * |d|
  {
    if d == [] then [] else Bits(d[0], 8) + BitsOf(d[1..])
  }

  function BitsOfDigits(vs: seq<sextet>): (r: seq<Bit>)
    ensures |r| == 6 * |vs|
  {
    if vs == [] then [] else Bits(vs[0], 6) + BitsOfDigits(vs[1..])
  }

  /** `t` holds the letters of the digits `vs`. */
  ghost predicate InLetters(t: Bytes, vs: seq<sextet>) {
    |t| == |vs| && forall i :: 0 <= i < |vs| ==> t[i] == ALPHABET[vs[i]] as int
  }

  /** One equals sign if the last group has two bytes, two if it has one. */
  function Padding(length: nat): Bytes {
    if length % 3 == 2 then ['=' as int] else if length % 3 == 1 then ['=' as int, '=' as int] else []
  }

  /** `t` spells `d`: its bits, filled up to groups of six, in letters, and the padding. */
  ghost predicate Spells(t: Bytes, d: Bytes, vs: seq<sextet>, fill: seq<Bit>) {
    && |t| == |vs| + |Padding(|d|)| && InLetters(t[..|vs|], vs) && t[|vs|..] == Padding(|d|)
    && BitsOfDigits(vs) == BitsOf(d) + fill && |fill| < 6
  }

  ghost predicate IsSpelt(t: Bytes, d: Bytes) {
    exists vs: seq<sextet>, fill: seq<Bit> :: Spells(t, d, vs, fill)
  }

  lemma UpperCase(v: nat)
    requires v < 26
    ensures "ABCDEFGHIJKLMNOPQRSTUVWXYZ"[v] == ('A' as int + v) as char
  {
  }

  lemma LowerCase(v: nat)
    requires v < 26
    ensures "abcdefghijklmnopqrstuvwxyz"[v] == ('a' as int + v) as char
  {
  }

  lemma Figures(v: nat)
    requires v < 10
    ensures "0123456789+/"[v] == ('0' as int + v) as char
  {
  }

  /** The encoder's symbols are those of the alphabet. */
  lemma SymbolIsLetter(v: sextet)
    ensures Symbol(v) == ALPHABET[v] as int
  {
    var upper, lower, rest := "ABCDEFGHIJKLMNOPQRSTUVWXYZ", "abcdefghijklmnopqrstuvwxyz", "0123456789+/";
    assert |upper| == 26 && |lower| == 26 && |rest| == 12;
    if v < 26 {
      UpperCase(v);
      assert ALPHABET[v] == upper[v];
    } else if v < 52 {
      LowerCase(v - 26);
      assert ALPHABET[v] == lower[v - 26];
    } else if v < 62 {
      Figures(v - 52);
      assert ALPHABET[v] == rest[v - 52];
    } else {
      assert ALPHABET[v] == rest[v - 52];
    }
  }

  function Pow2(k: nat): (p: nat)
    ensures p > 0
  {
    if k == 0 then 1 else 2 * Pow2(k - 1)
  }

  /** Putting numbers one after the other puts their bits one after the other. */
  lemma {:induction false} BitsJoin(hi: nat, lo: nat, j: nat, k: nat)
    requires lo < Pow2(k)
    ensures Bits(hi * Pow2(k) + lo, j + k) == Bits(hi, j) + Bits(lo, k)
    decreases k
  {
    if k > 0 {
      var n, half := hi * Pow2(k) + lo, hi * Pow2(k - 1);
      assert n == 2 * half + lo;
      assert n / 2 == half + lo / 2 && n % 2 == lo % 2;
      BitsJoin(hi, lo / 2, j, k - 1);
    }
  }

  lemma {:induction false} BitsInjective(a: nat, b: nat, k: nat)
    requires a < Pow2(k) && b < Pow2(k) && Bits(a, k) == Bits(b, k)
    ensures a == b
  {
    if k > 0 {
      var p, q := Bits(a, k), Bits(b, k);
      assert p[..k - 1] == Bits(a / 2, k - 1) && q[..k - 1] == Bits(b / 2, k - 1);
      assert p[k - 1] == a % 2 && q[k - 1] == b % 2;
      BitsInjective(a / 2, b / 2, k - 1);
    }
  }

  lemma Powers()
    ensures Pow2(2) == 4 && Pow2(4) == 16 && Pow2(6) == 64 && Pow2(8) == 256
  {
    assert Pow2(5) == 32;
  }

  /** How a digit falls apart, two bits and four, or four and two. */
  lemma DigitBits(v: sextet)
    ensures Bits(v, 6) == Bits(v / 16, 2) + Bits(v % 16, 4)
    ensures Bits(v, 6) == Bits(v / 4, 4) + Bits(v % 4, 2)
  {
    Powers();
    hide *;
    BitsJoin(v / 16, v % 16, 2, 4);
    BitsJoin(v / 4, v % 4, 4, 2);
  }

  /** What each of three bytes is made of. */
  lemma ByteBits(v: sextet, w: sextet, x: sextet, y: sextet)
    ensures Bits(First(v, w), 8) == Bits(v, 6) + Bits(w / 16, 2)
    ensures Bits(Second(w, x), 8) == Bits(w % 16, 4) + Bits(x / 4, 4)
    ensures Bits(Third(x, y), 8) == Bits(x % 4, 2) + Bits(y, 6)
  {
    Powers();
    hide Bits, Pow2;
    BitsJoin(v, w / 16, 6, 2);
    BitsJoin(w % 16, x / 4, 4, 4);
    BitsJoin(x % 4, y, 2, 6);
  }

  lemma {:induction false} BitsOfConcat(d: Bytes, e: Bytes)
    ensures BitsOf(d + e) == BitsOf(d) + BitsOf(e)
  {
    hide Bits;
    if d == [] {
      assert d + e == e;
    } else {
      assert (d + e)[1..] == d[1..] + e;
      BitsOfConcat(d[1..], e);
    }
  }

  lemma {:induction false} BitsOfDigitsConcat(vs: seq<sextet>, ws: seq<sextet>)
    ensures BitsOfDigits(vs + ws) == BitsOfDigits(vs) + BitsOfDigits(ws)
  {
    hide Bits;
    if vs == [] {
      assert vs + ws == ws;
    } else {
      assert (vs + ws)[1..] == vs[1..] + ws;
      BitsOfDigitsConcat(vs[1..], ws);
    }
  }

  lemma ShortBits(a: byte, b: byte, c: byte)
    ensures BitsOf([a]) == Bits(a, 8)
    ensures BitsOf([a, b]) == Bits(a, 8) + Bits(b, 8)
    ensures BitsOf([a, b, c]) == Bits(a, 8) + Bits(b, 8) + Bits(c, 8)
  {
    hide Bits;
    assert [a, b] == [a] + [b] && [a, b, c] == [a, b] + [c];
    BitsOfConcat([a], [b]);
    BitsOfConcat([a, b], [c]);
  }

  lemma ShortDigits(v: sextet, w: sextet, x: sextet, y: sextet)
    ensures BitsOfDigits([v, w]) == Bits(v, 6) + Bits(w, 6)
    ensures BitsOfDigits([v, w, x]) == Bits(v, 6) + Bits(w, 6) + Bits(x, 6)
    ensures BitsOfDigits([v, w, x, y]) == Bits(v, 6) + Bits(w, 6) + Bits(x, 6) + Bits(y, 6)
  {
    hide Bits;
    assert [v, w] == [v] + [w] && [v, w, x] == [v, w] + [x] && [v, w, x, y] == [v, w, x] + [y];
    BitsOfDigitsConcat([v], [w]);
    BitsOfDigitsConcat([v, w], [x]);
    BitsOfDigitsConcat([v, w, x], [y]);
  }

  /** Four digits and the three bytes that are read from them. */
  lemma QuantumBits(v: sextet, w: sextet, x: sextet, y: sextet)
    ensures BitsOfDigits([v, w]) == BitsOf([First(v, w)]) + Bits(w % 16, 4)
    ensures BitsOfDigits([v, w, x]) == BitsOf([First(v, w), Second(w, x)]) + Bits(x % 4, 2)
    ensures BitsOfDigits([v, w, x, y]) == BitsOf([First(v, w), Second(w, x), Third(x, y)])
  {
    DigitBits(w);
    DigitBits(x);
    ByteBits(v, w, x, y);
    hide *;
    ShortDigits(v, w, x, y);
    ShortBits(First(v, w), Second(w, x), Third(x, y));
  }

  lemma LetterOf(b: byte)
    ensures Value(b).Some? ==> b == ALPHABET[Value(b).value] as int
  {
    hide ALPHABET;
    SymbolsAreValues(0, b);
    if Value(b).Some? {
      SymbolIsLetter(Value(b).value);
    }
  }

  lemma LettersJoin(t: Bytes, u: Bytes, vs: seq<sextet>, ws: seq<sextet>)
    requires InLetters(t, vs) && InLetters(u, ws)
    ensures InLetters(t + u, vs + ws) && |t| == |vs|
  {
    hide ALPHABET;
  }

  lemma SplitAfter(q: Bytes, u: Bytes, n: nat)
    requires n <= |u|
    ensures (q + u)[..|q| + n] == q + u[..n] && (q + u)[|q| + n..] == u[n..]
  {
  }

  lemma BitsOn(d: Bytes, e: Bytes, vs: seq<sextet>, rest: seq<sextet>, fill: seq<Bit>)
    requires BitsOfDigits(vs) == BitsOf(d) && BitsOfDigits(rest) == BitsOf(e) + fill
    ensures BitsOfDigits(vs + rest) == BitsOf(d + e) + fill
  {
    BitsOfConcat(d, e);
    BitsOfDigitsConcat(vs, rest);
    hide *;
    var a, b := BitsOf(d), BitsOf(e);
    assert a + (b + fill) == a + b + fill;
  }

  lemma PaddingOn(d: Bytes, e: Bytes)
    requires |d| == 3
    ensures Padding(|d + e|) == Padding(|e|)
  {
  }

  lemma SpellsOn(q: Bytes, u: Bytes, d: Bytes, e: Bytes, vs: seq<sextet>, rest: seq<sextet>, fill: seq<Bit>)
    requires |d| == 3 && InLetters(q, vs) && BitsOfDigits(vs) == BitsOf(d)
    requires Spells(u, e, rest, fill)
    ensures Spells(q + u, d + e, vs + rest, fill)
  {
    BitsOn(d, e, vs, rest, fill);
    LettersJoin(q, u[..|rest|], vs, rest);
    SplitAfter(q, u, |rest|);
    PaddingOn(d, e);
    hide BitsOf, BitsOfDigits, ALPHABET, InLetters, Padding;
    var t, all := q + u, vs + rest;
    assert |all| == |q| + |rest|;
    assert t[..|all|] == q + u[..|rest|] && t[|all|..] == u[|rest|..];
  }

  lemma OneByteSpells(t: Bytes)
    requires |t| == 4 && DecodeQuanta(t).Some? && t[2] == PAD && t[3] == PAD
    ensures var w := Value(t[1]).value;
            Spells(t, DecodeQuanta(t).value, [Value(t[0]).value, w], Bits(w % 16, 4))
  {
    hide Value, First, Second, Third, Bits, BitsOf, BitsOfDigits, ALPHABET;
    LetterOf(t[0]);
    LetterOf(t[1]);
    QuantumBits(Value(t[0]).value, Value(t[1]).value, 0, 0);
  }

  lemma TwoBytesSpell(t: Bytes)
    requires |t| == 4 && DecodeQuanta(t).Some? && t[2] != PAD && t[3] == PAD
    ensures var x := Value(t[2]).value;
            Spells(t, DecodeQuanta(t).value, [Value(t[0]).value, Value(t[1]).value, x], Bits(x % 4, 2))
  {
    hide Value, First, Second, Third, Bits, BitsOf, BitsOfDigits, ALPHABET;
    LetterOf(t[0]);
    LetterOf(t[1]);
    LetterOf(t[2]);
    QuantumBits(Value(t[0]).value, Value(t[1]).value, Value(t[2]).value, 0);
  }

  lemma QuantumInLetters(t: Bytes)
    requires |t| == 4 && forall i :: 0 <= i < 4 ==> Value(t[i]).Some?
    ensures InLetters(t, [Value(t[0]).value, Value(t[1]).value, Value(t[2]).value, Value(t[3]).value])
  {
    hide Value, ALPHABET;
    LetterOf(t[0]);
    LetterOf(t[1]);
    LetterOf(t[2]);
    LetterOf(t[3]);
  }

  lemma QuantumUnfolds(t: Bytes)
    requires DecodeQuanta(t).Some? && t != [] && !(|t| == 4 && t[3] == PAD)
    ensures |t| >= 4 && (forall i :: 0 <= i < 4 ==> Value(t[i]).Some?) && DecodeQuanta(t[4..]).Some?
    ensures var v, w, x, y := Value(t[0]).value, Value(t[1]).value, Value(t[2]).value, Value(t[3]).value;
            DecodeQuanta(t).value == [First(v, w), Second(w, x), Third(x, y)] + DecodeQuanta(t[4..]).value
  {
    hide Value, First, Second, Third;
  }

  /** Whatever decodes spells what it decodes to. */
  lemma {:induction false} DecodedSpells(t: Bytes) returns (vs: seq<sextet>, fill: seq<Bit>)
    requires DecodeQuanta(t).Some?
    ensures Spells(t, DecodeQuanta(t).value, vs, fill)
    decreases |t|
  {
    if t == [] {
      vs, fill := [], [];
    } else if |t| == 4 && t[2] == PAD && t[3] == PAD {
      vs, fill := [Value(t[0]).value, Value(t[1]).value], Bits(Value(t[1]).value % 16, 4);
      OneByteSpells(t);
    } else if |t| == 4 && t[3] == PAD {
      vs, fill := [Value(t[0]).value, Value(t[1]).value, Value(t[2]).value], Bits(Value(t[2]).value % 4, 2);
      TwoBytesSpell(t);
    } else {
      hide *;
      QuantumUnfolds(t);
      var v, w, x, y := Value(t[0]).value, Value(t[1]).value, Value(t[2]).value, Value(t[3]).value;
      QuantumInLetters(t[..4]);
      QuantumBits(v, w, x, y);
      var rest;
      rest, fill := DecodedSpells(t[4..]);
      vs := [v, w, x, y] + rest;
      assert t == t[..4] + t[4..];
      SpellsOn(t[..4], t[4..], [First(v, w), Second(w, x), Third(x, y)], DecodeQuanta(t[4..]).value,
               [v, w, x, y], rest, fill);
    }
  }

  lemma EncodedGroup(a: byte, b: byte, c: byte)
    ensures InLetters([Symbol(a / 4), Symbol(a % 4 * 16 + b / 16), Symbol(b % 16 * 4 + c / 64), Symbol(c % 64)],
                      [a / 4, a % 4 * 16 + b / 16, b % 16 * 4 + c / 64, c % 64])
    ensures BitsOfDigits([a / 4, a % 4 * 16 + b / 16, b % 16 * 4 + c / 64, c % 64]) == BitsOf([a, b, c])
  {
    hide Symbol, ALPHABET, BitsOf, BitsOfDigits, First, Second, Third;
    var v: sextet, w: sextet, x: sextet, y: sextet := a / 4, a % 4 * 16 + b / 16, b % 16 * 4 + c / 64, c % 64;
    SymbolIsLetter(v);
    SymbolIsLetter(w);
    SymbolIsLetter(x);
    SymbolIsLetter(y);
    QuantumBits(v, w, x, y);
    QuantumRoundTrip(a, b, c);
  }

  lemma NoBits()
    ensures Bits(0, 4) == [0, 0, 0, 0] && Bits(0, 2) == [0, 0]
  {
    assert Bits(0, 3) == [0, 0, 0];
  }

  lemma EncodedNone()
    ensures Spells(Encode([]), [], [], [])
  {
  }

  lemma EncodedOne(a: byte)
    ensures Spells(Encode([a]), [a], [a / 4, a % 4 * 16], [0, 0, 0, 0])
  {
    hide Symbol, ALPHABET, BitsOf, BitsOfDigits, Bits, First, Second, Third;
    var v: sextet, w: sextet := a / 4, a % 4 * 16;
    SymbolIsLetter(v);
    SymbolIsLetter(w);
    QuantumBits(v, w, 0, 0);
    QuantumRoundTrip(a, 0, 0);
    NoBits();
    assert Bits(w % 16, 4) == [0, 0, 0, 0];
  }

  lemma EncodedTwo(a: byte, b: byte)
    ensures Spells(Encode([a, b]), [a, b], [a / 4, a % 4 * 16 + b / 16, b % 16 * 4], [0, 0])
  {
    hide Symbol, ALPHABET, BitsOf, BitsOfDigits, Bits, First, Second, Third;
    var v: sextet, w: sextet, x: sextet := a / 4, a % 4 * 16 + b / 16, b % 16 * 4;
    SymbolIsLetter(v);
    SymbolIsLetter(w);
    SymbolIsLetter(x);
    QuantumBits(v, w, x, 0);
    QuantumRoundTrip(a, b, 0);
    NoBits();
    assert Bits(x % 4, 2) == [0, 0];
  }

  lemma EncodeUnfolds(d: Bytes)
    requires |d| >= 3
    ensures Encode(d) ==
            [Symbol(d[0] / 4), Symbol(d[0] % 4 * 16 + d[1] / 16), Symbol(d[1] % 16 * 4 + d[2] / 64), Symbol(d[2] % 64)]
            + Encode(d[3..])
  {
    hide Symbol;
  }

  /** The encoder spells its data, filled up with zero bits. */
  lemma {:induction false} EncodeSpells(d: Bytes) returns (vs: seq<sextet>, fill: seq<Bit>)
    ensures Spells(Encode(d), d, vs, fill)
    ensures forall i :: 0 <= i < |fill| ==> fill[i] == 0
  {
    hide *;
    if d == [] {
      vs, fill := [], [];
      EncodedNone();
    } else if |d| == 1 {
      vs, fill := [d[0] / 4, d[0] % 4 * 16], [0, 0, 0, 0];
      assert d == [d[0]];
      EncodedOne(d[0]);
    } else if |d| == 2 {
      vs, fill := [d[0] / 4, d[0] % 4 * 16 + d[1] / 16, d[1] % 16 * 4], [0, 0];
      assert d == [d[0], d[1]];
      EncodedTwo(d[0], d[1]);
    } else {
      var a, b, c, e := d[0], d[1], d[2], d[3..];
      var rest;
      rest, fill := EncodeSpells(e);
      EncodeUnfolds(d);
      EncodedGroup(a, b, c);
      var group := [a / 4, a % 4 * 16 + b / 16, b % 16 * 4 + c / 64, c % 64];
      var symbols := [Symbol(a / 4), Symbol(a % 4 * 16 + b / 16), Symbol(b % 16 * 4 + c / 64), Symbol(c % 64)];
      vs := group + rest;
      assert d == [a, b, c] + e;
      SpellsOn(symbols, Encode(e), [a, b, c], e, group, rest, fill);
    }
  }

  lemma {:induction false} BitsDetermine(d: Bytes, e: Bytes)
    requires BitsOf(d) == BitsOf(e)
    ensures d == e
  {
    Powers();
    hide Bits, Pow2;
    assert |d| == |e|;
    if d != [] {
      assert BitsOf(d)[..8] == Bits(d[0], 8) && BitsOf(e)[..8] == Bits(e[0], 8);
      assert BitsOf(d)[8..] == BitsOf(d[1..]) && BitsOf(e)[8..] == BitsOf(e[1..]);
      BitsInjective(d[0], e[0], 8);
      BitsDetermine(d[1..], e[1..]);
      assert d == [d[0]] + d[1..] && e == [e[0]] + e[1..];
    }
  }

  lemma {:induction false} BitsDetermineDigits(vs: seq<sextet>, ws: seq<sextet>)
    requires BitsOfDigits(vs) == BitsOfDigits(ws)
    ensures vs == ws
  {
    Powers();
    hide Bits, Pow2;
    assert |vs| == |ws|;
    if vs != [] {
      assert BitsOfDigits(vs)[..6] == Bits(vs[0], 6) && BitsOfDigits(ws)[..6] == Bits(ws[0], 6);
      assert BitsOfDigits(vs)[6..] == BitsOfDigits(vs[1..]) && BitsOfDigits(ws)[6..] == BitsOfDigits(ws[1..]);
      BitsInjective(vs[0], ws[0], 6);
      BitsDetermineDigits(vs[1..], ws[1..]);
      assert vs == [vs[0]] + vs[1..] && ws == [ws[0]] + ws[1..];
    }
  }

  lemma LettersDetermine(t: Bytes, vs: seq<sextet>, ws: seq<sextet>)
    requires InLetters(t, vs) && InLetters(t, ws)
    ensures vs == ws
  {
    hide ALPHABET;
    forall i | 0 <= i < |vs| ensures vs[i] == ws[i] {
      SymbolIsLetter(vs[i]);
      SymbolIsLetter(ws[i]);
      SymbolsAreValues(vs[i], 0);
      SymbolsAreValues(ws[i], 0);
    }
  }

  /** The data alone decides how many digits are spelt and how many bits are filled up. */
  lemma SpellsSize(t: Bytes, d: Bytes, vs: seq<sextet>, fill: seq<Bit>)
    requires Spells(t, d, vs, fill)
    ensures |vs| == (8 * |d| + 5) / 6 && |fill| == 6 * |vs| - 8 * |d| && |t| == 4 * ((|d| + 2) / 3)
  {
    hide BitsOf, BitsOfDigits, InLetters;
    assert 6 * |vs| == 8 * |d| + |fill|;
  }

  /** Section 4 of RFC 4648: the encoding is the one text that spells the data with zero bits filled in. */
  lemma {:induction false} EncodeIff(t: Bytes, d: Bytes)
    ensures t == Encode(d) <==>
            exists vs: seq<sextet>, fill: seq<Bit> ::
              Spells(t, d, vs, fill) && forall i :: 0 <= i < |fill| ==> fill[i] == 0
    ensures |Encode(d)| == 4 * ((|d| + 2) / 3)
  {
    var vs, fill := EncodeSpells(d);
    SpellsSize(Encode(d), d, vs, fill);
    hide BitsOf, BitsOfDigits, InLetters, Encode, Padding;
    forall ws: seq<sextet>, gap: seq<Bit>
      | Spells(t, d, ws, gap) && forall i :: 0 <= i < |gap| ==> gap[i] == 0
      ensures t == Encode(d)
    {
      SpellsSize(t, d, ws, gap);
      assert gap == fill;
      BitsDetermineDigits(vs, ws);
      SameLetters(t[..|vs|], Encode(d)[..|vs|], vs);
      assert t == t[..|vs|] + t[|vs|..] && Encode(d) == Encode(d)[..|vs|] + Encode(d)[|vs|..];
    }
  }

  lemma SameLetters(t: Bytes, u: Bytes, vs: seq<sextet>)
    requires InLetters(t, vs) && InLetters(u, vs)
    ensures t == u
  {
    hide ALPHABET;
  }

  lemma LetterIsSymbol(t: Bytes, vs: seq<sextet>, i: nat)
    requires |vs| <= |t| && InLetters(t[..|vs|], vs) && i < |vs|
    ensures Value(t[i]) == Some(vs[i]) && t[i] != PAD
  {
    hide ALPHABET, Symbol, Value;
    assert t[i] == t[..|vs|][i];
    SymbolIsLetter(vs[i]);
    SymbolsAreValues(vs[i], t[i]);
  }

  lemma FourDecode(t: Bytes)
    requires |t| >= 4 && forall i :: 0 <= i < 4 ==> Value(t[i]).Some? && t[i] != PAD
    requires DecodeQuanta(t[4..]).Some?
    ensures DecodeQuanta(t).Some? && |DecodeQuanta(t).value| == 3 + |DecodeQuanta(t[4..]).value|
  {
    hide Value, First, Second, Third;
  }

  lemma PaddedDecode(t: Bytes, k: nat)
    requires |t| == 4 && 2 <= k < 4 && forall i :: 0 <= i < k ==> Value(t[i]).Some? && t[i] != PAD
    requires forall i :: k <= i < 4 ==> t[i] == PAD
    ensures DecodeQuanta(t).Some? && |DecodeQuanta(t).value| == k - 1
  {
    hide Value, First, Second, Third;
  }

  lemma LettersAfterFour(t: Bytes, vs: seq<sextet>, n: nat)
    requires n >= 3 && |vs| == (8 * n + 5) / 6 && |t| == |vs| + |Padding(n)|
    requires InLetters(t[..|vs|], vs) && t[|vs|..] == Padding(n)
    ensures |vs| >= 4 && |vs[4..]| == (8 * (n - 3) + 5) / 6 && |t[4..]| == |vs[4..]| + |Padding(n - 3)|
    ensures InLetters(t[4..][..|vs[4..]|], vs[4..]) && t[4..][|vs[4..]|..] == Padding(n - 3)
  {
    hide ALPHABET;
    assert Padding(n) == Padding(n - 3);
    var u, ws := t[4..], vs[4..];
    assert u[..|ws|] == t[..|vs|][4..] && u[|ws|..] == t[|vs|..];
  }

  /** Letters and the right padding always decode, to that many bytes. */
  lemma {:induction false} LettersDecode(t: Bytes, vs: seq<sextet>, n: nat)
    requires |vs| == (8 * n + 5) / 6 && |t| == |vs| + |Padding(n)|
    requires InLetters(t[..|vs|], vs) && t[|vs|..] == Padding(n)
    ensures DecodeQuanta(t).Some? && |DecodeQuanta(t).value| == n
    decreases n
  {
    hide Value, DecodeQuanta, ALPHABET, InLetters;
    forall i | 0 <= i < |vs| ensures Value(t[i]).Some? && t[i] != PAD {
      LetterIsSymbol(t, vs, i);
    }
    if n == 0 {
      assert t == [];
      EmptyQuanta();
    } else if n == 1 {
      assert t[2] == t[2..][0] && t[3] == t[2..][1];
      PaddedDecode(t, 2);
    } else if n == 2 {
      assert t[3] == t[3..][0];
      PaddedDecode(t, 3);
    } else {
      LettersAfterFour(t, vs, n);
      LettersDecode(t[4..], vs[4..], n - 3);
      FourDecode(t);
    }
  }

  lemma SpeltDecodes(t: Bytes, d: Bytes, vs: seq<sextet>, fill: seq<Bit>)
    requires Spells(t, d, vs, fill)
    ensures DecodeQuanta(t) == Some(d)
  {
    hide BitsOf, BitsOfDigits, InLetters, Padding, DecodeQuanta;
    SpellsSize(t, d, vs, fill);
    LettersDecode(t, vs, |d|);
    var e := DecodeQuanta(t).value;
    var ws, gap := DecodedSpells(t);
    SpellsSize(t, e, ws, gap);
    LettersDetermine(t[..|vs|], vs, ws);
    assert BitsOf(d) == BitsOfDigits(vs)[..8 * |d|] == BitsOf(e);
    BitsDetermine(d, e);
  }

  lemma QuantaIff(t: Bytes, d: Bytes)
    ensures DecodeQuanta(t) == Some(d) <==> IsSpelt(t, d)
  {
    hide Spells, DecodeQuanta;
    if DecodeQuanta(t) == Some(d) {
      var vs, fill := DecodedSpells(t);
    }
    if IsSpelt(t, d) {
      var vs: seq<sextet>, fill: seq<Bit> :| Spells(t, d, vs, fill);
      SpeltDecodes(t, d, vs, fill);
    }
  }

  /** What a text decodes to, if anything: line breaks apart, the data that it spells, whatever the
      bits that fill up its last digit. */
  lemma {:induction false} DecodeIff(s: Bytes, d: Bytes)
    ensures Decode(s) == Some(d) <==> IsSpelt(Strip(s), d)
  {
    hide IsSpelt, DecodeQuanta;
    QuantaIff(Strip(s), d);
  }

  /** Only carriage returns and line feeds are skipped, wherever they are. */
  lemma {:induction false} StripIs(s: Bytes, b: byte, t: Bytes)
    ensures Strip(s + [b] + t) == Strip(s) + (if b == 13 || b == 10 then [] else [b]) + Strip(t)
    ensures Strip([]) == []
  {
    if s == [] {
      assert s + [b] + t == [b] + t;
    } else {
      assert (s + [b] + t)[1..] == s[1..] + [b] + t;
      StripIs(s[1..], b, t);
    }
  }

  /** `b` holds the characters of `text`. */
  ghost predicate Reads(b: Bytes, text: string) {
    |b| == |text| && forall i :: 0 <= i < |text| ==> b[i] == text[i] as int
  }

  lemma FooGroup(a: byte, b: byte, c: byte)
    requires Reads([a, b, c], "foo")
    ensures Reads([Symbol(a / 4), Symbol(a % 4 * 16 + b / 16), Symbol(b % 16 * 4 + c / 64), Symbol(c % 64)], "Zm9v")
  {
    assert [a, b, c][0] == 102 && [a, b, c][1] == 111 && [a, b, c][2] == 111;
    assert a == 102 && b == 111 && c == 111;
  }

  lemma Foo(d: Bytes)
    requires |d| >= 3 && Reads(d[..3], "foo")
    ensures Reads(Encode(d)[..4], "Zm9v") && Encode(d)[4..] == Encode(d[3..])
  {
    hide *;
    assert d[..3] == [d[0], d[1], d[2]];
    FooGroup(d[0], d[1], d[2]);
    EncodeUnfolds(d);
  }

  lemma ShortVectors(d: Bytes)
    ensures Reads(d, "") ==> Reads(Encode(d), "")
    ensures Reads(d, "f") ==> Reads(Encode(d), "Zg==")
    ensures Reads(d, "fo") ==> Reads(Encode(d), "Zm8=")
    ensures Reads(d, "b") ==> Reads(Encode(d), "Yg==")
    ensures Reads(d, "ba") ==> Reads(Encode(d), "YmE=")
  {
    if Reads(d, "f") || Reads(d, "b") {
      assert Encode(d) == [Symbol(d[0] / 4), Symbol(d[0] % 4 * 16), 61, 61];
    } else if Reads(d, "fo") || Reads(d, "ba") {
      assert Encode(d) == [Symbol(d[0] / 4), Symbol(d[0] % 4 * 16 + d[1] / 16), Symbol(d[1] % 16 * 4), 61];
    }
  }

  lemma Bar(d: Bytes)
    requires Reads(d, "bar")
    ensures Reads(Encode(d), "YmFy")
  {
    assert d[0] == 98 && d[1] == 97 && d[2] == 114 && d[3..] == [];
    EncodeUnfolds(d);
    assert Encode(d) == [89, 109, 70, 121];
  }

  /** The vectors of section 10 of RFC 4648. */
  lemma Section10Vectors(d: Bytes)
    ensures Reads(d, "") ==> Reads(Encode(d), "")
    ensures Reads(d, "f") ==> Reads(Encode(d), "Zg==")
    ensures Reads(d, "fo") ==> Reads(Encode(d), "Zm8=")
    ensures Reads(d, "foo") ==> Reads(Encode(d), "Zm9v")
    ensures Reads(d, "foo" + "b") ==> Reads(Encode(d), "Zm9v" + "Yg==")
    ensures Reads(d, "foo" + "ba") ==> Reads(Encode(d), "Zm9v" + "YmE=")
    ensures Reads(d, "foo" + "bar") ==> Reads(Encode(d), "Zm9v" + "YmFy")
  {
    ShortVectors(d);
    if |d| >= 3 && Reads(d[..3], "foo") {
      Foo(d);
      ShortVectors(d[3..]);
      if Reads(d[3..], "bar") {
        Bar(d[3..]);
      }
    }
  }
}
