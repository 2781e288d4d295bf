/** The standard encoding of section 4 of RFC 4648, as Go's `base64.StdEncoding` reads and writes
    it: padding is required, carriage returns and line feeds are skipped, and the unused bits of
    a last symbol may be anything. */
module Base64 {
  import opened Prelude

  type byte = b: int | 0 <= b < 256
  type sextet = v: int | 0 <= v < 64
  type Bytes = seq<byte>

  const PAD: byte := '=' as int
  const CR: byte := '\r' as int
  const LF: byte := '\n' as int

  function Symbol(v: sextet): byte {
    if v < 26 then 'A' as int + v
    else if v < 52 then 'a' as int + v - 26
    else if v < 62 then '0' as int + v - 52
    else if v == 62 then '+' as int
    else '/' as int
  }

  function Value(b: byte): Option<sextet> {
    if 'A' as int <= b <= 'Z' as int then Some(b - 'A' as int)
    else if 'a' as int <= b <= 'z' as int then Some(b - 'a' as int + 26)
    else if '0' as int <= b <= '9' as int then Some(b - '0' as int + 52)
    else if b == '+' as int then Some(62)
    else if b == '/' as int then Some(63)
    else None
  }

  lemma SymbolsAreValues(v: sextet, b: byte)
    ensures Value(Symbol(v)) == Some(v)
    ensures Value(b).Some? ==> Symbol(Value(b).value) == b
    ensures Value(b).Some? ==> b != PAD && b != CR && b != LF
  {
  }

  function Encode(d: Bytes): (s: Bytes)
    ensures forall b :: b in s ==> b == PAD || Value(b).Some?
    ensures d != [] ==> |s| > |d|
  {
    if d == [] then []
    else if |d| == 1 then [Symbol(d[0] / 4), Symbol(d[0] % 4 * 16), PAD, PAD]
    else if |d| == 2 then [Symbol(d[0] / 4), Symbol(d[0] % 4 * 16 + d[1] / 16), Symbol(d[1] % 16 * 4), PAD]
    else
      [Symbol(d[0] / 4), Symbol(d[0] % 4 * 16 + d[1] / 16), Symbol(d[1] % 16 * 4 + d[2] / 64), Symbol(d[2] % 64)]
      + Encode(d[3..])
  }

  function Strip(s: Bytes): (t: Bytes)
    ensures |t| <= |s|
    ensures forall b :: b in t <==> b in s && b != CR && b != LF
  {
    if s == [] then []
    else if s[0] == CR || s[0] == LF then Strip(s[1..])
    else [s[0]] + Strip(s[1..])
  }

  function First(v: sextet, w: sextet): byte { v * 4 + w / 16 }

  function Second(w: sextet, x: sextet): byte { w % 16 * 16 + x / 4 }

  function Third(x: sextet, y: sextet): byte { x % 4 * 64 + y }

  /** Decodes text without line breaks, four symbols at a time. */
  function DecodeQuanta(t: Bytes): (r: Option<Bytes>)
    ensures r.Some? && t != [] ==> 0 < |r.value| < |t|
  {
    if t == [] then Some([])
    else if |t| < 4 || Value(t[0]).None? || Value(t[1]).None? then None
    else
      var v, w := Value(t[0]).value, Value(t[1]).value;
      if |t| == 4 && t[2] == PAD && t[3] == PAD then
        Some([First(v, w)])
      else if Value(t[2]).None? then None
      else
        var x := Value(t[2]).value;
        if |t| == 4 && t[3] == PAD then
          Some([First(v, w), Second(w, x)])
        else if Value(t[3]).None? then None
        else match DecodeQuanta(t[4..])
          case None => None
          case Some(rest) => Some([First(v, w), Second(w, x), Third(x, Value(t[3]).value)] + rest)
  }

  /** Every successful decoding of a non-empty text is strictly shorter. */
  function Decode(s: Bytes): (r: Option<Bytes>)
    ensures r.Some? && s != [] ==> |r.value| < |s|
    ensures r == Some([]) <==> Strip(s) == []
  {
    DecodeQuanta(Strip(s))
  }

  lemma {:induction false} NothingToStrip(s: Bytes)
    requires forall b :: b in s ==> b != CR && b != LF
    ensures Strip(s) == s
  {
    if s != [] {
      assert s[0] in s && s == [s[0]] + s[1..] && forall b :: b in s[1..] ==> b in s;
      NothingToStrip(s[1..]);
    }
  }

  lemma {:induction false} FullQuantum(v: sextet, w: sextet, x: sextet, y: sextet, rest: Bytes, d: Bytes)
    requires DecodeQuanta(rest) == Some(d)
    ensures DecodeQuanta([Symbol(v), Symbol(w), Symbol(x), Symbol(y)] + rest) ==
            Some([First(v, w), Second(w, x), Third(x, y)] + d)
  {
    hide Symbol, Value, First, Second, Third;
    var t := [Symbol(v), Symbol(w), Symbol(x), Symbol(y)] + rest;
    assert t[4..] == rest;
    SymbolsAreValues(v, t[0]);
    SymbolsAreValues(w, t[1]);
    SymbolsAreValues(x, t[2]);
    SymbolsAreValues(y, t[3]);
  }

  lemma PaddedQuantum(v: sextet, w: sextet, x: sextet)
    ensures DecodeQuanta([Symbol(v), Symbol(w), PAD, PAD]) == Some([First(v, w)])
    ensures DecodeQuanta([Symbol(v), Symbol(w), Symbol(x), PAD]) == Some([First(v, w), Second(w, x)])
  {
    hide Symbol, Value, First, Second;
    SymbolsAreValues(v, Symbol(v));
    SymbolsAreValues(w, Symbol(w));
    SymbolsAreValues(x, Symbol(x));
  }

  lemma {:induction false} DecodeQuantaEncode(d: Bytes)
    ensures DecodeQuanta(Encode(d)) == Some(d)
  {
    hide DecodeQuanta, Symbol, First, Second, Third;
    if |d| >= 3 {
      DecodeQuantaEncode(d[3..]);
      FullQuantum(d[0] / 4, d[0] % 4 * 16 + d[1] / 16, d[1] % 16 * 4 + d[2] / 64, d[2] % 64, Encode(d[3..]), d[3..]);
      QuantumRoundTrip(d[0], d[1], d[2]);
      assert d == [d[0], d[1], d[2]] + d[3..];
    } else if |d| == 2 {
      PaddedQuantum(d[0] / 4, d[0] % 4 * 16 + d[1] / 16, d[1] % 16 * 4);
      QuantumRoundTrip(d[0], d[1], 0);
      assert d == [d[0], d[1]];
    } else if |d| == 1 {
      PaddedQuantum(d[0] / 4, d[0] % 4 * 16, 0);
      QuantumRoundTrip(d[0], 0, 0);
      assert d == [d[0]];
    } else {
      EmptyQuanta();
    }
  }

  lemma EmptyQuanta()
    ensures DecodeQuanta([]) == Some([])
  {
  }

  lemma QuantumRoundTrip(a: byte, b: byte, c: byte)
    ensures First(a / 4, a % 4 * 16 + b / 16) == a
    ensures Second(a % 4 * 16 + b / 16, b % 16 * 4 + c / 64) == b
    ensures Third(b % 16 * 4 + c / 64, c % 64) == c
  {
  }

  /** Decoding undoes encoding, for all data. */
  lemma {:induction false} DecodeEncode(d: Bytes)
    ensures Decode(Encode(d)) == Some(d)
  {
    NothingToStrip(Encode(d));
    DecodeQuantaEncode(d);
  }

  /** One byte that is neither a symbol nor padding nor a line break spoils the whole text. */
  lemma {:induction false} ForeignByteFails(s: Bytes, b: byte)
    requires b in s && Value(b).None? && b != PAD && b != CR && b != LF
    ensures Decode(s) == None
  {
    ForeignByteFailsQuanta(Strip(s), b);
  }

  lemma {:induction false} ForeignByteFailsQuanta(t: Bytes, b: byte)
    requires b in t && Value(b).None? && b != PAD
    ensures DecodeQuanta(t) == None
    decreases |t|
  {
    if |t| > 4 {
      assert t == t[..4] + t[4..] && t[..4] == [t[0], t[1], t[2], t[3]];
      if b in t[4..] {
        ForeignByteFailsQuanta(t[4..], b);
      }
    }
  }
}
