/** The unpadded Base32 of section 6 of RFC 4648, as the MFA helper writes it.

    Both directions shift through one 32-bit accumulator. It is never cleared, so its high bits are
    stale; all that matters is its low bits, as many as are still pending. Texts and byte strings are
    therefore compared as streams of bits: the accumulator's pending bits complete what was written. */
module Base32 {
  import opened Common

  const BASE32_ALPHABET := "ABCDEFGHIJKLMNOPQRSTUVWXYZ234567"

  // ---------------------------------------------------------------- bits

  /** Most significant bit first. */
  function ByteBits(b: bv8): (r: seq<bool>)
    ensures |r| == 8
  {
    [b & 128 != 0, b & 64 != 0, b & 32 != 0, b & 16 != 0, b & 8 != 0, b & 4 != 0, b & 2 != 0, b & 1 != 0]
  }

  /** A number below 32, by its five bits. */
  datatype Symbol = Symbol(b16: bool, b8: bool, b4: bool, b2: bool, b1: bool)

  function SymbolBits(v: Symbol): (r: seq<bool>)
    ensures |r| == 5
  {
    [v.b16, v.b8, v.b4, v.b2, v.b1]
  }

  function Bit(on: bool, mask: bv8): bv8 { if on then mask else 0 }

  function ByteOf(s: seq<bool>): bv8
    requires |s| == 8
  {
    Bit(s[0], 128) | Bit(s[1], 64) | Bit(s[2], 32) | Bit(s[3], 16) | Bit(s[4], 8)
        | Bit(s[5], 4) | Bit(s[6], 2) | Bit(s[7], 1)
  }

  function SymbolOf(s: seq<bool>): Symbol
    requires |s| == 5
  {
    Symbol(s[0], s[1], s[2], s[3], s[4])
  }

  lemma {:induction false} ByteOfBits(b: bv8)
    ensures ByteOf(ByteBits(b)) == b
  {
  }

  lemma {:induction false} MaskedBits(a: bv8, b: bv8, c: bv8, d: bv8, e: bv8, f: bv8, g: bv8, h: bv8)
    requires (a == 128 || a == 0) && (b == 64 || b == 0) && (c == 32 || c == 0) && (d == 16 || d == 0)
    requires (e == 8 || e == 0) && (f == 4 || f == 0) && (g == 2 || g == 0) && (h == 1 || h == 0)
    ensures var v := a | b | c | d | e | f | g | h;
      v & 128 == a && v & 64 == b && v & 32 == c && v & 16 == d && v & 8 == e && v & 4 == f && v & 2 == g && v & 1 == h
  {
  }

  lemma {:induction false} HighNibble(s: seq<bool>)
    requires |s| == 8
    ensures var v := ByteOf(s);
      (v & 128 != 0) == s[0] && (v & 64 != 0) == s[1] && (v & 32 != 0) == s[2] && (v & 16 != 0) == s[3]
  {
    MaskedBits(Bit(s[0], 128), Bit(s[1], 64), Bit(s[2], 32), Bit(s[3], 16),
               Bit(s[4], 8), Bit(s[5], 4), Bit(s[6], 2), Bit(s[7], 1));
  }

  lemma {:induction false} LowNibble(s: seq<bool>)
    requires |s| == 8
    ensures var v := ByteOf(s);
      (v & 8 != 0) == s[4] && (v & 4 != 0) == s[5] && (v & 2 != 0) == s[6] && (v & 1 != 0) == s[7]
  {
    MaskedBits(Bit(s[0], 128), Bit(s[1], 64), Bit(s[2], 32), Bit(s[3], 16),
               Bit(s[4], 8), Bit(s[5], 4), Bit(s[6], 2), Bit(s[7], 1));
  }

  lemma {:induction false} BitsOfByte(s: seq<bool>)
    requires |s| == 8
    ensures ByteBits(ByteOf(s)) == s
  {
    HighNibble(s);
    LowNibble(s);
  }

  lemma {:induction false} SymbolOfBits(v: Symbol)
    ensures SymbolOf(SymbolBits(v)) == v
  {
  }

  lemma {:induction false} BitsOfSymbol(s: seq<bool>)
    requires |s| == 5
    ensures SymbolBits(SymbolOf(s)) == s
  {
  }

  function Index(v: Symbol): (n: nat)
    ensures n < 32
  {
    (if v.b16 then 16 else 0) + (if v.b8 then 8 else 0) + (if v.b4 then 4 else 0)
        + (if v.b2 then 2 else 0) + (if v.b1 then 1 else 0)
  }

  function SymbolAt(n: nat): (v: Symbol)
    requires n < 32
    ensures Index(v) == n
  {
    Symbol(n >= 16, n % 16 >= 8, n % 8 >= 4, n % 4 >= 2, n % 2 == 1)
  }

  /** The alphabet character of a symbol. */
  function CharOf(v: Symbol): char { BASE32_ALPHABET[Index(v)] }

  /** `indexOf` in the alphabet, as a symbol. */
  function SymbolFor(c: char): Option<Symbol> {
    if 'A' <= c <= 'Z' then Some(SymbolAt(c as int - 'A' as int))
    else if '2' <= c <= '7' then Some(SymbolAt(c as int - '2' as int + 26))
    else None
  }

  lemma {:induction false} SymbolForChar(v: Symbol)
    ensures SymbolFor(CharOf(v)) == Some(v)
  {
  }

  /** The symbol found is the position of the character in the alphabet. */
  lemma {:induction false} SymbolForIsPosition(c: char)
    requires SymbolFor(c).Some?
    ensures CharOf(SymbolFor(c).value) == c
  {
  }

  lemma {:induction false} NoSymbolOutside(c: char)
    requires SymbolFor(c).None?
    ensures c !in BASE32_ALPHABET
  {
  }

  /** The thirty-two characters: the letters from A for values below 26, then the digits from 2. */
  lemma {:induction false} AlphabetCharacters(v: Symbol)
    ensures |BASE32_ALPHABET| == 32
    ensures CharOf(v) == if Index(v) < 26 then ('A' as int + Index(v)) as char else ('2' as int + Index(v) - 26) as char
  {
    SymbolForChar(v);
    SymbolForIsPosition(CharOf(v));
  }

  // ---------------------------------------------------------------- the accumulator

  /** The low `n` bits of the accumulator, the only ones that matter. */
  function Low(v: bv32, n: nat): (r: seq<bool>)
    ensures |r| == n
  {
    if n == 0 then [] else Low(v >> 1, n - 1) + [v & 1 != 0]
  }

  /** `v >>> k`, one place at a time. */
  function ShiftRight(v: bv32, k: nat): bv32 { if k == 0 then v else ShiftRight(v >> 1, k - 1) }

  function LowFive(v: bv32): Symbol { Symbol(v & 16 != 0, v & 8 != 0, v & 4 != 0, v & 2 != 0, v & 1 != 0) }

  /** The symbol's number as a 32-bit word. */
  function Word(v: Symbol): bv32 {
    (if v.b16 then 16 else 0) | (if v.b8 then 8 else 0) | (if v.b4 then 4 else 0)
        | (if v.b2 then 2 else 0) | (if v.b1 then 1 else 0)
  }

  function LowEight(v: bv32): bv8 { (v & 0xff) as bv8 }

  /** `v << k`, one place at a time. */
  function ShiftLeft(v: bv32, k: nat): bv32 { if k == 0 then v else ShiftLeft(v, k - 1) << 1 }

  lemma {:induction false} LowSplit(v: bv32, n: nat, k: nat)
    ensures Low(v, n + k) == Low(ShiftRight(v, k), n) + Low(v, k)
  {
    if k > 0 {
      LowSplit(v >> 1, n, k - 1);
      assert Low(v, n + k) == Low(v >> 1, n + (k - 1)) + [v & 1 != 0];
    }
  }

  lemma {:induction false} SymbolIsLow(w: bv32)
    ensures Low(w, 5) == SymbolBits(LowFive(w))
  {
    assert Low(w >> 1 >> 1 >> 1 >> 1, 1) == [w & 16 != 0];
    assert Low(w >> 1 >> 1 >> 1, 2) == [w & 16 != 0, w & 8 != 0];
    assert Low(w >> 1 >> 1, 3) == [w & 16 != 0, w & 8 != 0, w & 4 != 0];
    assert Low(w >> 1, 4) == [w & 16 != 0, w & 8 != 0, w & 4 != 0, w & 2 != 0];
  }

  lemma {:induction false} FiveRight(w: bv32)
    ensures ShiftRight(w, 5) == w >> 5
  {
    assert ShiftRight(w >> 1 >> 1 >> 1 >> 1, 1) == w >> 5;
    assert ShiftRight(w >> 1 >> 1, 3) == w >> 5;
  }

  lemma {:induction false} ThreeLow(u: bv32)
    ensures Low(u, 3) == [u & 4 != 0, u & 2 != 0, u & 1 != 0]
  {
    assert Low(u >> 1 >> 1, 1) == [u & 4 != 0];
    assert Low(u >> 1, 2) == [u & 4 != 0, u & 2 != 0];
  }

  lemma {:induction false} ByteHalves(w: bv32)
    ensures ByteBits(LowEight(w)) == [(w >> 5) & 4 != 0, (w >> 5) & 2 != 0, (w >> 5) & 1 != 0] + SymbolBits(LowFive(w))
  {
  }

  lemma {:induction false} ByteIsLow(w: bv32)
    ensures Low(w, 8) == ByteBits(LowEight(w))
  {
    LowSplit(w, 3, 5);
    SymbolIsLow(w);
    FiveRight(w);
    ThreeLow(w >> 5);
    ByteHalves(w);
  }

  /** Up to eight low bits are a suffix of the low byte. */
  lemma {:induction false} LowIsSuffix(w: bv32, n: nat)
    requires n <= 8
    ensures Low(w, n) == ByteBits(LowEight(w))[8 - n..]
  {
    LowSplit(w, 8 - n, n);
    ByteIsLow(w);
  }

  lemma {:induction false} ByteWithoutTop(a: bv8, b: bv8)
    requires a & 127 == b & 127
    ensures ByteBits(a)[1..] == ByteBits(b)[1..]
  {
  }

  lemma {:induction false} LowEightWithoutTop(x: bv32, y: bv32)
    requires x & 127 == y & 127
    ensures LowEight(x) & 127 == LowEight(y) & 127
  {
  }

  lemma {:induction false} ShorterSuffix(a: seq<bool>, b: seq<bool>, k: nat)
    requires 1 <= k <= |a| == |b| && a[1..] == b[1..]
    ensures a[k..] == b[k..]
  {
    assert a[k..] == a[1..][k - 1..] && b[k..] == b[1..][k - 1..];
  }

  /** Words with the same low seven bits. */
  lemma {:induction false} SevenAgree(x: bv32, y: bv32, n: nat)
    requires x & 127 == y & 127 && n <= 7
    ensures Low(x, n) == Low(y, n)
  {
    LowIsSuffix(x, n);
    LowIsSuffix(y, n);
    LowEightWithoutTop(x, y);
    ByteWithoutTop(LowEight(x), LowEight(y));
    ShorterSuffix(ByteBits(LowEight(x)), ByteBits(LowEight(y)), 8 - n);
  }

  lemma {:induction false} TakeSymbol(v: bv32, n: nat)
    requires n >= 5
    ensures Low(v, n) == SymbolBits(LowFive(ShiftRight(v, n - 5))) + Low(v, n - 5)
  {
    LowSplit(v, 5, n - 5);
    SymbolIsLow(ShiftRight(v, n - 5));
  }

  lemma {:induction false} TakeByte(v: bv32, n: nat)
    requires n >= 8
    ensures Low(v, n) == ByteBits(LowEight(ShiftRight(v, n - 8))) + Low(v, n - 8)
  {
    LowSplit(v, 8, n - 8);
    ByteIsLow(ShiftRight(v, n - 8));
  }

  lemma {:induction false} EightRight(w: bv32)
    ensures ShiftRight(w, 8) == w >> 8
  {
    FiveRight(w >> 1 >> 1 >> 1);
    assert ShiftRight(w >> 1, 7) == ShiftRight(w >> 1 >> 1, 6) == ShiftRight(w >> 1 >> 1 >> 1, 5);
  }

  /** Appending a byte, with the stale high bits shifted out of reach. */
  lemma {:induction false} ShiftInByte(v: bv32, b: bv8, n: nat)
    requires n < 5
    ensures Low((v << 8) | b as bv32, n + 8) == Low(v, n) + ByteBits(b)
  {
    var w := (v << 8) | b as bv32;
    LowSplit(w, n, 8);
    ByteIsLow(w);
    assert LowEight(w) == b;
    EightRight(w);
    SevenAgree(ShiftRight(w, 8), v, n);
  }

  lemma {:induction false} ShiftInSymbol(v: bv32, s: Symbol, n: nat)
    requires n < 8
    ensures Low((v << 5) | Word(s), n + 5) == Low(v, n) + SymbolBits(s)
  {
    var w := (v << 5) | Word(s);
    LowSplit(w, n, 5);
    SymbolIsLow(w);
    assert LowFive(w) == s;
    FiveRight(w);
    SevenAgree(ShiftRight(w, 5), v, n);
  }

  function Zeros(n: nat): (r: seq<bool>)
    ensures |r| == n
  {
    seq(n, i => false)
  }

  lemma {:induction false} DoubledLow(u: bv32)
    ensures ((u << 1) >> 1) & 127 == u & 127 && (u << 1) & 1 == 0
  {
  }

  lemma {:induction false} DoubledBits(u: bv32, m: nat)
    requires m <= 7
    ensures Low(u << 1, m + 1) == Low(u, m) + [false]
  {
    DoubledLow(u);
    SevenAgree((u << 1) >> 1, u, m);
  }

  lemma {:induction false} DoubledPadding(u: bv32, m: nat, low: seq<bool>, k: nat)
    requires m <= 7 && k > 0 && Low(u, m) == low + Zeros(k - 1)
    ensures Low(u << 1, m + 1) == low + Zeros(k)
  {
    DoubledBits(u, m);
    assert Zeros(k) == Zeros(k - 1) + [false];
    assert low + Zeros(k) == low + Zeros(k - 1) + [false];
  }

  lemma {:induction false} ShiftLeftBits(v: bv32, k: nat, n: nat, u: bv32, low: seq<bool>)
    requires n + k <= 7 && low == Low(v, n) && u == ShiftLeft(v, k)
    ensures Low(u, n + k) == low + Zeros(k)
  {
    if k > 0 {
      var u' := ShiftLeft(v, k - 1);
      ShiftLeftBits(v, k - 1, n, u', low);
      DoubledPadding(u', n + k - 1, low, k);
    }
  }

  /** The last group is padded with zero bits. */
  lemma {:induction false} LastSymbol(v: bv32, n: nat)
    requires 0 < n < 5
    ensures SymbolBits(LowFive(ShiftLeft(v, 5 - n))) == Low(v, n) + Zeros(5 - n)
  {
    var u := ShiftLeft(v, 5 - n);
    SymbolIsLow(u);
    ShiftLeftBits(v, 5 - n, n, u, Low(v, n));
  }

  // ---------------------------------------------------------------- the encoding as bit strings

  function Stream(bytes: seq<bv8>): (r: seq<bool>)
    ensures |r| == 8 * |bytes|
  {
    if bytes == [] then [] else ByteBits(bytes[0]) + Stream(bytes[1..])
  }

  function SymbolStream(symbols: seq<Symbol>): (r: seq<bool>)
    ensures |r| == 5 * |symbols|
  {
    if symbols == [] then [] else SymbolBits(symbols[0]) + SymbolStream(symbols[1..])
  }

  /** Groups of five bits, the last one padded with zeros. */
  function Chop(bits: seq<bool>): seq<Symbol> {
    if bits == [] then []
    else if |bits| < 5 then [SymbolOf(bits + Zeros(5 - |bits|))]
    else [SymbolOf(bits[..5])] + Chop(bits[5..])
  }

  /** Whole bytes; a shorter remainder is dropped. */
  function Pack(bits: seq<bool>): seq<bv8> {
    if |bits| < 8 then [] else [ByteOf(bits[..8])] + Pack(bits[8..])
  }

  function Text(symbols: seq<Symbol>): (r: string)
    ensures |r| == |symbols|
  {
    if symbols == [] then [] else [CharOf(symbols[0])] + Text(symbols[1..])
  }

  function Encode(bytes: seq<bv8>): string { Text(Chop(Stream(bytes))) }

  datatype InvalidSecret = InvalidBase32Secret

  function Parse(clean: string): (r: Result<seq<Symbol>, InvalidSecret>)
    ensures r.Success? ==> |r.value| == |clean|
  {
    if clean == [] then Success([])
    else match (SymbolFor(clean[0]), Parse(clean[1..]))
      case (Some(v), Success(rest)) => Success([v] + rest)
      case _ => Failure(InvalidBase32Secret)
  }

  function DecodeClean(clean: string): Result<seq<bv8>, InvalidSecret> {
    match Parse(clean)
    case Success(symbols) => Success(Pack(SymbolStream(symbols)))
    case Failure(e) => Failure(e)
  }

  lemma {:induction false} StreamConcat(a: seq<bv8>, b: seq<bv8>)
    ensures Stream(a + b) == Stream(a) + Stream(b)
  {
    if a == [] { assert a + b == b; }
    else { assert (a + b)[1..] == a[1..] + b; StreamConcat(a[1..], b); }
  }

  lemma {:induction false} SymbolStreamConcat(a: seq<Symbol>, b: seq<Symbol>)
    ensures SymbolStream(a + b) == SymbolStream(a) + SymbolStream(b)
  {
    if a == [] { assert a + b == b; }
    else { assert (a + b)[1..] == a[1..] + b; SymbolStreamConcat(a[1..], b); }
  }

  lemma {:induction false} TextConcat(a: seq<Symbol>, b: seq<Symbol>)
    ensures Text(a + b) == Text(a) + Text(b)
  {
    if a == [] { assert a + b == b; }
    else { assert (a + b)[1..] == a[1..] + b; TextConcat(a[1..], b); }
  }

  lemma {:induction false} StreamSnoc(bytes: seq<bv8>, b: bv8)
    ensures Stream(bytes + [b]) == Stream(bytes) + ByteBits(b)
  {
    StreamConcat(bytes, [b]);
    assert [b][1..] == [];
    assert Stream([b]) == ByteBits(b) + Stream([]) == ByteBits(b);
  }

  lemma {:induction false} SymbolsSnoc(symbols: seq<Symbol>, v: Symbol)
    ensures SymbolStream(symbols + [v]) == SymbolStream(symbols) + SymbolBits(v)
    ensures Text(symbols + [v]) == Text(symbols) + [CharOf(v)]
  {
    SymbolStreamConcat(symbols, [v]);
    TextConcat(symbols, [v]);
    assert [v][1..] == [];
    assert SymbolStream([v]) == SymbolBits(v) + SymbolStream([]) == SymbolBits(v);
    assert Text([v]) == [CharOf(v)] + Text([]) == [CharOf(v)];
  }

  function Padding(n: nat): nat { (5 - n % 5) % 5 }

  lemma {:induction false} ChopShort(bits: seq<bool>)
    requires 0 < |bits| < 5
    ensures SymbolStream(Chop(bits)) == bits + Zeros(5 - |bits|)
  {
    var group := bits + Zeros(5 - |bits|);
    BitsOfSymbol(group);
    assert Chop(bits)[1..] == [];
    assert SymbolStream(Chop(bits)) == group + [];
  }

  lemma {:induction false} ChopLong(bits: seq<bool>)
    requires |bits| >= 5
    ensures SymbolStream(Chop(bits)) == bits[..5] + SymbolStream(Chop(bits[5..]))
  {
    BitsOfSymbol(bits[..5]);
    assert Chop(bits)[1..] == Chop(bits[5..]);
  }

  lemma {:induction false} PaddingRepeats(n: nat)
    ensures Padding(n + 5) == Padding(n)
  {
  }

  lemma {:induction false} Reattach(bits: seq<bool>, tail: seq<bool>)
    requires |bits| >= 5
    ensures bits[..5] + (bits[5..] + tail) == bits + tail
  {
  }

  lemma {:induction false} ChopStream(bits: seq<bool>)
    ensures SymbolStream(Chop(bits)) == bits + Zeros(Padding(|bits|))
  {
    if 0 < |bits| < 5 {
      ChopShort(bits);
    } else if |bits| >= 5 {
      var rest := bits[5..];
      ChopLong(bits);
      ChopStream(rest);
      PaddingRepeats(|rest|);
      Reattach(bits, Zeros(Padding(|rest|)));
    }
  }

  /** What is made of fewer than five remaining bits. */
  function LastOf(tail: seq<bool>): seq<Symbol>
    requires |tail| < 5
  {
    if tail == [] then [] else [SymbolOf(tail + Zeros(5 - |tail|))]
  }

  lemma {:induction false} ChopFirst(v: Symbol, rest: seq<bool>)
    ensures Chop(SymbolBits(v) + rest) == [v] + Chop(rest)
  {
    var bits := SymbolBits(v) + rest;
    assert bits[..5] == SymbolBits(v) && bits[5..] == rest;
    SymbolOfBits(v);
  }

  lemma {:induction false} ChopSymbols(symbols: seq<Symbol>, tail: seq<bool>)
    requires |tail| < 5
    ensures Chop(SymbolStream(symbols) + tail) == symbols + LastOf(tail)
  {
    if symbols == [] {
      assert SymbolStream(symbols) + tail == tail;
    } else {
      var rest := SymbolStream(symbols[1..]) + tail;
      assert SymbolStream(symbols) + tail == SymbolBits(symbols[0]) + rest;
      ChopFirst(symbols[0], rest);
      ChopSymbols(symbols[1..], tail);
      assert [symbols[0]] + (symbols[1..] + LastOf(tail)) == symbols + LastOf(tail);
    }
  }

  lemma {:induction false} PackStream(bytes: seq<bv8>, rest: seq<bool>)
    requires |rest| < 8
    ensures Pack(Stream(bytes) + rest) == bytes
  {
    if bytes == [] {
      assert Stream(bytes) + rest == rest;
    } else {
      var bits := Stream(bytes) + rest;
      assert bits[..8] == ByteBits(bytes[0]) && bits[8..] == Stream(bytes[1..]) + rest;
      ByteOfBits(bytes[0]);
      PackStream(bytes[1..], rest);
    }
  }

  lemma {:induction false} StreamPack(bits: seq<bool>)
    ensures Stream(Pack(bits)) == bits[..|bits| - |bits| % 8]
  {
    if |bits| >= 8 {
      BitsOfByte(bits[..8]);
      StreamPack(bits[8..]);
      assert Pack(bits)[1..] == Pack(bits[8..]);
      assert bits[8..][..|bits| - 8 - |bits| % 8] == bits[8..|bits| - |bits| % 8];
      assert bits[..8] + bits[8..|bits| - |bits| % 8] == bits[..|bits| - |bits| % 8];
    }
  }

  lemma {:induction false} ParseCons(c: char, rest: string)
    ensures Parse([c] + rest)
      == if SymbolFor(c).Some? && Parse(rest).Success? then Success([SymbolFor(c).value] + Parse(rest).value)
                                 else Failure(InvalidBase32Secret)
  {
    assert ([c] + rest)[1..] == rest;
  }

  lemma {:induction false} ParseText(symbols: seq<Symbol>)
    ensures Parse(Text(symbols)) == Success(symbols)
  {
    if symbols != [] {
      ParseText(symbols[1..]);
      SymbolForChar(symbols[0]);
      ParseCons(CharOf(symbols[0]), Text(symbols[1..]));
      assert symbols == [symbols[0]] + symbols[1..];
    }
  }

  lemma {:induction false} TextParse(clean: string)
    requires Parse(clean).Success?
    ensures Text(Parse(clean).value) == clean
  {
    if clean != [] {
      SymbolForIsPosition(clean[0]);
      TextParse(clean[1..]);
      assert clean == [clean[0]] + clean[1..];
    }
  }

  lemma {:induction false} ParseConcat(a: string, b: string)
    ensures Parse(a + b) == if Parse(a).Success? && Parse(b).Success? then Success(Parse(a).value + Parse(b).value)
                            else Failure(InvalidBase32Secret)
  {
    if a == [] { assert a + b == b; assert Parse(b).Success? ==> [] + Parse(b).value == Parse(b).value; }
    else {
      assert (a + b)[1..] == a[1..] + b;
      ParseConcat(a[1..], b);
      if Parse(a + b).Success? {
        assert Parse(a).value + Parse(b).value == [Parse(a).value[0]] + (Parse(a[1..]).value + Parse(b).value);
      }
    }
  }

  /** The central law: decoding an encoding gives the bytes back, whatever they are. */
  lemma {:induction false} RoundTrip(bytes: seq<bv8>)
    ensures DecodeClean(Encode(bytes)) == Success(bytes)
  {
    ParseText(Chop(Stream(bytes)));
    ChopStream(Stream(bytes));
    PackStream(bytes, Zeros(Padding(|Stream(bytes)|)));
  }

  // ---------------------------------------------------------------- which texts decode, and which are canonical

  /** Decoding fails exactly when some character is outside the alphabet. */
  lemma {:induction false} FailsExactlyWhen(clean: string)
    ensures DecodeClean(clean).Failure? <==> exists c :: c in clean && SymbolFor(c).None?
  {
    if clean != [] {
      assert clean[0] in clean && forall c :: c in clean <==> c == clean[0] || c in clean[1..];
      FailsExactlyWhen(clean[1..]);
    }
  }

  lemma {:induction false} SymbolStreamInjective(a: seq<Symbol>, b: seq<Symbol>)
    requires SymbolStream(a) == SymbolStream(b)
    ensures a == b
  {
    assert |a| == |b|;
    if a != [] {
      assert SymbolStream(a)[..5] == SymbolBits(a[0]) && SymbolStream(b)[..5] == SymbolBits(b[0]);
      assert SymbolStream(a)[5..] == SymbolStream(a[1..]) && SymbolStream(b)[5..] == SymbolStream(b[1..]);
      SymbolOfBits(a[0]);
      SymbolOfBits(b[0]);
      SymbolStreamInjective(a[1..], b[1..]);
      assert a == [a[0]] + a[1..] && b == [b[0]] + b[1..];
    }
  }

  /** How many bits of the text are beyond its last whole byte. */
  function Leftover(length: nat): nat { 5 * length % 8 }

  /** The low `r` bits of the last symbol. */
  function TailBits(symbols: seq<Symbol>, r: nat): seq<bool>
    requires r < 5
  {
    if symbols == [] then [] else SymbolBits(symbols[|symbols| - 1])[5 - r..]
  }

  /** No needless last character, and zero bits where it is padded. */
  predicate CanonicalSymbols(symbols: seq<Symbol>) {
    var r := Leftover(|symbols|);
    r < 5 && TailBits(symbols, r) == Zeros(r)
  }

  lemma {:induction false} SuffixOfConcat(a: seq<bool>, b: seq<bool>, r: nat)
    requires r <= |b|
    ensures (a + b)[|a + b| - r..] == b[|b| - r..]
  {
  }

  lemma {:induction false} SplitLast<T>(s: seq<T>)
    requires s != []
    ensures s == s[..|s| - 1] + [s[|s| - 1]]
  {
  }

  lemma {:induction false} LeftoverBits(symbols: seq<Symbol>, r: nat, bits: seq<bool>)
    requires r < 5 && bits == SymbolStream(symbols) && (symbols == [] ==> r == 0)
    ensures bits[|bits| - r..] == TailBits(symbols, r)
  {
    if symbols != [] {
      var front, last := symbols[..|symbols| - 1], symbols[|symbols| - 1];
      SplitLast(symbols);
      SymbolsSnoc(front, last);
      SuffixOfConcat(SymbolStream(front), SymbolBits(last), r);
    }
  }

  lemma {:induction false} Complement(x: nat, r: nat)
    requires r < 8 && (x + r) % 5 == 0
    ensures Padding(x) == r % 5 && (r < 5 ==> Padding(x) == r)
  {
    assert x % 5 + r % 5 == 0 || x % 5 + r % 5 == 5;
  }

  lemma {:induction false} PaddingOfWhole(m: nat)
    ensures var r := Leftover(m); Padding(5 * m - r) == r % 5 && (r < 5 ==> Padding(5 * m - r) == r)
  {
    Complement(5 * m - Leftover(m), Leftover(m));
  }

  lemma {:induction false} KeptBits(symbols: seq<Symbol>, kept: seq<bool>, tail: seq<bool>)
    requires SymbolStream(symbols) == kept + tail && |tail| == Leftover(|symbols|)
    ensures Chop(kept) == symbols <==> |tail| < 5 && tail == Zeros(|tail|)
  {
    ChopStream(kept);
    PaddingOfWhole(|symbols|);
    if Chop(kept) == symbols {
      assert kept + Zeros(Padding(|kept|)) == kept + tail;
      assert |Zeros(Padding(|kept|))| == |tail|;
      assert tail == (kept + tail)[|kept|..];
    } else if |tail| < 5 && tail == Zeros(|tail|) {
      SymbolStreamInjective(Chop(kept), symbols);
    }
  }

  /** Re-encoding what was decoded gives the same symbols exactly for canonical ones. */
  lemma {:induction false} CanonicalExactly(symbols: seq<Symbol>)
    ensures Chop(Stream(Pack(SymbolStream(symbols)))) == symbols <==> CanonicalSymbols(symbols)
  {
    var bits := SymbolStream(symbols);
    var r := Leftover(|symbols|);
    StreamPack(bits);
    CanonicalTail(symbols, r, bits);
    SplitAt(bits, |bits| - r);
    KeptBits(symbols, bits[..|bits| - r], bits[|bits| - r..]);
  }

  lemma {:induction false} SplitAt(bits: seq<bool>, k: nat)
    requires k <= |bits|
    ensures bits[..k] + bits[k..] == bits
  {
  }

  lemma {:induction false} CanonicalTail(symbols: seq<Symbol>, r: nat, bits: seq<bool>)
    requires r == Leftover(|symbols|) && bits == SymbolStream(symbols) && r <= |bits|
    ensures CanonicalSymbols(symbols) <==> r < 5 && bits[|bits| - r..] == Zeros(r)
  {
    if r < 5 { LeftoverBits(symbols, r, bits); }
  }

  /** A text is its own re-encoding exactly when it is in the alphabet, has no needless last
      character and pads with zero bits; any other accepted text is a second spelling. */
  lemma {:induction false} ReencodesExactlyWhen(clean: string)
    ensures (DecodeClean(clean).Success? && Encode(DecodeClean(clean).value) == clean)
      <==> (Parse(clean).Success? && CanonicalSymbols(Parse(clean).value))
  {
    if Parse(clean).Success? {
      var symbols := Parse(clean).value;
      CanonicalExactly(symbols);
      TextParse(clean);
      var again := Chop(Stream(Pack(SymbolStream(symbols))));
      ParseText(again);
    }
  }

  // ---------------------------------------------------------------- cleaning what was typed

  function StripPadding(s: string): string {
    if s != [] && s[|s| - 1] == '=' then StripPadding(s[..|s| - 1]) else s
  }

  function RemoveSpace(s: string): string {
    if s == [] then [] else (if IsSpace(s[0]) then [] else [s[0]]) + RemoveSpace(s[1..])
  }

  /** `toUpperCase` on a character, where its result can be in the alphabet; elsewhere it stays outside. */
  function UpperOf(c: char): string {
    if 'a' <= c <= 'z' then [(c as int - 'a' as int + 'A' as int) as char]
    else if c == '\U{DF}' then "SS"
    else if c == '\U{131}' then "I"
    else if c == '\U{17F}' then "S"
    else if c == '\U{FB00}' then "FF"
    else if c == '\U{FB01}' then "FI"
    else if c == '\U{FB02}' then "FL"
    else if c == '\U{FB03}' then "FFI"
    else if c == '\U{FB04}' then "FFL"
    else if c == '\U{FB05}' || c == '\U{FB06}' then "ST"
    else [c]
  }

  function Upper(s: string): string { if s == [] then [] else UpperOf(s[0]) + Upper(s[1..]) }

  /** Padding is stripped first, so padding before trailing space stays. */
  function Clean(value: string): string { Upper(RemoveSpace(StripPadding(value))) }

  function Decode(value: string): Result<seq<bv8>, InvalidSecret> { DecodeClean(Clean(value)) }

  lemma {:induction false} UpperConcat(a: string, b: string)
    ensures Upper(a + b) == Upper(a) + Upper(b)
  {
    if a == [] { assert a + b == b; }
    else { assert (a + b)[1..] == a[1..] + b; UpperConcat(a[1..], b); }
  }

  lemma {:induction false} StripsPadding(s: string, n: nat)
    requires s == [] || s[|s| - 1] != '='
    ensures StripPadding(s + seq(n, i => '=')) == s
  {
    var t := s + seq(n, i => '=');
    if n == 0 { assert t == s; }
    else { assert t[..|t| - 1] == s + seq(n - 1, i => '='); StripsPadding(s, n - 1); }
  }

  lemma {:induction false} SpaceKeepsEquals(s: string)
    requires '=' in s
    ensures '=' in RemoveSpace(s)
  {
    if s[0] != '=' { assert '=' in s[1..]; SpaceKeepsEquals(s[1..]); }
  }

  lemma {:induction false} UpperKeepsEquals(s: string)
    requires '=' in s
    ensures '=' in Upper(s)
  {
    if s[0] != '=' { assert '=' in s[1..]; UpperKeepsEquals(s[1..]); }
    else { assert UpperOf(s[0]) == "="; }
  }

  lemma {:induction false} KeptEquals(s: string)
    requires '=' in s
    ensures '=' in Upper(RemoveSpace(s))
  {
    SpaceKeepsEquals(s);
    UpperKeepsEquals(RemoveSpace(s));
  }

  lemma {:induction false} TextInAlphabet(symbols: seq<Symbol>, c: char)
    requires c in Text(symbols)
    ensures SymbolFor(c).Some?
  {
    SymbolForChar(symbols[0]);
    if c != CharOf(symbols[0]) { TextInAlphabet(symbols[1..], c); }
  }

  /** A secret decodes however it was typed: spaced anywhere, in either case, padded at the end. */
  lemma {:induction false} DecodesAsTyped(bytes: seq<bv8>, typed: string, padding: nat)
    requires Upper(RemoveSpace(typed)) == Encode(bytes)
    ensures Decode(typed + seq(padding, i => '=')) == Success(bytes)
  {
    if typed != [] && typed[|typed| - 1] == '=' {
      KeptEquals(typed);
      TextInAlphabet(Chop(Stream(bytes)), '=');
      assert false;
    }
    StripsPadding(typed, padding);
    RoundTrip(bytes);
  }

  /** A typed character that cannot spoil a secret: white space, or one whose upper case is in the alphabet. */
  predicate Readable(c: char) { IsSpace(c) || forall d :: d in UpperOf(c) ==> SymbolFor(d).Some? }

  /** The letters beyond ASCII whose upper case is in the alphabet: sharp s, dotless i, long s and the Latin ligatures
      of f, i, l, s and t. */
  predicate Foreign(c: char) {
    c == '\U{DF}' || c == '\U{131}' || c == '\U{17F}' || '\U{FB00}' <= c <= '\U{FB06}'
  }

  /** What a user may type in a secret: letters in either case, the digits from 2 to 7, white space, and the few
      letters that are written as these in capitals. */
  lemma {:induction false} ReadableExactly(c: char)
    ensures Readable(c) <==>
      'A' <= c <= 'Z' || 'a' <= c <= 'z' || '2' <= c <= '7' || IsSpace(c) || Foreign(c)
  {
    if Foreign(c) {
      assert forall d :: d in UpperOf(c) ==> 'A' <= d <= 'Z';
    } else if !('a' <= c <= 'z') {
      assert UpperOf(c) == [c] && c in [c];
    } else {
      assert forall d :: d in UpperOf(c) ==> 'A' <= d <= 'Z';
    }
  }

  lemma {:induction false} ForeignLetters()
    ensures Upper("\U{DF}") == "SS" && Upper("\U{131}") == "I" && Upper("\U{17F}") == "S"
    ensures Upper("\U{FB00}") == "FF" && Upper("\U{FB01}") == "FI" && Upper("\U{FB02}") == "FL"
    ensures Upper("\U{FB03}") == "FFI" && Upper("\U{FB04}") == "FFL"
    ensures Upper("\U{FB05}") == Upper("\U{FB06}") == "ST"
  {
    forall c: char ensures Upper([c]) == UpperOf(c) { assert [c][1..] == [] && UpperOf(c) + [] == UpperOf(c); }
  }

  function LowerOf(c: char): char { if 'A' <= c <= 'Z' then (c as int - 'A' as int + 'a' as int) as char else c }

  function Lowered(s: string): string { if s == [] then [] else [LowerOf(s[0])] + Lowered(s[1..]) }

  lemma {:induction false} LoweredSnoc(s: string, c: char)
    ensures Lowered(s + [c]) == Lowered(s) + [LowerOf(c)]
  {
    if s != [] {
      assert (s + [c])[1..] == s[1..] + [c];
      LoweredSnoc(s[1..], c);
    } else {
      assert Lowered([c]) == [LowerOf(c)] + Lowered([c][1..]);
    }
  }

  lemma {:induction false} StripLowered(s: string)
    ensures StripPadding(Lowered(s)) == Lowered(StripPadding(s))
  {
    if s != [] {
      var front, last := s[..|s| - 1], s[|s| - 1];
      assert s == front + [last];
      LoweredSnoc(front, last);
      assert Lowered(s)[..|Lowered(s)| - 1] == Lowered(front) && Lowered(s)[|Lowered(s)| - 1] == LowerOf(last);
      if last == '=' { StripLowered(front); }
    }
  }

  lemma {:induction false} UpperOfLowered(s: string)
    ensures Upper(RemoveSpace(Lowered(s))) == Upper(RemoveSpace(s))
  {
    if s != [] {
      UpperOfLowered(s[1..]);
      assert Lowered(s)[0] == LowerOf(s[0]) && Lowered(s)[1..] == Lowered(s[1..]);
      assert IsSpace(LowerOf(s[0])) == IsSpace(s[0]) && UpperOf(LowerOf(s[0])) == UpperOf(s[0]);
      if !IsSpace(s[0]) {
        UpperConcat([s[0]], RemoveSpace(s[1..]));
        UpperConcat([LowerOf(s[0])], RemoveSpace(Lowered(s[1..])));
        assert Upper([s[0]]) == UpperOf(s[0]) + Upper([s[0]][1..]);
        assert Upper([LowerOf(s[0])]) == UpperOf(LowerOf(s[0])) + Upper([LowerOf(s[0])][1..]);
      } else {
        assert [] + RemoveSpace(s[1..]) == RemoveSpace(s[1..]);
        assert [] + RemoveSpace(Lowered(s[1..])) == RemoveSpace(Lowered(s[1..]));
      }
    }
  }

  /** Whatever is typed, its capitals may as well be small letters. */
  lemma {:induction false} CaseDoesNotMatter(value: string)
    ensures Decode(Lowered(value)) == Decode(value)
  {
    StripLowered(value);
    UpperOfLowered(StripPadding(value));
  }

  /** Cleaning keeps exactly the upper case of what is not space. */
  lemma {:induction false} CleanedCharacters(s: string, d: char)
    ensures d in Upper(RemoveSpace(s)) <==> exists c :: c in s && !IsSpace(c) && d in UpperOf(c)
  {
    if s != [] {
      var head := if IsSpace(s[0]) then [] else [s[0]];
      UpperConcat(head, RemoveSpace(s[1..]));
      CleanedCharacters(s[1..], d);
      assert Upper([]) == [] && [s[0]][1..] == [];
      assert Upper([s[0]]) == UpperOf(s[0]) + Upper([]);
      forall c ensures c in s <==> c == s[0] || c in s[1..] { assert s == [s[0]] + s[1..]; }
    }
  }

  /** What is typed decodes exactly when, short of padding at its very end, every character of it is readable. */
  lemma {:induction false} DecodesExactlyWhen(value: string)
    ensures Decode(value).Success? <==> forall c :: c in StripPadding(value) ==> Readable(c)
  {
    var s := StripPadding(value);
    FailsExactlyWhen(Clean(value));
    forall d
      ensures d in Clean(value) <==> exists c :: c in s && !IsSpace(c) && d in UpperOf(c)
    {
      CleanedCharacters(s, d);
    }
    if d :| d in Clean(value) && SymbolFor(d).None? {
      var c :| c in s && !IsSpace(c) && d in UpperOf(c);
      assert !Readable(c);
    }
    if c :| c in s && !Readable(c) {
      var d :| d in UpperOf(c) && SymbolFor(d).None?;
      assert d in Clean(value);
    }
  }

  lemma {:induction false} EqualsUnreadable()
    ensures !Readable('=')
  {
    assert '=' in UpperOf('=');
  }

  /** So a value with nothing unreadable but padding decodes exactly when all of its padding is at the very end. */
  lemma {:induction false} PaddedDecodesExactlyWhen(value: string)
    requires forall c :: c in value && c != '=' ==> Readable(c)
    ensures Decode(value).Success? <==> '=' !in StripPadding(value)
  {
    DecodesExactlyWhen(value);
    var s := StripPadding(value);
    StripsOnlyEnd(value, 0);
    EqualsUnreadable();
    forall c | c in s ensures c in value { var i :| 0 <= i < |s| && s[i] == c; assert value[i] == c; }
  }

  lemma {:induction false} StripsOnlyEnd(s: string, j: nat)
    ensures StripPadding(s) <= s
    ensures j < |s| && s[j] != '=' ==> j < |StripPadding(s)|
  {
    if s != [] && s[|s| - 1] == '=' { StripsOnlyEnd(s[..|s| - 1], j); }
  }

  /** Anything but padding after padding is refused, such as one space or several, or padding in two groups. */
  lemma {:induction false} SpaceAfterPaddingFails(typed: string, tail: string, c: char)
    requires c in tail && c != '='
    ensures Decode(typed + "=" + tail).Failure?
  {
    var t := typed + "=" + tail;
    var i :| 0 <= i < |tail| && tail[i] == c;
    assert t[|typed| + 1 + i] == c && t[|typed|] == '=';
    StripsOnlyEnd(t, |typed| + 1 + i);
    assert StripPadding(t)[|typed|] == '=';
    EqualsUnreadable();
    DecodesExactlyWhen(t);
  }

  // ---------------------------------------------------------------- the program

  /** The bits of `done` are those already written as symbols, then the low `bits` of the accumulator. */
  ghost predicate Encoding(done: seq<bv8>, symbols: seq<Symbol>, value: bv32, bits: nat, output: string) {
    && SymbolStream(symbols) + Low(value, bits) == Stream(done)
    && output == Text(symbols)
  }

  lemma {:induction false} EncodeByte(done: seq<bv8>, symbols: seq<Symbol>, value: bv32, bits: nat, output: string,
                                      b: bv8)
    requires bits < 5 && Encoding(done, symbols, value, bits, output)
    ensures Encoding(done + [b], symbols, (value << 8) | b as bv32, bits + 8, output)
  {
    ShiftInByte(value, b, bits);
    StreamSnoc(done, b);
    Appended(SymbolStream(symbols), Low(value, bits), ByteBits(b), Stream(done),
             Low((value << 8) | b as bv32, bits + 8));
  }

  lemma {:induction false} Appended(written: seq<bool>, pending: seq<bool>, more: seq<bool>, stream: seq<bool>,
                                    longer: seq<bool>)
    requires written + pending == stream && longer == pending + more
    ensures written + longer == stream + more
  {
  }

  lemma {:induction false} EncodeSymbol(done: seq<bv8>, symbols: seq<Symbol>, value: bv32, bits: nat, output: string,
                                        v: Symbol)
    requires bits >= 5 && Encoding(done, symbols, value, bits, output)
    requires v == LowFive(ShiftRight(value, bits - 5))
    ensures Encoding(done, symbols + [v], value, bits - 5, output + [CharOf(v)])
  {
    TakeSymbol(value, bits);
    SymbolsSnoc(symbols, v);
  }

  lemma {:induction false} EncodeLast(done: seq<bv8>, symbols: seq<Symbol>, value: bv32, bits: nat, output: string)
    requires bits < 5 && Encoding(done, symbols, value, bits, output)
    ensures Encode(done) ==
      if bits == 0 then output else output + [CharOf(LowFive(ShiftLeft(value, 5 - bits)))]
  {
    ChopSymbols(symbols, Low(value, bits));
    if bits == 0 {
      assert symbols + [] == symbols;
    } else {
      var v := LowFive(ShiftLeft(value, 5 - bits));
      LastSymbol(value, bits);
      SymbolOfBits(v);
      SymbolsSnoc(symbols, v);
    }
  }

  /** The inner loop: write every whole group of five pending bits. */
  method WriteSymbols(value: bv32, pending: nat, written: string, ghost done: seq<bv8>, ghost before: seq<Symbol>)
    returns (bits: nat, output: string, ghost symbols: seq<Symbol>)
    requires Encoding(done, before, value, pending, written)
    ensures bits < 5 && Encoding(done, symbols, value, bits, output)
  {
    bits, output, symbols := pending, written, before;
    while bits >= 5
      invariant Encoding(done, symbols, value, bits, output)
    {
      var v := LowFive(ShiftRight(value, bits - 5));
      EncodeSymbol(done, symbols, value, bits, output, v);
      bits, output, symbols := bits - 5, output + [CharOf(v)], symbols + [v];
    }
  }

  method Base32Encode(buffer: seq<bv8>) returns (output: string)
    ensures output == Encode(buffer)
  {
    var bits: nat := 0;
    var value: bv32 := 0;
    output := "";
    ghost var symbols: seq<Symbol> := [];
    for i := 0 to |buffer|
      invariant bits < 5
      invariant Encoding(buffer[..i], symbols, value, bits, output)
    {
      EncodeByte(buffer[..i], symbols, value, bits, output, buffer[i]);
      Extend(buffer, i);
      value := (value << 8) | buffer[i] as bv32;
      bits, output, symbols := WriteSymbols(value, bits + 8, output, buffer[..i + 1], symbols);
    }
    Extend(buffer, |buffer|);
    EncodeLast(buffer, symbols, value, bits, output);
    if bits > 0 {
      output := output + [CharOf(LowFive(ShiftLeft(value, 5 - bits)))];
    }
  }

  lemma {:induction false} Extend<T>(s: seq<T>, i: nat)
    requires i <= |s|
    ensures i < |s| ==> s[..i + 1] == s[..i] + [s[i]]
    ensures s[..|s|] == s
  {
  }

  ghost predicate Decoding(symbols: seq<Symbol>, bytes: seq<bv8>, buffer: bv32, bits: nat) {
    Stream(bytes) + Low(buffer, bits) == SymbolStream(symbols)
  }

  lemma {:induction false} DecodeSymbol(symbols: seq<Symbol>, bytes: seq<bv8>, buffer: bv32, bits: nat, v: Symbol)
    requires bits < 8 && Decoding(symbols, bytes, buffer, bits)
    ensures Decoding(symbols + [v], bytes, (buffer << 5) | Word(v), bits + 5)
  {
    ShiftInSymbol(buffer, v, bits);
    SymbolsSnoc(symbols, v);
  }

  lemma {:induction false} DecodeByte(symbols: seq<Symbol>, bytes: seq<bv8>, buffer: bv32, bits: nat, b: bv8)
    requires bits >= 8 && Decoding(symbols, bytes, buffer, bits)
    requires b == LowEight(ShiftRight(buffer, bits - 8))
    ensures Decoding(symbols, bytes + [b], buffer, bits - 8)
  {
    TakeByte(buffer, bits);
    StreamSnoc(bytes, b);
  }

  /** The state after one more symbol: a whole byte leaves as soon as eight bits are pending. */
  lemma {:induction false} DecodeStep(symbols: seq<Symbol>, bytes: seq<bv8>, buffer: bv32, bits: nat, v: Symbol,
                                      shifted: bv32)
    requires bits < 8 && Decoding(symbols, bytes, buffer, bits) && shifted == (buffer << 5) | Word(v)
    ensures if bits + 5 >= 8
      then Decoding(symbols + [v], bytes + [LowEight(ShiftRight(shifted, bits + 5 - 8))], shifted, bits + 5 - 8)
      else Decoding(symbols + [v], bytes, shifted, bits + 5)
  {
    DecodeSymbol(symbols, bytes, buffer, bits, v);
    if bits + 5 >= 8 {
      DecodeByte(symbols + [v], bytes, shifted, bits + 5, LowEight(ShiftRight(shifted, bits + 5 - 8)));
    }
  }

  lemma {:induction false} ParseOne(c: char)
    ensures Parse([c]) == if SymbolFor(c).Some? then Success([SymbolFor(c).value]) else Failure(InvalidBase32Secret)
  {
    assert [c][1..] == [] && Parse([]) == Success([]);
    assert SymbolFor(c).Some? ==> [SymbolFor(c).value] + [] == [SymbolFor(c).value];
  }

  lemma {:induction false} ParseNext(clean: string, i: nat, symbols: seq<Symbol>)
    requires i < |clean| && Parse(clean[..i]) == Success(symbols)
    ensures SymbolFor(clean[i]).Some? ==> Parse(clean[..i + 1]) == Success(symbols + [SymbolFor(clean[i]).value])
    ensures SymbolFor(clean[i]).None? ==> DecodeClean(clean).Failure?
  {
    assert clean[..i + 1] == clean[..i] + [clean[i]];
    ParseOne(clean[i]);
    ParseConcat(clean[..i], [clean[i]]);
    if SymbolFor(clean[i]).None? { FailsExactlyWhen(clean); assert clean[i] in clean; }
  }

  /** The first `i` characters have been read: whole bytes have left, the rest is pending. */
  ghost predicate DecodedTo(clean: string, i: nat, bytes: seq<bv8>, buffer: bv32, bits: nat)
    requires i <= |clean|
  {
    Parse(clean[..i]).Success? && Decoding(Parse(clean[..i]).value, bytes, buffer, bits)
  }

  lemma {:induction false} DecodedNext(clean: string, i: nat, bytes: seq<bv8>, buffer: bv32, bits: nat, v: Symbol,
                                       shifted: bv32)
    requires i < |clean| && bits < 8 && DecodedTo(clean, i, bytes, buffer, bits)
    requires SymbolFor(clean[i]) == Some(v) && shifted == (buffer << 5) | Word(v)
    ensures if bits + 5 >= 8
      then DecodedTo(clean, i + 1, bytes + [LowEight(ShiftRight(shifted, bits + 5 - 8))], shifted, bits + 5 - 8)
            else DecodedTo(clean, i + 1, bytes, shifted, bits + 5)
  {
    var symbols := Parse(clean[..i]).value;
    ParseNext(clean, i, symbols);
    DecodeStep(symbols, bytes, buffer, bits, v, shifted);
  }

  /** The body of the decoding loop for a character in the alphabet. */
  method ReadSymbol(v: Symbol, bytes: seq<bv8>, buffer: bv32, bits: nat, ghost clean: string, ghost i: nat)
    returns (longer: seq<bv8>, shifted: bv32, pending: nat)
    requires i < |clean| && bits < 8 && DecodedTo(clean, i, bytes, buffer, bits) && SymbolFor(clean[i]) == Some(v)
    ensures pending < 8 && DecodedTo(clean, i + 1, longer, shifted, pending)
  {
    longer, shifted, pending := bytes, (buffer << 5) | Word(v), bits + 5;
    DecodedNext(clean, i, bytes, buffer, bits, v, shifted);
    if pending >= 8 {
      longer := longer + [LowEight(ShiftRight(shifted, pending - 8))];
      pending := pending - 8;
    }
  }

  method Base32Decode(text: string) returns (result: Result<seq<bv8>, InvalidSecret>)
    ensures result == Decode(text)
  {
    var clean := Clean(text);
    var bits: nat := 0;
    var buffer: bv32 := 0;
    var bytes: seq<bv8> := [];
    NothingDecoded(clean);
    for i := 0 to |clean|
      invariant bits < 8 && DecodedTo(clean, i, bytes, buffer, bits)
    {
      var index := SymbolFor(clean[i]);
      if index.None? {
        ParseNext(clean, i, Parse(clean[..i]).value);
        return Failure(InvalidBase32Secret);
      }
      bytes, buffer, bits := ReadSymbol(index.value, bytes, buffer, bits, clean, i);
    }
    DecodedAll(clean, Parse(clean[..|clean|]).value, bytes, buffer, bits);
    return Success(bytes);
  }

  lemma {:induction false} NothingDecoded(clean: string)
    ensures DecodedTo(clean, 0, [], 0, 0)
  {
    assert clean[..0] == [];
  }

  lemma {:induction false} DecodedAll(clean: string, symbols: seq<Symbol>, bytes: seq<bv8>, buffer: bv32, bits: nat)
    requires bits < 8 && Parse(clean[..|clean|]) == Success(symbols) && Decoding(symbols, bytes, buffer, bits)
    ensures DecodeClean(clean) == Success(bytes)
  {
    assert clean[..|clean|] == clean;
    PackStream(bytes, Low(buffer, bits));
  }
}
