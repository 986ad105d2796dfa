/**
  Base32 as the admin service encodes TOTP secrets: section 6 of RFC 4648 without padding,
  computed with a 32-bit accumulator that is never masked and simply wraps.
 */
module Base32 {
  type byte = x: int | 0 <= x < 256

  const WORD: int := 0x1_0000_0000

  /** A 32-bit pattern; whether JavaScript reads it as signed makes no difference to the operators used here. */
  type word = x: int | 0 <= x < WORD

  // ----- JavaScript's bit operators -----

  /** `val << k`: what leaves the word at the top is lost. */
  function ShiftLeft(val: word, k: nat): word {
    if k == 0 then val else 2 * ShiftLeft(val, k - 1) % WORD
  }

  /** `val >>> k`. */
  function ShiftRight(val: word, k: nat): word {
    if k == 0 then val else ShiftRight(val, k - 1) / 2
  }

  function OrOf(a: nat, b: nat): nat
    decreases a + b
  {
    if a == 0 && b == 0 then 0
    else 2 * OrOf(a / 2, b / 2) + if a % 2 == 1 || b % 2 == 1 then 1 else 0
  }

  function Pow2(n: nat): (p: nat)
    ensures p > 0
  {
    if n == 0 then 1 else 2 * Pow2(n - 1)
  }

  lemma WordSize()
    ensures Pow2(32) == WORD && Pow2(8) == 256 && Pow2(5) == 32
  {
    assert Pow2(5) == 32;
    assert Pow2(8) == 8 * Pow2(5);
    assert Pow2(16) == 256 * Pow2(8) by {
      assert Pow2(12) == 16 * Pow2(8);
      assert Pow2(16) == 16 * Pow2(12);
    }
    assert Pow2(24) == 256 * Pow2(16) by {
      assert Pow2(20) == 16 * Pow2(16);
      assert Pow2(24) == 16 * Pow2(20);
    }
    assert Pow2(32) == 256 * Pow2(24) by {
      assert Pow2(28) == 16 * Pow2(24);
      assert Pow2(32) == 16 * Pow2(28);
    }
  }

  lemma {:induction false} OrFits(a: nat, b: nat, n: nat)
    ensures a < Pow2(n) && b < Pow2(n) ==> OrOf(a, b) < Pow2(n)
    ensures Pow2(32) == WORD
    decreases n
  {
    WordSize();
    if n > 0 {
      OrFits(a / 2, b / 2, n - 1);
    }
  }

  /** `a | b`. */
  function Or(a: nat, b: nat): (r: nat)
    ensures a < WORD && b < WORD ==> r < WORD
    decreases a + b
  {
    OrFits(a, b, 32);
    OrOf(a, b)
  }

  /** `a & mask`. */
  function And(a: nat, mask: nat): (r: nat)
    ensures r <= mask
    decreases a + mask
  {
    if mask == 0 then 0
    else 2 * And(a / 2, mask / 2) + if a % 2 == 1 && mask % 2 == 1 then 1 else 0
  }

  // ----- bits -----

  /** The low `n` bits of `v`, most significant first. */
  function Bits(n: nat, v: nat): (b: seq<bool>)
    ensures |b| == n
  {
    if n == 0 then [] else Bits(n - 1, v / 2) + [v % 2 == 1]
  }

  function Zeros(n: nat): seq<bool> {
    seq(n, _ => false)
  }

  /** A bit above the low `n` does not show in them. */
  lemma {:induction false} HighBitUnseen(n: nat, m: nat, v: nat)
    requires n <= m
    ensures Bits(n, v + Pow2(m)) == Bits(n, v)
    decreases n
  {
    if n > 0 {
      assert (v + Pow2(m)) / 2 == v / 2 + Pow2(m - 1);
      HighBitUnseen(n - 1, m - 1, v / 2);
    }
  }

  /** A bit that wraps out of the word does not show in its low 32. */
  lemma WrapBits(n: nat, w: nat)
    requires n <= 32 && w < 2 * WORD
    ensures Bits(n, w % WORD) == Bits(n, w)
  {
    if w >= WORD {
      var v := w - WORD;
      assert w % WORD == v;
      WordSize();
      HighBitUnseen(n, 32, v);
    }
  }

  lemma ShiftOnceBits(n: nat, half: word)
    requires n < 32
    ensures Bits(n + 1, 2 * half % WORD) == Bits(n, half) + [false]
  {
    var w: nat := 2 * half;
    WrapBits(n + 1, w);
    assert w / 2 == half && w % 2 == 0;
  }

  /** Shifting left appends zeros, as long as the wanted bits stay inside the word. */
  lemma {:induction false} ShiftLeftBits(n: nat, val: word, k: nat)
    requires n + k <= 32
    ensures Bits(n + k, ShiftLeft(val, k)) == Bits(n, val) + Zeros(k)
    decreases k
  {
    if k == 0 {
      assert Zeros(0) == [];
    } else {
      ShiftLeftBits(n, val, k - 1);
      ShiftOnceBits(n + k - 1, ShiftLeft(val, k - 1));
      assert Zeros(k) == Zeros(k - 1) + [false];
    }
  }

  /** Shifting right drops low bits. */
  lemma {:induction false} ShiftRightBits(n: nat, val: word, k: nat)
    ensures Bits(n + k, val) == Bits(n, ShiftRight(val, k)) + Bits(k, val)
    decreases k
  {
    if k > 0 {
      ShiftRightBits(n + 1, val, k - 1);
      var v := ShiftRight(val, k - 1);
      assert Bits(n + 1, v) == Bits(n, v / 2) + [v % 2 == 1];
      ShiftRightBits(1, val, k - 1);
      assert Bits(1, v) == [v % 2 == 1];
    }
  }

  lemma {:induction false} OrBits(n: nat, a: nat, b: nat, i: nat)
    requires i < n
    ensures Bits(n, OrOf(a, b))[i] == (Bits(n, a)[i] || Bits(n, b)[i])
    decreases n
  {
    var c := OrOf(a, b);
    assert c / 2 == OrOf(a / 2, b / 2) && c % 2 == if a % 2 == 1 || b % 2 == 1 then 1 else 0;
    if i < n - 1 {
      OrBits(n - 1, a / 2, b / 2, i);
    }
  }

  lemma {:induction false} AndBits(n: nat, a: nat, mask: nat, i: nat)
    requires i < n
    ensures Bits(n, And(a, mask))[i] == (Bits(n, a)[i] && Bits(n, mask)[i])
    decreases n
  {
    var c := And(a, mask);
    assert c / 2 == And(a / 2, mask / 2) && c % 2 == if a % 2 == 1 && mask % 2 == 1 then 1 else 0;
    if i < n - 1 {
      AndBits(n - 1, a / 2, mask / 2, i);
    }
  }

  lemma {:induction false} BitsInjective(n: nat, x: nat, y: nat)
    requires x < Pow2(n) && y < Pow2(n)
    requires Bits(n, x) == Bits(n, y)
    ensures x == y
    decreases n
  {
    if n > 0 {
      assert Bits(n, x)[..n - 1] == Bits(n - 1, x / 2);
      assert Bits(n, y)[..n - 1] == Bits(n - 1, y / 2);
      assert Bits(n, x)[n - 1] == Bits(n, y)[n - 1];
      BitsInjective(n - 1, x / 2, y / 2);
    }
  }

  lemma {:induction false} BitsOfZero(n: nat, i: nat)
    requires i < n
    ensures !Bits(n, 0)[i]
  {
    if i < n - 1 {
      BitsOfZero(n - 1, i);
    }
  }

  /** The bits of a number below `2^k` above its low `k` are zero. */
  lemma {:induction false} SmallHighBits(n: nat, k: nat, x: nat)
    requires x < Pow2(k)
    ensures Bits(n + k, x) == Zeros(n) + Bits(k, x)
    decreases k
  {
    if k == 0 {
      forall i | 0 <= i < n ensures !Bits(n, 0)[i] {
        BitsOfZero(n, i);
      }
      assert Bits(n, x) == Zeros(n);
    } else {
      SmallHighBits(n, k - 1, x / 2);
    }
  }

  /** `(val << k) | x` appends the `k` bits of `x` to what is wanted of `val`. */
  lemma PushBits(n: nat, val: word, k: nat, x: nat)
    requires n + k <= 32 && x < Pow2(k)
    ensures Bits(n + k, Or(ShiftLeft(val, k), x)) == Bits(n, val) + Bits(k, x)
  {
    ShiftLeftBits(n, val, k);
    SmallHighBits(n, k, x);
    var shifted := ShiftLeft(val, k);
    forall i | 0 <= i < n + k ensures Bits(n + k, Or(shifted, x))[i] == (Bits(n, val) + Bits(k, x))[i] {
      OrBits(n + k, shifted, x, i);
    }
  }

  lemma MaskBits(n: nat, v: nat, mask: nat)
    requires forall i :: 0 <= i < n ==> Bits(n, mask)[i]
    ensures Bits(n, And(v, mask)) == Bits(n, v)
  {
    forall i | 0 <= i < n ensures Bits(n, And(v, mask))[i] == Bits(n, v)[i] {
      AndBits(n, v, mask, i);
    }
  }

  /** `(val >>> k) & mask` takes the `n` bits above the low `k`. */
  lemma TakeBits(n: nat, val: word, k: nat, mask: nat)
    requires forall i :: 0 <= i < n ==> Bits(n, mask)[i]
    ensures Bits(n, And(ShiftRight(val, k), mask)) + Bits(k, val) == Bits(n + k, val)
  {
    ShiftRightBits(n, val, k);
    MaskBits(n, ShiftRight(val, k), mask);
  }

  lemma Masks()
    ensures forall i :: 0 <= i < 5 ==> Bits(5, 0x1f)[i]
    ensures forall i :: 0 <= i < 8 ==> Bits(8, 0xff)[i]
  {
    assert Bits(5, 31) == [true, true, true, true, true];
    assert Bits(8, 255) == Bits(5, 31) + [true, true, true] by {
      assert Bits(8, 255) == Bits(7, 127) + [true];
      assert Bits(7, 127) == Bits(6, 63) + [true];
      assert Bits(6, 63) == Bits(5, 31) + [true];
    }
  }

  // ----- the alphabet -----

  /** `'ABCDEFGHIJKLMNOPQRSTUVWXYZ234567'[d]`. */
  function Symbol(d: nat): char
    requires d < 32
  {
    if d < 26 then 'A' + d as char else '2' + (d - 26) as char
  }

  predicate IsSymbol(c: char) {
    'A' <= c <= 'Z' || '2' <= c <= '7'
  }

  /** The position of a symbol in the alphabet. */
  function Digit(c: char): (d: nat)
    requires IsSymbol(c)
    ensures d < 32 && Symbol(d) == c
  {
    if 'A' <= c <= 'Z' then (c - 'A') as nat else 26 + (c - '2') as nat
  }

  lemma DigitOfSymbol(d: nat)
    requires d < 32
    ensures IsSymbol(Symbol(d)) && Digit(Symbol(d)) == d
  {
  }

  /** The alphabet of section 6 of RFC 4648, in its order, and nothing else. */
  lemma AlphabetIs(c: char)
    ensures forall d :: 0 <= d < 32 ==> Symbol(d) == "ABCDEFGHIJKLMNOPQRSTUVWXYZ234567"[d]
    ensures IsSymbol(c) <==> c in "ABCDEFGHIJKLMNOPQRSTUVWXYZ234567"
  {
    if IsSymbol(c) {
      assert c == "ABCDEFGHIJKLMNOPQRSTUVWXYZ234567"[Digit(c)];
    }
  }

  predicate AllSymbols(s: string) {
    forall i :: 0 <= i < |s| ==> IsSymbol(s[i])
  }

  // ----- the bit-level meaning, as in section 6 of RFC 4648 -----

  function BytesBits(b: seq<byte>): (r: seq<bool>)
    ensures |r| == 8 * |b|
  {
    if b == [] then [] else BytesBits(b[..|b| - 1]) + Bits(8, b[|b| - 1])
  }

  function SymbolBits(s: string): (r: seq<bool>)
    requires AllSymbols(s)
    ensures |r| == 5 * |s|
  {
    if s == [] then [] else SymbolBits(s[..|s| - 1]) + Bits(5, Digit(s[|s| - 1]))
  }

  /** `s` spells the bits of `b` in groups of five, the last group filled up with zeros. */
  predicate Encodes(b: seq<byte>, s: string) {
    && AllSymbols(s)
    && 0 <= 5 * |s| - 8 * |b| < 5
    && SymbolBits(s) == BytesBits(b) + Zeros(5 * |s| - 8 * |b|)
  }

  /** `b` holds the whole bytes of what `s` spells. */
  predicate Decodes(s: string, b: seq<byte>) {
    && AllSymbols(s)
    && 0 <= 5 * |s| - 8 * |b| < 8
    && BytesBits(b) == SymbolBits(s)[..8 * |b|]
  }

  lemma BytesSnoc(b: seq<byte>, x: byte)
    ensures BytesBits(b + [x]) == BytesBits(b) + Bits(8, x)
  {
    assert (b + [x])[..|b|] == b;
  }

  lemma SymbolSnoc(s: string, d: nat)
    requires AllSymbols(s) && d < 32
    ensures AllSymbols(s + [Symbol(d)])
    ensures SymbolBits(s + [Symbol(d)]) == SymbolBits(s) + Bits(5, d)
  {
    DigitOfSymbol(d);
    assert (s + [Symbol(d)])[..|s|] == s;
  }

  lemma Regroup(a: seq<bool>, b: seq<bool>, c: seq<bool>)
    ensures a + b + c == a + (b + c)
  {
  }

  // ----- encoding -----

  lemma TakeFive(bits: nat, val: word)
    requires bits >= 5
    ensures Bits(5, And(ShiftRight(val, bits - 5), 0x1f)) + Bits(bits - 5, val) == Bits(bits, val)
  {
    Masks();
    TakeBits(5, val, bits - 5, 0x1f);
  }

  /** Written symbols and the `bits` pending bits of the accumulator together spell the bytes read. */
  predicate Encoding(out: string, bits: nat, val: word, read: seq<byte>) {
    AllSymbols(out) && SymbolBits(out) + Bits(bits, val) == BytesBits(read)
  }

  lemma PushByte(out: string, bits: nat, val: word, read: seq<byte>, x: byte)
    requires bits <= 24 && Encoding(out, bits, val, read)
    ensures Encoding(out, bits + 8, Or(ShiftLeft(val, 8), x), read + [x])
  {
    WordSize();
    PushBits(bits, val, 8, x);
    BytesSnoc(read, x);
    Regroup(SymbolBits(out), Bits(bits, val), Bits(8, x));
  }

  lemma EmitSymbol(out: string, bits: nat, val: word, read: seq<byte>)
    requires bits >= 5 && Encoding(out, bits, val, read)
    ensures Encoding(out + [Symbol(And(ShiftRight(val, bits - 5), 0x1f))], bits - 5, val, read)
  {
    var d := And(ShiftRight(val, bits - 5), 0x1f);
    TakeFive(bits, val);
    SymbolSnoc(out, d);
    Regroup(SymbolBits(out), Bits(5, d), Bits(bits - 5, val));
  }

  lemma EmitLastSymbol(out: string, bits: nat, val: word, read: seq<byte>)
    requires 0 < bits < 5 && Encoding(out, bits, val, read)
    ensures Encodes(read, out + [Symbol(And(ShiftLeft(val, 5 - bits), 0x1f))])
  {
    var d := And(ShiftLeft(val, 5 - bits), 0x1f);
    Masks();
    ShiftLeftBits(bits, val, 5 - bits);
    MaskBits(5, ShiftLeft(val, 5 - bits), 0x1f);
    SymbolSnoc(out, d);
    Regroup(SymbolBits(out), Bits(bits, val), Zeros(5 - bits));
  }

  lemma NothingPending(out: string, val: word, read: seq<byte>)
    requires Encoding(out, 0, val, read)
    ensures Encodes(read, out)
  {
    assert Zeros(0) == [];
  }

  method Base32Encode(buf: seq<byte>) returns (out: string)
    ensures Encodes(buf, out)
  {
    var bits: nat := 0;
    var val: word := 0;
    out := "";
    for i := 0 to |buf|
      invariant bits < 5 && Encoding(out, bits, val, buf[..i])
    {
      PushByte(out, bits, val, buf[..i], buf[i]);
      assert buf[..i] + [buf[i]] == buf[..i + 1];
      val := Or(ShiftLeft(val, 8), buf[i]);
      bits := bits + 8;
      while bits >= 5
        invariant bits <= 12 && Encoding(out, bits, val, buf[..i + 1])
      {
        EmitSymbol(out, bits, val, buf[..i + 1]);
        out := out + [Symbol(And(ShiftRight(val, bits - 5), 0x1f))];
        bits := bits - 5;
      }
    }
    assert buf[..|buf|] == buf;
    if bits > 0 {
      EmitLastSymbol(out, bits, val, buf);
      out := out + [Symbol(And(ShiftLeft(val, 5 - bits), 0x1f))];
    } else {
      NothingPending(out, val, buf);
    }
  }

  // ----- decoding -----

  function Upper(c: char): char {
    if 'a' <= c <= 'z' then c - 'a' + 'A' else c
  }

  function ToUpper(s: string): (r: string)
    ensures |r| == |s|
  {
    seq(|s|, i requires 0 <= i < |s| => Upper(s[i]))
  }

  /** `replace(/=+$/, '')`. */
  function StripPadding(s: string): string {
    if s != [] && s[|s| - 1] == '=' then StripPadding(s[..|s| - 1]) else s
  }

  /** The symbols in a string, other characters skipped. */
  function Symbols(s: string): (r: string)
    ensures AllSymbols(r)
  {
    if s == [] then []
    else Symbols(s[..|s| - 1]) + if IsSymbol(s[|s| - 1]) then [s[|s| - 1]] else []
  }

  lemma {:induction false} StripKeepsSymbols(s: string)
    ensures Symbols(StripPadding(s)) == Symbols(s)
    decreases |s|
  {
    if s != [] && s[|s| - 1] == '=' {
      StripKeepsSymbols(s[..|s| - 1]);
    }
  }

  lemma TakeEight(bits: nat, val: word)
    requires bits >= 8
    ensures Bits(8, And(ShiftRight(val, bits - 8), 0xff)) + Bits(bits - 8, val) == Bits(bits, val)
  {
    Masks();
    TakeBits(8, val, bits - 8, 0xff);
  }

  /** Written bytes and the `bits` pending bits of the accumulator together spell the symbols read. */
  predicate Decoding(out: seq<byte>, bits: nat, val: word, read: string) {
    BytesBits(out) + Bits(bits, val) == SymbolBits(Symbols(read))
  }

  lemma PushSymbol(out: seq<byte>, bits: nat, val: word, read: string, c: char)
    requires bits <= 27 && IsSymbol(c) && Decoding(out, bits, val, read)
    ensures Decoding(out, bits + 5, Or(ShiftLeft(val, 5), Digit(c)), read + [c])
  {
    WordSize();
    PushBits(bits, val, 5, Digit(c));
    Regroup(BytesBits(out), Bits(bits, val), Bits(5, Digit(c)));
    assert (read + [c])[..|read|] == read;
    SymbolSnoc(Symbols(read), Digit(c));
  }

  lemma SkipCharacter(out: seq<byte>, bits: nat, val: word, read: string, c: char)
    requires !IsSymbol(c) && Decoding(out, bits, val, read)
    ensures Decoding(out, bits, val, read + [c])
  {
    assert (read + [c])[..|read|] == read;
    assert Symbols(read + [c]) == Symbols(read) + [] == Symbols(read);
  }

  lemma EmitByte(out: seq<byte>, bits: nat, val: word, read: string)
    requires bits >= 8 && Decoding(out, bits, val, read)
    ensures Decoding(out + [And(ShiftRight(val, bits - 8), 0xff)], bits - 8, val, read)
  {
    var x := And(ShiftRight(val, bits - 8), 0xff);
    TakeEight(bits, val);
    BytesSnoc(out, x);
    Regroup(BytesBits(out), Bits(8, x), Bits(bits - 8, val));
  }

  lemma Decoded(out: seq<byte>, bits: nat, val: word, read: string)
    requires bits < 8 && Decoding(out, bits, val, read)
    ensures Decodes(Symbols(read), out)
  {
  }

  method Base32Decode(str: string) returns (out: seq<byte>)
    ensures Decodes(Symbols(ToUpper(str)), out)
  {
    var bits: nat, val: word := 0, 0;
    out := [];
    var s := StripPadding(ToUpper(str));
    for i := 0 to |s|
      invariant bits < 8 && Decoding(out, bits, val, s[..i])
    {
      assert s[..i] + [s[i]] == s[..i + 1];
      if !IsSymbol(s[i]) {
        SkipCharacter(out, bits, val, s[..i], s[i]);
        continue;
      }
      var idx := Digit(s[i]);
      PushSymbol(out, bits, val, s[..i], s[i]);
      val := Or(ShiftLeft(val, 5), idx);
      bits := bits + 5;
      if bits >= 8 {
        EmitByte(out, bits, val, s[..i + 1]);
        out := out + [And(ShiftRight(val, bits - 8), 0xff)];
        bits := bits - 8;
      }
    }
    assert s[..|s|] == s;
    Decoded(out, bits, val, s);
    StripKeepsSymbols(ToUpper(str));
  }

  // ----- round trip -----

  lemma BytesBitsSplit(a: seq<byte>)
    requires a != []
    ensures var n := |a| - 1;
            BytesBits(a)[..8 * n] == BytesBits(a[..n]) && BytesBits(a)[8 * n..] == Bits(8, a[n])
  {
  }

  lemma {:induction false} BytesBitsInjective(a: seq<byte>, b: seq<byte>)
    requires BytesBits(a) == BytesBits(b)
    ensures a == b
    decreases |a|
  {
    if a != [] {
      var n := |a| - 1;
      BytesBitsSplit(a);
      BytesBitsSplit(b);
      BytesBitsInjective(a[..n], b[..n]);
      WordSize();
      BitsInjective(8, a[n], b[n]);
      assert a == a[..n] + [a[n]] && b == b[..n] + [b[n]];
    }
  }

  lemma SymbolBitsSplit(a: string)
    requires a != [] && AllSymbols(a)
    ensures var n := |a| - 1;
            SymbolBits(a)[..5 * n] == SymbolBits(a[..n]) && SymbolBits(a)[5 * n..] == Bits(5, Digit(a[n]))
  {
  }

  lemma SymbolInjective(c: char, d: char)
    requires IsSymbol(c) && IsSymbol(d) && Bits(5, Digit(c)) == Bits(5, Digit(d))
    ensures c == d
  {
    WordSize();
    BitsInjective(5, Digit(c), Digit(d));
  }

  lemma {:induction false} SymbolBitsInjective(a: string, b: string)
    requires AllSymbols(a) && AllSymbols(b) && SymbolBits(a) == SymbolBits(b)
    ensures a == b
    decreases |a|
  {
    if a != [] {
      var n := |a| - 1;
      SymbolBitsSplit(a);
      SymbolBitsSplit(b);
      SymbolBitsInjective(a[..n], b[..n]);
      SymbolInjective(a[n], b[n]);
      assert a == a[..n] + [a[n]] && b == b[..n] + [b[n]];
    }
  }

  lemma EncodingUnique(b: seq<byte>, s: string, s': string)
    requires Encodes(b, s) && Encodes(b, s')
    ensures s == s'
  {
    assert |s| == |s'|;
    SymbolBitsInjective(s, s');
  }

  lemma DecodingUnique(s: string, b: seq<byte>, b': seq<byte>)
    requires Decodes(s, b) && Decodes(s, b')
    ensures b == b'
  {
    BytesBitsInjective(b, b');
  }

  function ValueOf(bits: seq<bool>): nat {
    if bits == [] then 0 else 2 * ValueOf(bits[..|bits| - 1]) + if bits[|bits| - 1] then 1 else 0
  }

  lemma {:induction false} BitsOfValue(bits: seq<bool>)
    ensures ValueOf(bits) < Pow2(|bits|) && Bits(|bits|, ValueOf(bits)) == bits
    decreases |bits|
  {
    if bits != [] {
      BitsOfValue(bits[..|bits| - 1]);
    }
  }

  lemma GroupValue(bits: seq<bool>, n: nat)
    requires |bits| == n
    ensures n == 5 ==> ValueOf(bits) < 32
    ensures n == 8 ==> ValueOf(bits) < 256
  {
    WordSize();
    BitsOfValue(bits);
  }

  /** The symbols of bits in groups of five. */
  function Spell(bits: seq<bool>): (s: string)
    requires |bits| % 5 == 0
    ensures 5 * |s| == |bits|
  {
    if bits == [] then [] else
      var n := |bits| - 5;
      GroupValue(bits[n..], 5);
      Spell(bits[..n]) + [Symbol(ValueOf(bits[n..]))]
  }

  lemma SpellSnoc(front: seq<bool>, group: seq<bool>)
    requires |front| % 5 == 0 && |group| == 5 && AllSymbols(Spell(front))
    ensures AllSymbols(Spell(front + group)) && SymbolBits(Spell(front + group)) == SymbolBits(Spell(front)) + group
  {
    assert (front + group)[..|front|] == front && (front + group)[|front|..] == group;
    GroupValue(group, 5);
    BitsOfValue(group);
    SymbolSnoc(Spell(front), ValueOf(group));
  }

  lemma {:induction false} SpellIs(bits: seq<bool>)
    requires |bits| % 5 == 0
    ensures AllSymbols(Spell(bits)) && SymbolBits(Spell(bits)) == bits
    decreases |bits|
  {
    if bits != [] {
      var n := |bits| - 5;
      SpellIs(bits[..n]);
      assert bits == bits[..n] + bits[n..];
      SpellSnoc(bits[..n], bits[n..]);
    }
  }

  /** The bytes of bits in groups of eight. */
  function Gather(bits: seq<bool>): (b: seq<byte>)
    requires |bits| % 8 == 0
    ensures 8 * |b| == |bits|
  {
    if bits == [] then [] else
      var n := |bits| - 8;
      GroupValue(bits[n..], 8);
      Gather(bits[..n]) + [ValueOf(bits[n..])]
  }

  lemma GatherSnoc(front: seq<bool>, group: seq<bool>)
    requires |front| % 8 == 0 && |group| == 8
    ensures BytesBits(Gather(front + group)) == BytesBits(Gather(front)) + group
  {
    assert (front + group)[..|front|] == front && (front + group)[|front|..] == group;
    GroupValue(group, 8);
    BitsOfValue(group);
    BytesSnoc(Gather(front), ValueOf(group));
  }

  lemma {:induction false} GatherIs(bits: seq<bool>)
    requires |bits| % 8 == 0
    ensures BytesBits(Gather(bits)) == bits
    decreases |bits|
  {
    if bits != [] {
      var n := |bits| - 8;
      GatherIs(bits[..n]);
      assert bits == bits[..n] + bits[n..];
      GatherSnoc(bits[..n], bits[n..]);
    }
  }

  /** The encoding of a buffer, as section 6 of RFC 4648 builds it: pad to a multiple of five bits, then spell. */
  function EncodingOf(b: seq<byte>): string {
    Spell(BytesBits(b) + Zeros((5 - 8 * |b| % 5) % 5))
  }

  lemma EncodingExists(b: seq<byte>)
    ensures Encodes(b, EncodingOf(b))
  {
    SpellIs(BytesBits(b) + Zeros((5 - 8 * |b| % 5) % 5));
  }

  /** The whole bytes in the bits of `n` symbols. */
  function WholeBytes(n: nat): (k: nat)
    ensures 0 <= 5 * n - 8 * k < 8 && 8 * k % 8 == 0
  {
    5 * n / 8
  }

  function DecodingOf(s: string): seq<byte>
    requires AllSymbols(s)
  {
    Gather(SymbolBits(s)[..8 * WholeBytes(|s|)])
  }

  lemma DecodingExists(s: string)
    requires AllSymbols(s)
    ensures Decodes(s, DecodingOf(s))
  {
    GatherIs(SymbolBits(s)[..8 * WholeBytes(|s|)]);
    assert |DecodingOf(s)| == WholeBytes(|s|);
  }

  /** Every buffer has exactly one encoding, and every symbol string decodes to exactly one buffer. */
  lemma CodecIsFunctional(b: seq<byte>, s: string)
    ensures Encodes(b, s) <==> s == EncodingOf(b)
    ensures AllSymbols(s) ==> (Decodes(s, b) <==> b == DecodingOf(s))
  {
    EncodingExists(b);
    if Encodes(b, s) {
      EncodingUnique(b, s, EncodingOf(b));
    }
    if AllSymbols(s) {
      DecodingExists(s);
      if Decodes(s, b) {
        DecodingUnique(s, b, DecodingOf(s));
      }
    }
  }

  // ----- bit by bit -----

  /** Bit `k` of `v`, counted from the most significant of `n`. */
  predicate BitAt(n: nat, v: nat, k: nat)
    requires k < n
  {
    v / Pow2(n - 1 - k) % 2 == 1
  }

  lemma AtLeast(n: nat, p: nat)
    requires n > 0
    ensures n * p >= p
  {
  }

  lemma QuotientIs(v: nat, p: nat, q: nat, r: nat)
    requires p > 0 && v == q * p + r && r < p
    ensures v / p == q
  {
    var d := v / p;
    assert v == d * p + v % p;
    assert (q - d) * p == v % p - r;
    if d != q {
      AtLeast(if q > d then q - d else d - q, p);
    }
  }

  lemma HalveTwice(v: nat, p: nat)
    requires p > 0
    ensures v / 2 / p == v / (2 * p)
  {
    var q := v / 2 / p;
    assert v / 2 == q * p + v / 2 % p;
    assert v == q * (2 * p) + (2 * (v / 2 % p) + v % 2);
    QuotientIs(v, 2 * p, q, 2 * (v / 2 % p) + v % 2);
  }

  lemma {:induction false} BitsAt(n: nat, v: nat, k: nat)
    requires k < n
    ensures Bits(n, v)[k] == BitAt(n, v, k)
    decreases n
  {
    if k < n - 1 {
      BitsAt(n - 1, v / 2, k);
      HalveTwice(v, Pow2(n - 2 - k));
    }
  }

  lemma {:induction false} SymbolBitAt(s: string, k: nat)
    requires AllSymbols(s) && k < 5 * |s|
    ensures SymbolBits(s)[k] == BitAt(5, Digit(s[k / 5]), k % 5)
    decreases |s|
  {
    var front := s[..|s| - 1];
    if k < 5 * |front| {
      SymbolBitAt(front, k);
    } else {
      BitsAt(5, Digit(s[|s| - 1]), k - 5 * |front|);
    }
  }

  lemma {:induction false} ByteBitAt(b: seq<byte>, k: nat)
    requires k < 8 * |b|
    ensures BytesBits(b)[k] == BitAt(8, b[k / 8], k % 8)
    decreases |b|
  {
    var front := b[..|b| - 1];
    if k < 8 * |front| {
      ByteBitAt(front, k);
    } else {
      BitsAt(8, b[|b| - 1], k - 8 * |front|);
    }
  }

  /** Bit `k` of the text is bit `k` of the buffer, or zero past its end. */
  predicate SameBit(b: seq<byte>, s: string, k: nat)
    requires AllSymbols(s) && k < 5 * |s|
  {
    BitAt(5, Digit(s[k / 5]), k % 5) == (k < 8 * |b| && BitAt(8, b[k / 8], k % 8))
  }

  /** An encoding is as long as it must be, and agrees with its buffer bit by bit. */
  lemma EncodesBitByBit(b: seq<byte>, s: string)
    requires AllSymbols(s)
    ensures Encodes(b, s) <==> |s| == (8 * |b| + 4) / 5 && forall k :: 0 <= k < 5 * |s| ==> SameBit(b, s, k)
  {
    if |s| == (8 * |b| + 4) / 5 {
      var padded := BytesBits(b) + Zeros(5 * |s| - 8 * |b|);
      forall k | 0 <= k < 5 * |s| ensures SameBit(b, s, k) <==> SymbolBits(s)[k] == padded[k] {
        SymbolBitAt(s, k);
        if k < 8 * |b| {
          ByteBitAt(b, k);
        }
      }
    }
  }

  /** A decoding has the whole bytes only, and agrees with its text bit by bit. */
  lemma DecodesBitByBit(s: string, b: seq<byte>)
    requires AllSymbols(s)
    ensures Decodes(s, b) <==> |b| == 5 * |s| / 8 && forall k :: 0 <= k < 8 * |b| ==> SameBit(b, s, k)
  {
    if |b| == 5 * |s| / 8 {
      forall k | 0 <= k < 8 * |b| ensures SameBit(b, s, k) <==> BytesBits(b)[k] == SymbolBits(s)[..8 * |b|][k] {
        SymbolBitAt(s, k);
        ByteBitAt(b, k);
      }
    }
  }

  /** Whatever decodes an encoding is the encoded buffer, of any length. */
  lemma RoundTrip(b: seq<byte>, s: string, b': seq<byte>)
    requires Encodes(b, s) && Decodes(s, b')
    ensures b' == b
  {
    assert |b'| == |b|;
    assert SymbolBits(s)[..8 * |b|] == BytesBits(b);
    BytesBitsInjective(b', b);
  }

  lemma {:induction false} SymbolsOfSymbols(s: string)
    requires AllSymbols(s)
    ensures Symbols(s) == s
    decreases |s|
  {
    if s != [] {
      SymbolsOfSymbols(s[..|s| - 1]);
    }
  }

  /** `base32Decode(base32Encode(buf))`. */
  method EncodeThenDecode(buf: seq<byte>) returns (out: seq<byte>)
    ensures out == buf
  {
    var s := Base32Encode(buf);
    out := Base32Decode(s);
    assert ToUpper(s) == s;
    SymbolsOfSymbols(s);
    RoundTrip(buf, s, out);
  }

  lemma {:induction false} SymbolsConcat(a: string, b: string)
    ensures Symbols(a + b) == Symbols(a) + Symbols(b)
    decreases |b|
  {
    if b == [] {
      assert a + b == a;
    } else {
      assert (a + b)[..|a + b| - 1] == a + b[..|b| - 1];
      SymbolsConcat(a, b[..|b| - 1]);
    }
  }

  /** Decoding reads character by character: letters of either case and the digits 2 to 7 count, all else is passed over. */
  lemma ReadsCharacterwise(typed: string, c: char)
    ensures Symbols(ToUpper(typed + [c])) == Symbols(ToUpper(typed)) +
              (if 'A' <= c <= 'Z' || '2' <= c <= '7' then [c]
               else if 'a' <= c <= 'z' then [(c as int - 32) as char]
               else [])
  {
    assert ToUpper(typed + [c]) == ToUpper(typed) + [Upper(c)];
    SymbolsConcat(ToUpper(typed), [Upper(c)]);
    assert Symbols([]) == [] && [Upper(c)][..0] == [];
  }

  /** A secret typed in lower case, with spaces or dashes, or with padding decodes to the same bytes. */
  method DecodeTyped(buf: seq<byte>, typed: string) returns (out: seq<byte>)
    requires Encodes(buf, Symbols(ToUpper(typed)))
    ensures out == buf
  {
    out := Base32Decode(typed);
    RoundTrip(buf, Symbols(ToUpper(typed)), out);
  }
}
