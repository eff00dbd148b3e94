/** Regrouping bytes into sextets and back, as one stream of bits; the base 64 alphabet; and the
    encoding of section 4 of RFC 4648 as the independent reference. */
module Base64 {

  type Byte = n: nat | n < 256
  type Sextet = n: nat | n < 64

  // ---------------------------------------------------------------- bits

  function Pow2(w: nat): nat {
    if w == 0 then 1 else 2 * Pow2(w - 1)
  }

  /** The lowest w bits of x, the highest first. */
  function Bits(x: nat, w: nat): (bits: seq<bool>)
    ensures |bits| == w
  {
    if w == 0 then [] else Bits(x / 2, w - 1) + [x % 2 == 1]
  }

  function Number(bits: seq<bool>): (x: nat)
    ensures x < Pow2(|bits|)
  {
    if bits == [] then 0
    else 2 * Number(bits[..|bits| - 1]) + if bits[|bits| - 1] then 1 else 0
  }

  lemma {:induction false} NumberOfBits(x: nat, w: nat)
    requires x < Pow2(w)
    ensures Number(Bits(x, w)) == x
  {
    if w > 0 {
      NumberOfBits(x / 2, w - 1);
      assert Bits(x, w)[..w - 1] == Bits(x / 2, w - 1);
    }
  }

  lemma {:induction false} BitsOfNumber(bits: seq<bool>)
    ensures Bits(Number(bits), |bits|) == bits
  {
    if bits != [] {
      BitsOfNumber(bits[..|bits| - 1]);
    }
  }

  function Zeros(n: nat): (bits: seq<bool>)
    ensures |bits| == n
  {
    seq(n, i => false)
  }

  lemma {:induction false} ZeroBits(w: nat)
    ensures Bits(0, w) == Zeros(w)
    ensures Number(Zeros(w)) == 0
  {
    if w > 0 {
      ZeroBits(w - 1);
      assert Zeros(w) == Zeros(w - 1) + [false];
    }
  }

  // ---------------------------------------------------------------- regrouping

  /** The numbers written one after the other, w bits each. */
  function Flatten(xs: seq<nat>, w: nat): (bits: seq<bool>)
    ensures |bits| == w * |xs|
  {
    if xs == [] then [] else Bits(xs[0], w) + Flatten(xs[1..], w)
  }

  /** Bits taken w at a time; a last short group is filled with zeros, or left out. */
  function Group(bits: seq<bool>, w: nat, fill: bool): (xs: seq<nat>)
    requires w > 0
    ensures forall i :: 0 <= i < |xs| ==> xs[i] < Pow2(w)
    decreases |bits|
  {
    if |bits| >= w then [Number(bits[..w])] + Group(bits[w..], w, fill)
    else if bits != [] && fill then [Number(bits + Zeros(w - |bits|))]
    else []
  }

  lemma Powers()
    ensures Pow2(6) == 64 && Pow2(8) == 256
  {
    assert Pow2(4) == 16;
  }

  /** 8-to-6 regrouping with zero fill. */
  function ToSextets(bytes: seq<Byte>): (xs: seq<Sextet>) {
    Powers();
    Group(Flatten(bytes, 8), 6, true)
  }

  /** 6-to-8 regrouping that discards leftover bits. */
  function ToBytes(sextets: seq<Sextet>): (bytes: seq<Byte>) {
    Powers();
    Group(Flatten(sextets, 6), 8, false)
  }

  lemma {:induction false} FlattenAppend(xs: seq<nat>, ys: seq<nat>, w: nat)
    ensures Flatten(xs + ys, w) == Flatten(xs, w) + Flatten(ys, w)
  {
    if xs == [] {
      assert xs + ys == ys;
    } else {
      assert (xs + ys)[1..] == xs[1..] + ys;
      FlattenAppend(xs[1..], ys, w);
    }
  }

  function Repeat(n: nat): (xs: seq<nat>)
    ensures |xs| == n
  {
    seq(n, i => 0)
  }

  lemma {:induction false} FlattenZeros(n: nat, w: nat)
    ensures Flatten(Repeat(n), w) == Zeros(w * n)
  {
    if n > 0 {
      FlattenZeros(n - 1, w);
      assert Repeat(n)[1..] == Repeat(n - 1);
      ZeroBits(w);
      assert w * n == w + w * (n - 1);
      assert Zeros(w * n) == Zeros(w) + Zeros(w * (n - 1));
    }
  }

  lemma {:induction false} GroupZeros(n: nat)
    ensures Group(Zeros(n), 8, false) == Repeat(n / 8)
  {
    if n >= 8 {
      GroupZeros(n - 8);
      ZeroBits(8);
      assert Zeros(n)[..8] == Zeros(8) && Zeros(n)[8..] == Zeros(n - 8);
      assert Repeat(n / 8) == [0] + Repeat(n / 8 - 1);
    }
  }

  /** Zero-filled groups spell out the same bits, followed by fewer than w zeros. */
  lemma {:induction false} FlattenOfGroups(bits: seq<bool>, w: nat) returns (fill: nat)
    requires w > 0
    ensures fill < w && Flatten(Group(bits, w, true), w) == bits + Zeros(fill)
    decreases |bits|
  {
    if |bits| >= w {
      fill := FlattenOfGroups(bits[w..], w);
      BitsOfNumber(bits[..w]);
      var xs := Group(bits, w, true);
      assert xs[1..] == Group(bits[w..], w, true);
      assert bits == bits[..w] + bits[w..];
    } else if bits != [] {
      fill := w - |bits|;
      var last := bits + Zeros(fill);
      BitsOfNumber(last);
      assert Group(bits, w, true) == [Number(last)];
      assert [Number(last)][1..] == [];
    } else {
      fill := 0;
    }
  }

  lemma GroupStep(x: nat, rest: seq<bool>, w: nat, fill: bool)
    requires w > 0 && x < Pow2(w)
    ensures Group(Bits(x, w) + rest, w, fill) == [x] + Group(rest, w, fill)
  {
    NumberOfBits(x, w);
    var bits := Bits(x, w) + rest;
    assert bits[..w] == Bits(x, w) && bits[w..] == rest;
  }

  lemma Assoc(p: seq<bool>, q: seq<bool>, rest: seq<bool>)
    ensures (p + q) + rest == p + (q + rest)
  {
  }

  lemma AssocNat(x: nat, xs: seq<nat>, ys: seq<nat>)
    requires xs != [] && xs[0] == x
    ensures xs + ys == [x] + (xs[1..] + ys)
  {
  }

  /** Reading whole numbers back off a bit stream. */
  lemma {:induction false} GroupsOfFlatten(xs: seq<nat>, rest: seq<bool>, w: nat)
    requires w > 0 && forall i :: 0 <= i < |xs| ==> xs[i] < Pow2(w)
    ensures Group(Flatten(xs, w) + rest, w, false) == xs + Group(rest, w, false)
  {
    if xs == [] {
      assert Flatten(xs, w) + rest == rest;
    } else {
      GroupsOfFlatten(xs[1..], rest, w);
      Assoc(Bits(xs[0], w), Flatten(xs[1..], w), rest);
      GroupStep(xs[0], Flatten(xs[1..], w) + rest, w, false);
      AssocNat(xs[0], xs, Group(rest, w, false));
    }
  }

  /** Sextets made from bytes, and zero sextets after them, are the same bits and then zeros. */
  lemma SextetsAreTheBits(bytes: seq<Byte>, extra: nat) returns (tail: nat)
    ensures Flatten(ToSextets(bytes) + Repeat(extra), 6) == Flatten(bytes, 8) + Zeros(tail)
  {
    Powers();
    var fill := FlattenOfGroups(Flatten(bytes, 8), 6);
    FlattenAppend(ToSextets(bytes), Repeat(extra), 6);
    FlattenZeros(extra, 6);
    tail := fill + 6 * extra;
    assert Zeros(fill) + Zeros(6 * extra) == Zeros(tail);
  }

  lemma BytesAndZeros(bytes: seq<Byte>, tail: nat)
    ensures Group(Flatten(bytes, 8) + Zeros(tail), 8, false) == bytes + Repeat(tail / 8)
  {
    Powers();
    GroupsOfFlatten(bytes, Zeros(tail), 8);
    GroupZeros(tail);
  }

  function WithZeros(bytes: seq<Byte>, extra: nat): seq<Sextet> {
    ToSextets(bytes) + Repeat(extra)
  }

  /** Regrouping bytes and back, with any number of zero sextets after them, gives the bytes
      followed by zero bytes only; and all whole bytes of the stream are there. */
  lemma RegroupingRoundTrip(bytes: seq<Byte>, extra: nat)
    ensures var n := 6 * |WithZeros(bytes, extra)| / 8;
            n >= |bytes| && ToBytes(WithZeros(bytes, extra)) == bytes + Repeat(n - |bytes|)
  {
    var tail := SextetsAreTheBits(bytes, extra);
    BytesAndZeros(bytes, tail);
    assert 6 * |WithZeros(bytes, extra)| == 8 * |bytes| + tail;
  }

  lemma {:induction false} GroupCount(bits: seq<bool>)
    ensures |Group(bits, 6, true)| == (|bits| + 5) / 6
    decreases |bits|
  {
    if |bits| >= 6 {
      GroupCount(bits[6..]);
    }
  }

  // ---------------------------------------------------------------- the alphabet

  /** The character of a value, and the value of a character: table 1 of RFC 4648. */
  function CharOf(x: Sextet): char {
    if x < 26 then 'A' + x as char
    else if x < 52 then 'a' + (x - 26) as char
    else if x < 62 then '0' + (x - 52) as char
    else if x == 62 then '+'
    else '/'
  }

  function ValueOf(c: char): int {
    if 'A' <= c <= 'Z' then c as int - 'A' as int
    else if 'a' <= c <= 'z' then c as int - 'a' as int + 26
    else if '0' <= c <= '9' then c as int - '0' as int + 52
    else if c == '+' then 62
    else if c == '/' then 63
    else -1
  }

  /** Table 1 of RFC 4648, written out. */
  const ALPHABET: string :=
    "ABCDEFGHIJKLMNOPQRSTUVWXYZ" + "abcdefghijklmnopqrstuvwxyz" + "0123456789" + "+/"

  /** The printer's characters are those of the table. */
  lemma AlphabetIsTable1(x: Sextet)
    ensures |ALPHABET| == 64 && CharOf(x) == ALPHABET[x]
  {
  }

  /** The decoder knows exactly the characters of the table. */
  lemma KnownCharacters(c: char)
    ensures ValueOf(c) >= 0 <==> c in ALPHABET
  {
    AlphabetDecodes(c);
    if ValueOf(c) >= 0 {
      AlphabetIsTable1(ValueOf(c));
    }
    if c in ALPHABET {
      var x: nat :| x < |ALPHABET| && ALPHABET[x] == c;
      AlphabetIsTable1(x);
      DecodesAlphabet(x);
    }
  }

  /** The lookup table of the decoder inverts the alphabet. */
  lemma DecodesAlphabet(x: Sextet)
    ensures ValueOf(CharOf(x)) == x
  {
  }

  lemma AlphabetDecodes(c: char)
    ensures -1 <= ValueOf(c) < 64
    ensures ValueOf(c) >= 0 ==> CharOf(ValueOf(c)) == c
  {
  }

  function Text(sextets: seq<Sextet>): (s: string)
    ensures |s| == |sextets|
  {
    seq(|sextets|, i requires 0 <= i < |sextets| => CharOf(sextets[i]))
  }

  predicate Decodable(s: string) { forall i :: 0 <= i < |s| ==> ValueOf(s[i]) >= 0 }

  function Values(s: string): (xs: seq<Sextet>)
    requires Decodable(s)
    ensures |xs| == |s| && forall i :: 0 <= i < |s| ==> xs[i] == ValueOf(s[i])
  {
    seq(|s|, i requires 0 <= i < |s| => (AlphabetDecodes(s[i]); ValueOf(s[i]) as Sextet))
  }

  lemma ValuesOfText(sextets: seq<Sextet>)
    ensures Decodable(Text(sextets)) && Values(Text(sextets)) == sextets
    ensures forall i :: 0 <= i < |sextets| ==> Text(sextets)[i] !in "=\n"
  {
    forall i | 0 <= i < |sextets| ensures ValueOf(Text(sextets)[i]) == sextets[i] {
      DecodesAlphabet(sextets[i]);
    }
  }

  // ---------------------------------------------------------------- section 4 of RFC 4648

  function Pads(n: nat): string { seq(n, i => '=') }

  /** How many '=' complete the last group of n bytes. */
  function PaddingFor(n: nat): nat { (3 - n % 3) % 3 }

  /** Groups of three bytes as four values; a short last group gives two or three. */
  function Rfc4648Values(bytes: seq<Byte>): seq<Sextet> {
    if bytes == [] then []
    else if |bytes| == 1 then
      [bytes[0] / 4, bytes[0] % 4 * 16]
    else if |bytes| == 2 then
      [bytes[0] / 4, bytes[0] % 4 * 16 + bytes[1] / 16, bytes[1] % 16 * 4]
    else
      [bytes[0] / 4, bytes[0] % 4 * 16 + bytes[1] / 16, bytes[1] % 16 * 4 + bytes[2] / 64, bytes[2] % 64]
      + Rfc4648Values(bytes[3..])
  }

  /** Their characters in the table. */
  function Letters(xs: seq<Sextet>): (s: string)
    ensures |s| == |xs|
  {
    AlphabetIsTable1(0);
    seq(|xs|, i requires 0 <= i < |xs| => ALPHABET[xs[i]])
  }

  lemma LettersAreText(xs: seq<Sextet>)
    ensures Letters(xs) == Text(xs)
  {
    forall i | 0 <= i < |xs| ensures Letters(xs)[i] == Text(xs)[i] {
      AlphabetIsTable1(xs[i]);
    }
  }

  /** The standard text: their characters, filled up with '=' to whole groups of four. */
  function Rfc4648(bytes: seq<Byte>): string {
    Letters(Rfc4648Values(bytes)) + Pads(PaddingFor(|bytes|))
  }

  lemma Halve(x: nat, h: nat, l: nat)
    requires x == 2 * h + l
    ensures x / 2 == h + l / 2 && x % 2 == l % 2
  {
  }

  lemma Double(h: nat, p: nat)
    ensures h * (2 * p) == 2 * (h * p)
  {
  }

  /** A number whose low n bits are low, and whose other bits are high. */
  lemma {:induction false} SplitBits(x: nat, high: nat, low: nat, m: nat, n: nat)
    requires low < Pow2(n) && x == high * Pow2(n) + low
    ensures Bits(x, m + n) == Bits(high, m) + Bits(low, n)
  {
    if n == 0 {
      assert Bits(low, n) == [];
    } else {
      Double(high, Pow2(n - 1));
      Halve(x, high * Pow2(n - 1), low);
      SplitBits(x / 2, high, low / 2, m, n - 1);
    }
  }

  lemma Powers2()
    ensures Pow2(2) == 4 && Pow2(4) == 16 && Pow2(6) == 64 && Pow2(8) == 256
  {
    assert Pow2(3) == 8 && Pow2(5) == 32 && Pow2(7) == 128;
  }

  lemma Recut(a: seq<bool>, b: seq<bool>, c: seq<bool>, p: seq<bool>, q: seq<bool>, r: seq<bool>,
              s: seq<bool>, t: seq<bool>, u: seq<bool>, x: seq<bool>, y: seq<bool>)
    requires a == p + q && b == r + s && c == t + u && x == q + r && y == s + t
    ensures a + b + c == p + x + y + u
  {
    assert (p + q) + (r + s) + (t + u) == p + (q + r) + (s + t) + u;
  }

  lemma RecutTwo(a: seq<bool>, b: seq<bool>, p: seq<bool>, q: seq<bool>, r: seq<bool>, s: seq<bool>,
                 x: seq<bool>)
    requires a == p + q && b == r + s && x == q + r
    ensures a + b == p + (x + s)
  {
    assert (p + q) + (r + s) == p + ((q + r) + s);
  }

  /** Three words cut in two each, and the words across the two borders. */
  lemma CutThree(a: nat, b: nat, c: nat, x: nat, y: nat, p: nat, q: nat, r: nat, s: nat, t: nat, u: nat,
                 i: nat, j: nat, k: nat, l: nat, m: nat, n: nat)
    requires q < Pow2(j) && r < Pow2(k) && s < Pow2(l) && t < Pow2(m) && u < Pow2(n)
    requires a == p * Pow2(j) + q && b == r * Pow2(l) + s && c == t * Pow2(n) + u
    requires x == q * Pow2(k) + r && y == s * Pow2(m) + t
    ensures Bits(a, i + j) + Bits(b, k + l) + Bits(c, m + n)
         == Bits(p, i) + Bits(x, j + k) + Bits(y, l + m) + Bits(u, n)
  {
    SplitBits(a, p, q, i, j);
    SplitBits(b, r, s, k, l);
    SplitBits(c, t, u, m, n);
    SplitBits(x, q, r, j, k);
    SplitBits(y, s, t, l, m);
    Recut(Bits(a, i + j), Bits(b, k + l), Bits(c, m + n), Bits(p, i), Bits(q, j), Bits(r, k),
          Bits(s, l), Bits(t, m), Bits(u, n), Bits(x, j + k), Bits(y, l + m));
  }

  /** Three bytes cut after 6, 4 and 2 bits, and the four sextets those pieces make. */
  lemma ThreeBytesFourSextets(p: nat, q: nat, r: nat, s: nat, t: nat, u: nat)
    requires p < 64 && q < 4 && r < 16 && s < 16 && t < 4 && u < 64
    ensures Bits(p * 4 + q, 6 + 2) + Bits(r * 16 + s, 4 + 4) + Bits(t * 64 + u, 2 + 6)
         == Bits(p, 6) + Bits(q * 16 + r, 2 + 4) + Bits(s * 4 + t, 4 + 2) + Bits(u, 6)
  {
    Powers2();
    CutThree(p * 4 + q, r * 16 + s, t * 64 + u, q * 16 + r, s * 4 + t, p, q, r, s, t, u, 6, 2, 4, 4, 2, 6);
  }

  lemma Nested(p: seq<bool>, q: seq<bool>, r: seq<bool>, s: seq<bool>, rest: seq<bool>)
    ensures p + q + r + s + rest == p + (q + (r + (s + rest)))
  {
  }

  lemma FourFirst(w: nat, x: nat, y: nat, z: nat, xs: seq<nat>)
    ensures [w] + ([x] + ([y] + ([z] + xs))) == [w, x, y, z] + xs
  {
  }

  lemma TwoSteps(x: nat, y: nat, rest: seq<bool>)
    requires x < 64 && y < 64
    ensures Group(Bits(x, 6) + (Bits(y, 6) + rest), 6, true) == [x] + ([y] + Group(rest, 6, true))
  {
    Powers();
    GroupStep(x, Bits(y, 6) + rest, 6, true);
    GroupStep(y, rest, 6, true);
  }

  lemma FourSextets(a: Byte, b: Byte, c: Byte, rest: seq<bool>)
    ensures Group(Bits(a, 8) + Bits(b, 8) + Bits(c, 8) + rest, 6, true)
         == [a / 4, a % 4 * 16 + b / 16, b % 16 * 4 + c / 64, c % 64] + Group(rest, 6, true)
  {
    ThreeBytesFourSextets(a / 4, a % 4, b / 16, b % 16, c / 64, c % 64);
    var w, x, y, z := a / 4, a % 4 * 16 + b / 16, b % 16 * 4 + c / 64, c % 64;
    TwoSteps(w, x, Bits(y, 6) + (Bits(z, 6) + rest));
    TwoSteps(y, z, rest);
    Nested(Bits(w, 6), Bits(x, 6), Bits(y, 6), Bits(z, 6), rest);
    FourFirst(w, x, y, z, Group(rest, 6, true));
  }

  lemma OneByteLeft(p: nat, q: nat)
    requires p < 64 && q < 4
    ensures Group(Bits(p * 4 + q, 6 + 2), 6, true) == [p, q * 16]
  {
    Powers2();
    SplitBits(p * 4 + q, p, q, 6, 2);
    GroupStep(p, Bits(q, 2), 6, true);
    SplitBits(q * 16, q, 0, 2, 4);
    LastGroup(Bits(q, 2), q * 16);
  }

  lemma TwoBytesLeft(p: nat, q: nat, r: nat, s: nat)
    requires p < 64 && q < 4 && r < 16 && s < 16
    ensures Group(Bits(p * 4 + q, 6 + 2) + Bits(r * 16 + s, 4 + 4), 6, true) == [p, q * 16 + r, s * 4]
  {
    TwoBytesCut(p, q, r, s);
    Powers2();
    SplitBits(s * 4, s, 0, 4, 2);
    ThreeGroups(p, q * 16 + r, Bits(s, 4), s * 4);
  }

  lemma TwoBytesCut(p: nat, q: nat, r: nat, s: nat)
    requires p < 64 && q < 4 && r < 16 && s < 16
    ensures Bits(p * 4 + q, 6 + 2) + Bits(r * 16 + s, 4 + 4)
         == Bits(p, 6) + (Bits(q * 16 + r, 2 + 4) + Bits(s, 4))
  {
    Powers2();
    CutTwo(p * 4 + q, r * 16 + s, q * 16 + r, p, q, r, s, 6, 2, 4, 4);
  }

  /** Two words cut in two each, and the word across the border. */
  lemma CutTwo(a: nat, b: nat, x: nat, p: nat, q: nat, r: nat, s: nat, i: nat, j: nat, k: nat, l: nat)
    requires q < Pow2(j) && r < Pow2(k) && s < Pow2(l)
    requires a == p * Pow2(j) + q && b == r * Pow2(l) + s && x == q * Pow2(k) + r
    ensures Bits(a, i + j) + Bits(b, k + l) == Bits(p, i) + (Bits(x, j + k) + Bits(s, l))
  {
    SplitBits(a, p, q, i, j);
    SplitBits(b, r, s, k, l);
    SplitBits(x, q, r, j, k);
    RecutTwo(Bits(a, i + j), Bits(b, k + l), Bits(p, i), Bits(q, j), Bits(r, k), Bits(s, l), Bits(x, j + k));
  }

  lemma ThreeGroups(w: nat, x: nat, bits: seq<bool>, y: nat)
    requires w < 64 && x < 64 && y < 64 && 0 < |bits| < 6 && Bits(y, 6) == bits + Bits(0, 6 - |bits|)
    ensures Group(Bits(w, 6) + (Bits(x, 6) + bits), 6, true) == [w, x, y]
  {
    Powers();
    GroupStep(w, Bits(x, 6) + bits, 6, true);
    GroupStep(x, bits, 6, true);
    LastGroup(bits, y);
  }

  /** A short last group is the number whose low bits are the filling zeros. */
  lemma LastGroup(bits: seq<bool>, y: nat)
    requires 0 < |bits| < 6 && y < 64 && Bits(y, 6) == bits + Bits(0, 6 - |bits|)
    ensures Group(bits, 6, true) == [y]
  {
    Powers();
    ZeroBits(6 - |bits|);
    NumberOfBits(y, 6);
  }

  /** The bit stream in sextets is the sequence of values of the standard encoding. */
  lemma {:induction false} StreamIsRfc4648(bytes: seq<Byte>)
    ensures ToSextets(bytes) == Rfc4648Values(bytes)
  {
    if |bytes| == 1 {
      OneByteStream(bytes);
    } else if |bytes| == 2 {
      TwoByteStream(bytes);
    } else if bytes != [] {
      StreamIsRfc4648(bytes[3..]);
      FlattenThree(bytes, 8);
      FourSextets(bytes[0], bytes[1], bytes[2], Flatten(bytes[3..], 8));
    }
  }

  lemma OneByteStream(bytes: seq<Byte>)
    requires |bytes| == 1
    ensures ToSextets(bytes) == Rfc4648Values(bytes)
  {
    assert bytes[1..] == [] && Flatten(bytes[1..], 8) == [];
    assert Flatten(bytes, 8) == Bits(bytes[0], 8);
    OneByte(bytes[0]);
  }

  lemma TwoByteStream(bytes: seq<Byte>)
    requires |bytes| == 2
    ensures ToSextets(bytes) == Rfc4648Values(bytes)
  {
    FlattenTwo(bytes);
    TwoBytes(bytes[0], bytes[1]);
  }

  lemma FlattenFrom(xs: seq<nat>, i: nat, w: nat)
    requires i < |xs|
    ensures Flatten(xs[i..], w) == Bits(xs[i], w) + Flatten(xs[i + 1..], w)
  {
    var rest := xs[i..];
    assert rest[0] == xs[i] && rest[1..] == xs[i + 1..];
  }

  lemma FlattenTwo(bytes: seq<Byte>)
    requires |bytes| == 2
    ensures Flatten(bytes, 8) == Bits(bytes[0], 8) + Bits(bytes[1], 8)
  {
    FlattenFrom(bytes, 1, 8);
    assert bytes[2..] == [] && bytes[0..] == bytes;
    FlattenFrom(bytes, 0, 8);
  }

  lemma OneByte(a: Byte)
    ensures Group(Bits(a, 8), 6, true) == [a / 4, a % 4 * 16]
  {
    OneByteLeft(a / 4, a % 4);
  }

  lemma TwoBytes(a: Byte, b: Byte)
    ensures Group(Bits(a, 8) + Bits(b, 8), 6, true) == [a / 4, a % 4 * 16 + b / 16, b % 16 * 4]
  {
    TwoBytesLeft(a / 4, a % 4, b / 16, b % 16);
  }

  lemma FlattenThree(xs: seq<nat>, w: nat)
    requires |xs| >= 3
    ensures Flatten(xs, w) == Bits(xs[0], w) + Bits(xs[1], w) + Bits(xs[2], w) + Flatten(xs[3..], w)
  {
    FlattenFrom(xs, 0, w);
    FlattenFrom(xs, 1, w);
    FlattenFrom(xs, 2, w);
    assert xs[0..] == xs;
    Nest(Bits(xs[0], w), Bits(xs[1], w), Bits(xs[2], w), Flatten(xs[3..], w));
  }

  lemma Nest(p: seq<bool>, q: seq<bool>, r: seq<bool>, rest: seq<bool>)
    ensures p + (q + (r + rest)) == p + q + r + rest
  {
  }

  // ---------------------------------------------------------------- decoding by the standard

  /** The three bytes of four values. */
  function FirstByte(w: nat, x: nat): nat { w * 4 + x / 16 }
  function SecondByte(x: nat, y: nat): nat { x % 16 * 16 + y / 4 }
  function ThirdByte(y: nat, z: nat): nat { y % 4 * 64 + z }

  /** Groups of four values as three bytes; of a short last group, the whole bytes it holds. */
  function Rfc4648Bytes(xs: seq<Sextet>): seq<Byte> {
    if |xs| <= 1 then []
    else if |xs| == 2 then [FirstByte(xs[0], xs[1])]
    else if |xs| == 3 then [FirstByte(xs[0], xs[1]), SecondByte(xs[1], xs[2])]
    else [FirstByte(xs[0], xs[1]), SecondByte(xs[1], xs[2]), ThirdByte(xs[2], xs[3])] + Rfc4648Bytes(xs[4..])
  }

  lemma ByteSteps(a: nat, b: nat, rest: seq<bool>)
    requires a < 256 && b < 256
    ensures Group(Bits(a, 8) + (Bits(b, 8) + rest), 8, false) == [a] + ([b] + Group(rest, 8, false))
  {
    Powers();
    GroupStep(a, Bits(b, 8) + rest, 8, false);
    GroupStep(b, rest, 8, false);
  }

  lemma ReadThreeBytes(bits: seq<bool>, a: nat, b: nat, c: nat, rest: seq<bool>)
    requires a < 256 && b < 256 && c < 256 && bits == Bits(a, 8) + Bits(b, 8) + Bits(c, 8)
    ensures Group(bits + rest, 8, false) == [a, b, c] + Group(rest, 8, false)
  {
    Powers();
    NestThree(Bits(a, 8), Bits(b, 8), Bits(c, 8), rest);
    ByteSteps(a, b, Bits(c, 8) + rest);
    GroupStep(c, rest, 8, false);
    ThreeFirst(a, b, c, Group(rest, 8, false));
  }

  /** Four sextets are three bytes. */
  lemma FourSextetsThreeBytes(w: nat, x: nat, y: nat, z: nat, rest: seq<bool>)
    requires w < 64 && x < 64 && y < 64 && z < 64
    ensures Group(Bits(w, 6) + Bits(x, 6) + Bits(y, 6) + Bits(z, 6) + rest, 8, false)
         == [FirstByte(w, x), SecondByte(x, y), ThirdByte(y, z)] + Group(rest, 8, false)
  {
    SameBits(w, x, y, z);
    ReadThreeBytes(Bits(w, 6) + Bits(x, 6) + Bits(y, 6) + Bits(z, 6),
                   FirstByte(w, x), SecondByte(x, y), ThirdByte(y, z), rest);
  }

  lemma SameBits(w: nat, x: nat, y: nat, z: nat)
    requires w < 64 && x < 64 && y < 64 && z < 64
    ensures Bits(w, 6) + Bits(x, 6) + Bits(y, 6) + Bits(z, 6)
         == Bits(FirstByte(w, x), 8) + Bits(SecondByte(x, y), 8) + Bits(ThirdByte(y, z), 8)
  {
    Powers2();
    CutThree(FirstByte(w, x), SecondByte(x, y), ThirdByte(y, z), x, y, w, x / 16, x % 16, y / 4, y % 4, z,
             6, 2, 4, 4, 2, 6);
  }

  lemma NestThree(p: seq<bool>, q: seq<bool>, r: seq<bool>, rest: seq<bool>)
    ensures p + q + r + rest == p + (q + (r + rest))
  {
  }

  lemma ThreeFirst(x: nat, y: nat, z: nat, xs: seq<nat>)
    ensures [x] + ([y] + ([z] + xs)) == [x, y, z] + xs
  {
  }

  /** Two sextets are one byte and four bits, three sextets are two bytes and two bits. */
  lemma TwoSextetsLeft(x: nat, y: nat)
    requires x < 64 && y < 64
    ensures Group(Bits(x, 6) + Bits(y, 6), 8, false) == [FirstByte(x, y)]
  {
    Powers2();
    assert Pow2(0) == 1;
    CutTwo(FirstByte(x, y), y % 16, y, x, y / 16, y % 16, 0, 6, 2, 4, 0);
    DropEmpty(Bits(y, 6), Bits(0, 0));
    GroupStep(FirstByte(x, y), Bits(y % 16, 4), 8, false);
    DropEmptyNat(FirstByte(x, y), Group(Bits(y % 16, 4), 8, false));
  }

  lemma DropEmptyNat(a: nat, xs: seq<nat>)
    requires xs == []
    ensures [a] + xs == [a]
  {
  }

  lemma ThreeSextetsLeft(x: nat, y: nat, z: nat)
    requires x < 64 && y < 64 && z < 64
    ensures Group(Bits(x, 6) + Bits(y, 6) + Bits(z, 6), 8, false) == [FirstByte(x, y), SecondByte(y, z)]
  {
    ThreeSextetsBits(x, y, z);
    ReadTwoBytes(Bits(x, 6) + Bits(y, 6) + Bits(z, 6), FirstByte(x, y), SecondByte(y, z), Bits(z % 4, 2));
  }

  lemma ThreeSextetsBits(x: nat, y: nat, z: nat)
    requires x < 64 && y < 64 && z < 64
    ensures Bits(x, 6) + Bits(y, 6) + Bits(z, 6)
         == Bits(FirstByte(x, y), 8) + Bits(SecondByte(y, z), 8) + Bits(z % 4, 2)
  {
    Powers2();
    assert Pow2(0) == 1;
    CutThree(FirstByte(x, y), SecondByte(y, z), z % 4, y, z, x, y / 16, y % 16, z / 4, z % 4, 0,
             6, 2, 4, 4, 2, 0);
    DropEmpty(Bits(x, 6) + Bits(y, 6) + Bits(z, 6), Bits(0, 0));
  }

  lemma ReadTwoBytes(bits: seq<bool>, a: nat, b: nat, rest: seq<bool>)
    requires a < 256 && b < 256 && bits == Bits(a, 8) + Bits(b, 8) + rest && |rest| < 8
    ensures Group(bits, 8, false) == [a, b]
  {
    Assoc(Bits(a, 8), Bits(b, 8), rest);
    ByteSteps(a, b, rest);
    assert [a] + ([b] + []) == [a, b];
  }

  lemma DropEmpty(p: seq<bool>, q: seq<bool>)
    requires q == []
    ensures p + q == p
  {
  }

  /** Reading sextets as one bit stream and cutting off the bytes is decoding by the standard, for
      every sequence of values, whether or not an encoder made it. */
  lemma {:induction false} BytesAreRfc4648(xs: seq<Sextet>)
    ensures ToBytes(xs) == Rfc4648Bytes(xs)
  {
    if |xs| == 1 {
      assert |Flatten(xs, 6)| == 6;
    } else if |xs| == 2 {
      TwoSextetsStream(xs);
    } else if |xs| == 3 {
      FlattenThree(xs, 6);
      DropEmpty(Bits(xs[0], 6) + Bits(xs[1], 6) + Bits(xs[2], 6), Flatten(xs[3..], 6));
      ThreeSextetsLeft(xs[0], xs[1], xs[2]);
    } else if xs != [] {
      BytesAreRfc4648(xs[4..]);
      FlattenFour(xs);
      FourSextetsThreeBytes(xs[0], xs[1], xs[2], xs[3], Flatten(xs[4..], 6));
    }
  }

  lemma TwoSextetsStream(xs: seq<Sextet>)
    requires |xs| == 2
    ensures ToBytes(xs) == Rfc4648Bytes(xs)
  {
    FlattenFrom(xs, 0, 6);
    FlattenFrom(xs, 1, 6);
    assert xs[0..] == xs && xs[2..] == [];
    DropEmpty(Bits(xs[1], 6), Flatten(xs[2..], 6));
    TwoSextetsLeft(xs[0], xs[1]);
  }

  lemma FlattenFour(xs: seq<Sextet>)
    requires |xs| >= 4
    ensures Flatten(xs, 6)
         == Bits(xs[0], 6) + Bits(xs[1], 6) + Bits(xs[2], 6) + Bits(xs[3], 6) + Flatten(xs[4..], 6)
  {
    FlattenThree(xs, 6);
    FlattenFrom(xs, 3, 6);
    Assoc(Bits(xs[0], 6) + Bits(xs[1], 6) + Bits(xs[2], 6), Bits(xs[3], 6), Flatten(xs[4..], 6));
  }
}
