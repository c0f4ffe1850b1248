// The base64 codec of state.cpp (base64enc / base64dec): the alphabet of
// section 4 of RFC 4648, '=' padding on encode, and a decoder that stops at
// the first character outside the alphabet.  Shifts and masks on the
// accumulator are written as division and remainder by powers of two.
module Base64 {

  import opened Base64Arith

  type byte = b: int | 0 <= b < 256

  /** 2^n, so that `x >> n` is `x / Pow2(n)` for x >= 0. */
  function Pow2(n: nat): (p: int)
    ensures p >= 1
  {
    if n == 0 then 1 else 2 * Pow2(n - 1)
  }

  /** The i-th character of "A..Za..z0..9+/". */
  function Letter(i: int): char
    requires 0 <= i < 64
  {
    if i < 26 then ('A' as int + i) as char
    else if i < 52 then ('a' as int + i - 26) as char
    else if i < 62 then ('0' as int + i - 52) as char
    else if i == 62 then '+'
    else '/'
  }

  /** The decoder's table entry for `c`: its position in the alphabet, or -1. */
  function IndexOf(c: char): (i: int)
    ensures -1 <= i < 64
  {
    if 'A' <= c <= 'Z' then c as int - 'A' as int
    else if 'a' <= c <= 'z' then c as int - 'a' as int + 26
    else if '0' <= c <= '9' then c as int - '0' as int + 52
    else if c == '+' then 62
    else if c == '/' then 63
    else -1
  }

  predicate IsAlpha(c: char) {
    IndexOf(c) >= 0
  }

  /** The table inverts the alphabet: every letter is found at its own
      position, and it is ASCII ... */
  lemma IndexOfLetter(i: int)
    requires 0 <= i < 64
    ensures IndexOf(Letter(i)) == i && (Letter(i) as int) < 128
  {
  }

  /** ... and every character the table finds is the letter at that position. */
  lemma LetterOfIndex(c: char)
    requires IsAlpha(c)
    ensures Letter(IndexOf(c)) == c
  {
  }

  /** Padding and non-ASCII characters are outside the alphabet. */
  lemma NotAlpha(c: char)
    requires c == '=' || (c as int) >= 128
    ensures !IsAlpha(c)
  {
  }

  /** b64[x & 0x3F]: the alphabet character for the low six bits of x. */
  function Ch(x: int): char {
    Letter(x % 64)
  }

  lemma ChIndex(x: int)
    ensures IsAlpha(Ch(x)) && IndexOf(Ch(x)) == x % 64
  {
    IndexOfLetter(x % 64);
  }

  // ---------------------------------------------------------------------
  // Specification: quanta of three bytes and four characters.

  function C0(b0: byte): char { Ch(b0 / 4) }
  function C1(b0: byte, b1: byte): char { Ch(b0 % 4 * 16 + b1 / 16) }
  function C2(b1: byte, b2: byte): char { Ch(b1 % 16 * 4 + b2 / 64) }
  function C3(b2: byte): char { Ch(b2) }

  /** What base64enc returns for the byte string `s`. */
  function Encoding(s: seq<byte>): string
    decreases |s|
  {
    if |s| >= 3 then [C0(s[0]), C1(s[0], s[1]), C2(s[1], s[2]), C3(s[2])] + Encoding(s[3..])
    else if |s| == 2 then [C0(s[0]), C1(s[0], s[1]), C2(s[1], 0), '=']
    else if |s| == 1 then [C0(s[0]), C1(s[0], 0), '=', '=']
    else []
  }

  predicate AllAlpha(p: string) {
    forall i :: 0 <= i < |p| ==> IsAlpha(p[i])
  }

  function Byte0(c0: char, c1: char): byte
    requires IsAlpha(c0) && IsAlpha(c1)
  {
    (IndexOf(c0) * 4 + IndexOf(c1) / 16) % 256
  }

  function Byte1(c1: char, c2: char): byte
    requires IsAlpha(c1) && IsAlpha(c2)
  {
    (IndexOf(c1) * 16 + IndexOf(c2) / 4) % 256
  }

  function Byte2(c2: char, c3: char): byte
    requires IsAlpha(c2) && IsAlpha(c3)
  {
    (IndexOf(c2) * 64 + IndexOf(c3)) % 256
  }

  /** The bytes carried by a run of alphabet characters: whole quanta, then a
      partial quantum of two or three characters. */
  function Decoded(p: string): seq<byte>
    requires AllAlpha(p)
    decreases |p|
  {
    if |p| >= 4 then [Byte0(p[0], p[1]), Byte1(p[1], p[2]), Byte2(p[2], p[3])] + Decoded(p[4..])
    else if |p| == 3 then [Byte0(p[0], p[1]), Byte1(p[1], p[2])]
    else if |p| == 2 then [Byte0(p[0], p[1])]
    else []
  }

  /** Length of the longest prefix of `t` made of alphabet characters. */
  function AlphaPrefixLen(t: string): (k: nat)
    ensures k <= |t| && (k < |t| ==> !IsAlpha(t[k]))
    ensures forall i :: 0 <= i < k ==> IsAlpha(t[i])
    decreases |t|
  {
    if t == [] || !IsAlpha(t[0]) then 0
    else
      var k := 1 + AlphaPrefixLen(t[1..]);
      assert forall i :: 1 <= i < k ==> t[i] == t[1..][i - 1];
      k
  }

  /** A run of d alphabet characters ended by the end of `t` or by a
      character outside the alphabet is the alphabet prefix. */
  lemma {:induction false} AlphaPrefixLenIs(t: string, d: int)
    requires 0 <= d <= |t| && (forall i :: 0 <= i < d ==> IsAlpha(t[i]))
    requires d < |t| ==> !IsAlpha(t[d])
    ensures AlphaPrefixLen(t) == d
    decreases d
  {
    if d > 0 {
      assert IsAlpha(t[0]);
      assert forall i :: 0 <= i < d - 1 ==> t[1..][i] == t[i + 1];
      AlphaPrefixLenIs(t[1..], d - 1);
    }
  }

  lemma AlphaPrefix(t: string)
    ensures AllAlpha(t[..AlphaPrefixLen(t)])
  {
    var k := AlphaPrefixLen(t);
    forall i | 0 <= i < k ensures IsAlpha(t[..k][i]) {
      assert t[..k][i] == t[i];
    }
  }

  /** What base64dec returns for `t`: the bytes of its alphabet prefix. */
  function Decoding(t: string): seq<byte> {
    AlphaPrefix(t);
    Decoded(t[..AlphaPrefixLen(t)])
  }

  // ---------------------------------------------------------------------
  // Properties of the specification.

  lemma {:induction false} EncodingLength(s: seq<byte>)
    ensures |Encoding(s)| == 4 * ((|s| + 2) / 3)
    decreases |s|
  {
    if |s| >= 3 {
      EncodingLength(s[3..]);
      assert |Encoding(s)| == 4 + |Encoding(s[3..])|;
      assert (|s| + 2) / 3 == (|s[3..]| + 2) / 3 + 1;
    }
  }

  /** Each quantum is made of alphabet characters that decode to its bytes. */
  lemma Byte0Of(b0: byte, b1: byte, c0: char, c1: char)
    requires IsAlpha(c0) && IndexOf(c0) == b0 / 4 % 64
    requires IsAlpha(c1) && IndexOf(c1) == (b0 % 4 * 16 + b1 / 16) % 64
    ensures Byte0(c0, c1) == b0
  {
    QuantumByte0(b0, b1);
  }

  lemma Byte1Of(b0: byte, b1: byte, b2: byte, c1: char, c2: char)
    requires IsAlpha(c1) && IndexOf(c1) == (b0 % 4 * 16 + b1 / 16) % 64
    requires IsAlpha(c2) && IndexOf(c2) == (b1 % 16 * 4 + b2 / 64) % 64
    ensures Byte1(c1, c2) == b1
  {
    QuantumByte1(b0, b1, b2);
  }

  lemma Byte2Of(b1: byte, b2: byte, c2: char, c3: char)
    requires IsAlpha(c2) && IndexOf(c2) == (b1 % 16 * 4 + b2 / 64) % 64
    requires IsAlpha(c3) && IndexOf(c3) == b2 % 64
    ensures Byte2(c2, c3) == b2
  {
    QuantumByte2(b1, b2);
  }

  lemma QuantumAlpha(b0: byte, b1: byte, b2: byte)
    ensures IsAlpha(C0(b0)) && IsAlpha(C1(b0, b1)) && IsAlpha(C2(b1, b2)) && IsAlpha(C3(b2))
  {
    ChIndex(b0 / 4);
    ChIndex(b0 % 4 * 16 + b1 / 16);
    ChIndex(b1 % 16 * 4 + b2 / 64);
    ChIndex(b2);
  }

  lemma QuantumDecodes(b0: byte, b1: byte, b2: byte)
    ensures IsAlpha(C0(b0)) && IsAlpha(C1(b0, b1)) && IsAlpha(C2(b1, b2)) && IsAlpha(C3(b2))
    ensures Byte0(C0(b0), C1(b0, b1)) == b0
    ensures Byte1(C1(b0, b1), C2(b1, b2)) == b1
    ensures Byte2(C2(b1, b2), C3(b2)) == b2
  {
    ChIndex(b0 / 4);
    ChIndex(b0 % 4 * 16 + b1 / 16);
    ChIndex(b1 % 16 * 4 + b2 / 64);
    ChIndex(b2);
    Byte0Of(b0, b1, C0(b0), C1(b0, b1));
    Byte1Of(b0, b1, b2, C1(b0, b1), C2(b1, b2));
    Byte2Of(b1, b2, C2(b1, b2), C3(b2));
  }

  /** The output is (8n+5)/6 alphabet characters followed by at most two '=',
      in all a multiple of four characters. */
  lemma {:induction false} EncodingShape(s: seq<byte>)
    ensures var r, d := Encoding(s), (8 * |s| + 5) / 6;
            d <= |r| <= d + 2 && |r| % 4 == 0
            && (forall i :: 0 <= i < d ==> IsAlpha(r[i]))
            && (forall i :: d <= i < |r| ==> r[i] == '=')
    decreases |s|
  {
    EncodingLength(s);
    EncodedLengths(|s|);
    var r, d := Encoding(s), (8 * |s| + 5) / 6;
    if |s| >= 3 {
      var q := [C0(s[0]), C1(s[0], s[1]), C2(s[1], s[2]), C3(s[2])];
      var t, d' := Encoding(s[3..]), (8 * |s[3..]| + 5) / 6;
      assert r == q + t;
      assert d == d' + 4;
      EncodingShape(s[3..]);
      QuantumAlpha(s[0], s[1], s[2]);
      forall i | 0 <= i < d ensures IsAlpha(r[i]) {
        assert i < 4 ==> r[i] == q[i];
        assert 4 <= i ==> r[i] == t[i - 4];
      }
      forall i | d <= i < |r| ensures r[i] == '=' {
        assert r[i] == t[i - 4];
      }
    } else {
      ShortShape(s);
    }
  }

  lemma ShortShape(s: seq<byte>)
    requires |s| < 3
    ensures var r, d := Encoding(s), (8 * |s| + 5) / 6;
            d <= |r| <= d + 2 && |r| % 4 == 0
            && (forall i :: 0 <= i < d ==> IsAlpha(r[i]))
            && (forall i :: d <= i < |r| ==> r[i] == '=')
  {
    if |s| == 2 {
      QuantumAlpha(s[0], s[1], 0);
    } else if |s| == 1 {
      QuantumAlpha(s[0], 0, 0);
    }
  }

  lemma {:induction false} DecodedLength(p: string)
    requires AllAlpha(p)
    ensures |Decoded(p)| == 6 * |p| / 8
    decreases |p|
  {
    if |p| >= 4 {
      DecodedLength(p[4..]);
    }
  }

  /** The alphabet prefix of an encoding is the part before the padding. */
  lemma EncodingPrefix(s: seq<byte>)
    ensures AlphaPrefixLen(Encoding(s)) == (8 * |s| + 5) / 6
  {
    EncodingShape(s);
    NotAlpha('=');
    var r, d := Encoding(s), (8 * |s| + 5) / 6;
    AlphaPrefixLenIs(r, d);
  }

  /** base64dec(base64enc(s)) == s for every byte string. */
  lemma RoundTrip(s: seq<byte>)
    ensures Decoding(Encoding(s)) == s
  {
    EncodingPrefix(s);
    DataRoundTrip(s);
  }

  /** The data characters of base64enc(s) decode to s. */
  predicate DataDecodes(s: seq<byte>) {
    var r, d := Encoding(s), (8 * |s| + 5) / 6;
    d <= |r| && AllAlpha(r[..d]) && Decoded(r[..d]) == s
  }

  lemma {:induction false} DataRoundTrip(s: seq<byte>)
    ensures DataDecodes(s)
    decreases |s|
  {
    if |s| >= 3 {
      DataRoundTrip(s[3..]);
      QuantumRoundTrip(s);
    } else {
      ShortRoundTrip(s);
    }
  }

  /** One quantum in front of a byte string that already round-trips. */
  lemma QuantumRoundTrip(s: seq<byte>)
    requires |s| >= 3 && DataDecodes(s[3..])
    ensures DataDecodes(s)
  {
    var r, d := Encoding(s), (8 * |s| + 5) / 6;
    var t, d' := Encoding(s[3..]), (8 * |s[3..]| + 5) / 6;
    var c0, c1, c2, c3 := C0(s[0]), C1(s[0], s[1]), C2(s[1], s[2]), C3(s[2]);
    var q := [c0, c1, c2, c3];
    assert r == q + t;
    assert d == d' + 4;
    QuantumDecodes(s[0], s[1], s[2]);
    var p := r[..d];
    assert p == q + t[..d'];
    AppendAllAlpha(q, t[..d']);
    assert Decoded(p) == [Byte0(c0, c1), Byte1(c1, c2), Byte2(c2, c3)] + Decoded(t[..d']) by {
      assert p[4..] == t[..d'];
      assert p[0] == c0 && p[1] == c1 && p[2] == c2 && p[3] == c3;
    }
    assert s == [s[0], s[1], s[2]] + s[3..];
  }

  lemma AppendAllAlpha(p: string, q: string)
    requires AllAlpha(p) && AllAlpha(q)
    ensures AllAlpha(p + q)
  {
    forall i | 0 <= i < |p + q| ensures IsAlpha((p + q)[i]) {
      assert i < |p| ==> (p + q)[i] == p[i];
      assert |p| <= i ==> (p + q)[i] == q[i - |p|];
    }
  }

  lemma ShortRoundTrip(s: seq<byte>)
    requires |s| < 3
    ensures DataDecodes(s)
  {
    if |s| == 2 {
      assert s == [s[0], s[1]];
      PairRoundTrip(s[0], s[1]);
    } else if |s| == 1 {
      assert s == [s[0]];
      SingleRoundTrip(s[0]);
    }
  }

  lemma PairRoundTrip(b0: byte, b1: byte)
    ensures var r := Encoding([b0, b1]);
            3 <= |r| && AllAlpha(r[..3]) && Decoded(r[..3]) == [b0, b1]
  {
    var r := Encoding([b0, b1]);
    assert r == [C0(b0), C1(b0, b1), C2(b1, 0), '='];
    QuantumDecodes(b0, b1, 0);
    assert r[..3] == [C0(b0), C1(b0, b1), C2(b1, 0)];
  }

  lemma SingleRoundTrip(b0: byte)
    ensures var r := Encoding([b0]);
            2 <= |r| && AllAlpha(r[..2]) && Decoded(r[..2]) == [b0]
  {
    var r, c0, c1 := Encoding([b0]), C0(b0), C1(b0, 0);
    assert r == [c0, c1, '=', '='];
    ChIndex(b0 / 4);
    ChIndex(b0 % 4 * 16 + 0 / 16);
    Byte0Of(b0, 0, c0, c1);
    assert r[..2] == [c0, c1];
    assert AllAlpha([c0, c1]);
    assert Decoded([c0, c1]) == [Byte0(c0, c1)];
  }

  /** Decoding ignores everything from the first non-alphabet character on. */
  lemma DecodingStops(p: string, c: char, rest: string)
    requires AllAlpha(p) && !IsAlpha(c)
    ensures Decoding(p + [c] + rest) == Decoded(p)
  {
    var t := p + [c] + rest;
    assert t[|p|] == c;
    assert forall i :: 0 <= i < |p| ==> t[i] == p[i];
    assert t[..AlphaPrefixLen(t)] == p;
  }

  // ---------------------------------------------------------------------
  // Lemmas that let the character-at-a-time loops meet the quantum specification.

  lemma {:induction false} EncodingAppend(s: seq<byte>, tail: seq<byte>, q: nat)
    requires |s| == 3 * q
    ensures Encoding(s + tail) == Encoding(s) + Encoding(tail)
    decreases q
  {
    if q > 0 {
      assert (s + tail)[3..] == s[3..] + tail;
      EncodingAppend(s[3..], tail, q - 1);
    } else {
      assert s + tail == tail;
    }
  }

  lemma AppendAlpha(p: string, c: char)
    requires AllAlpha(p) && IsAlpha(c)
    ensures AllAlpha(p + [c])
  {
    forall i | 0 <= i < |p| + 1 ensures IsAlpha((p + [c])[i]) {
      if i < |p| {
        assert (p + [c])[i] == p[i];
      }
    }
  }

  lemma AllAlphaDrop(p: string, n: nat)
    requires AllAlpha(p) && n <= |p|
    ensures AllAlpha(p[n..])
  {
    forall i | 0 <= i < |p| - n ensures IsAlpha(p[n..][i]) {
      assert p[n..][i] == p[i + n];
    }
  }

  lemma AppendAssoc<T>(a: seq<T>, b: seq<T>, x: seq<T>)
    ensures a + (b + x) == (a + b) + x
  {
  }

  /** One more character of a run of alphabet characters of length 4q + r:
      the first character of a quantum adds no byte, the others add one. */
  lemma {:induction false} DecodedAppend(p: string, c: char, q: nat, r: nat)
    requires AllAlpha(p) && IsAlpha(c) && |p| == 4 * q + r && r < 4
    ensures AllAlpha(p + [c])
    ensures r == 0 ==> Decoded(p + [c]) == Decoded(p)
    ensures r == 1 ==> Decoded(p + [c]) == Decoded(p) + [Byte0(p[|p| - 1], c)]
    ensures r == 2 ==> Decoded(p + [c]) == Decoded(p) + [Byte1(p[|p| - 1], c)]
    ensures r == 3 ==> Decoded(p + [c]) == Decoded(p) + [Byte2(p[|p| - 1], c)]
    decreases q
  {
    AppendAlpha(p, c);
    var pc := p + [c];
    if q > 0 {
      var t := p[4..];
      assert pc[4..] == t + [c];
      AllAlphaDrop(p, 4);
      DecodedAppend(t, c, q - 1, r);
      var head := [Byte0(p[0], p[1]), Byte1(p[1], p[2]), Byte2(p[2], p[3])];
      assert pc[0] == p[0] && pc[1] == p[1] && pc[2] == p[2] && pc[3] == p[3];
      assert Decoded(pc) == head + Decoded(t + [c]);
      assert Decoded(p) == head + Decoded(t);
      if r > 0 {
        assert t[|t| - 1] == p[|p| - 1];
        var x := Decoded(t + [c])[|Decoded(t + [c])| - 1];
        AppendAssoc(head, Decoded(t), [x]);
      }
    } else if r == 3 {
      assert pc == [p[0], p[1], p[2], c] && pc[4..] == [];
    } else if r == 2 {
      assert pc == [p[0], p[1], c];
    } else if r == 1 {
      assert pc == [p[0], c];
    }
  }


  // ---------------------------------------------------------------------
  // The encoder's loop.  `(val << 8) + c` is `val * 256 + c`, and
  // `b64[(val >> valb) & 0x3F]` is `Ch(val / Pow2(valb))`.

  lemma Pow2Small()
    ensures Pow2(0) == 1 && Pow2(2) == 4 && Pow2(4) == 16 && Pow2(6) == 64
  {
  }

  // Sequence identities, proved apart so that no encoding is in sight.

  lemma SplitLast<T>(s: seq<T>)
    requires |s| >= 1
    ensures s == s[..|s| - 1] + [s[|s| - 1]]
  {
  }

  lemma SplitLastTwo<T>(s: seq<T>)
    requires |s| >= 2
    ensures s == s[..|s| - 2] + [s[|s| - 2], s[|s| - 1]]
  {
  }

  lemma TakeNext<T>(s: seq<T>, k: int)
    requires 0 <= k < |s|
    ensures s[..k + 1] == s[..k] + [s[k]]
  {
  }

  lemma TakeLastThree<T>(s: seq<T>, i: int)
    requires 2 <= i < |s|
    ensures s[..i + 1] == s[..i - 2] + [s[i - 2], s[i - 1], s[i]]
  {
  }

  lemma SplitDisplay4<T>(e: seq<T>, a: T, b: T, c: T, d: T)
    ensures e + [a, b, c, d] == e + [a] + [b] + [c, d]
  {
    assert [a, b, c, d] == [a] + [b] + [c, d];
  }

  lemma SplitDisplay22<T>(e: seq<T>, a: T, b: T, c: T, d: T)
    ensures e + [a, b, c, d] == e + [a, b] + [c] + [d]
  {
    assert [a, b, c, d] == [a, b] + [c] + [d];
  }


  /** The characters base64enc has pushed after reading 3q + r bytes: the
      encoding of the q whole quanta so far, then the complete sextets of the
      r bytes of a partial quantum. */
  function EncodedSoFar(input: seq<byte>, q: nat, r: nat): string
    requires r < 3 && 3 * q + r <= |input|
  {
    Encoding(input[..3 * q])
      + if r == 1 then [C0(input[3 * q])]
        else if r == 2 then [C0(input[3 * q]), C1(input[3 * q], input[3 * q + 1])]
        else []
  }

  /** The characters base64enc pushes for accumulator `val` when `valb` has
      reached `top` (2, 4 or 6) after a byte was shifted in. */
  function Sextets(top: int, val: nat): string {
    if top == 2 then [Ch(val / 4)]
    else if top == 4 then [Ch(val / 16)]
    else [Ch(val / 64), Ch(val / 1)]
  }

  /** Reading the first byte of a quantum pushes its first character. */
  lemma EncodeStep0(input: seq<byte>, q: nat, prev: nat, val: nat)
    requires 3 * q < |input| && val == prev * 256 + input[3 * q]
    ensures EncodedSoFar(input, q, 1) == EncodedSoFar(input, q, 0) + Sextets(2, val)
    ensures val % 4 == input[3 * q] % 4
  {
    var b0 := input[3 * q];
    ShiftIn0(prev, b0);
    assert Ch(val / 4) == C0(b0);
  }

  /** ... the second byte pushes its second character ... */
  lemma EncodeStep1(input: seq<byte>, q: nat, prev: nat, val: nat)
    requires 3 * q + 1 < |input| && val == prev * 256 + input[3 * q + 1]
    requires prev % 4 == input[3 * q] % 4
    ensures EncodedSoFar(input, q, 2) == EncodedSoFar(input, q, 1) + Sextets(4, val)
    ensures val % 16 == input[3 * q + 1] % 16
  {
    var b0, b1 := input[3 * q], input[3 * q + 1];
    ShiftIn1(prev, b0, b1);
    var e, c0, c1 := Encoding(input[..3 * q]), C0(b0), C1(b0, b1);
    assert Ch(val / 16) == c1;
    assert e + [c0, c1] == e + [c0] + [c1];
  }

  /** ... and the third byte completes the quantum with two characters. */
  lemma EncodeStep2(input: seq<byte>, q: nat, prev: nat, val: nat)
    requires 3 * q + 2 < |input| && val == prev * 256 + input[3 * q + 2]
    requires prev % 16 == input[3 * q + 1] % 16
    ensures EncodedSoFar(input, q + 1, 0) == EncodedSoFar(input, q, 2) + Sextets(6, val)
  {
    var i := 3 * q + 2;
    var b0, b1, b2 := input[i - 2], input[i - 1], input[i];
    ShiftIn2(prev, b1, b2);
    assert val / 1 % 64 == b2 % 64;
    assert Ch(val / 64) == C2(b1, b2) && Ch(val / 1) == C3(b2);
    var s := input[..i - 2];
    TakeLastThree(input, i);
    EncodingAppend(s, [b0, b1, b2], q);
    assert Encoding([b0, b1, b2]) == [C0(b0), C1(b0, b1), C2(b1, b2), C3(b2)] + Encoding([]);
    SplitDisplay22(Encoding(s), C0(b0), C1(b0, b1), C2(b1, b2), C3(b2));
    assert EncodedSoFar(input, q + 1, 0) == Encoding(s + [b0, b1, b2]);
  }

  /** One byte read in any phase: the pushed characters extend the output
      to the next (q, r). */
  lemma EncodeStep(input: seq<byte>, q: nat, r: nat, prev: nat, val: nat) returns (q': nat, r': nat)
    requires r < 3 && 3 * q + r < |input| && val == prev * 256 + input[3 * q + r]
    requires r == 1 ==> prev % 4 == input[3 * q] % 4
    requires r == 2 ==> prev % 16 == input[3 * q + 1] % 16
    ensures 3 * q' + r' == 3 * q + r + 1 && r' < 3 && r' == (if r == 2 then 0 else r + 1)
    ensures EncodedSoFar(input, q', r') == EncodedSoFar(input, q, r) + Sextets(2 * r + 2, val)
    ensures r' == 1 ==> val % 4 == input[3 * q'] % 4
    ensures r' == 2 ==> val % 16 == input[3 * q' + 1] % 16
  {
    if r == 0 {
      EncodeStep0(input, q, prev, val);
      q', r' := q, 1;
    } else if r == 1 {
      EncodeStep1(input, q, prev, val);
      q', r' := q, 2;
    } else {
      EncodeStep2(input, q, prev, val);
      q', r' := q + 1, 0;
    }
  }

  lemma EncodingOfOne(b0: byte)
    ensures Encoding([b0]) == [C0(b0), C1(b0, 0), '=', '=']
  {
  }

  lemma EncodingOfTwo(b0: byte, b1: byte)
    ensures Encoding([b0, b1]) == [C0(b0), C1(b0, b1), C2(b1, 0), '=']
  {
  }

  /** `b64[((val << 8) >> (valb + 8)) & 0x3F]` for valb == -4 and valb == -2. */
  lemma FlushCh(val: nat, w: byte)
    ensures val % 4 == w % 4 ==> Ch(val * 256 / 16) == C1(w, 0)
    ensures val % 16 == w % 16 ==> Ch(val * 256 / 64) == C2(w, 0)
  {
    Flush(val, w);
  }

  /** With no partial quantum left, base64enc has pushed the whole encoding. */
  lemma EncodeFlush0(input: seq<byte>, q: nat)
    requires |input| == 3 * q
    ensures Encoding(input) == EncodedSoFar(input, q, 0)
  {
    assert input[..3 * q] == input;
  }

  /** With one byte left over, the final sextet and two '=' complete it ... */
  lemma EncodeFlushOne(input: seq<byte>, q: nat, val: nat)
    requires |input| == 3 * q + 1 && val % 4 == input[3 * q] % 4
    ensures Encoding(input) == EncodedSoFar(input, q, 1) + [Ch(val * 256 / 16)] + ['=', '=']
  {
    var s, b0 := input[..3 * q], input[3 * q];
    SplitLast(input);
    EncodeFlush1(s, b0, q, val);
    SplitDisplay4(Encoding(s), C0(b0), Ch(val * 256 / 16), '=', '=');
  }

  /** ... and with two bytes left over, the final sextet and one '='. */
  lemma EncodeFlushTwo(input: seq<byte>, q: nat, val: nat)
    requires |input| == 3 * q + 2 && val % 16 == input[3 * q + 1] % 16
    ensures Encoding(input) == EncodedSoFar(input, q, 2) + [Ch(val * 256 / 64)] + ['=']
  {
    var s, b0, b1 := input[..3 * q], input[3 * q], input[3 * q + 1];
    SplitLastTwo(input);
    EncodeFlush2(s, b0, b1, q, val);
    SplitDisplay22(Encoding(s), C0(b0), C1(b0, b1), Ch(val * 256 / 64), '=');
  }

  lemma EncodeFlush1(s: seq<byte>, b0: byte, q: nat, val: nat)
    requires |s| == 3 * q && val % 4 == b0 % 4
    ensures Encoding(s + [b0]) == Encoding(s) + [C0(b0), Ch(val * 256 / 16), '=', '=']
  {
    EncodingAppend(s, [b0], q);
    EncodingOfOne(b0);
    FlushCh(val, b0);
  }

  lemma EncodeFlush2(s: seq<byte>, b0: byte, b1: byte, q: nat, val: nat)
    requires |s| == 3 * q && val % 16 == b1 % 16
    ensures Encoding(s + [b0, b1]) == Encoding(s) + [C0(b0), C1(b0, b1), Ch(val * 256 / 64), '=']
  {
    EncodingAppend(s, [b0, b1], q);
    EncodingOfTwo(b0, b1);
    FlushCh(val, b1);
  }

  /** base64enc's inner `while (valb >= 0)` loop: emit the complete sextets of
      `val` from bit `valb` down.  After a byte has been shifted in, valb is
      2, 4 or 6, and one, one or two characters come out. */
  method EmitSextets(out: string, val: nat, valb: int) returns (out': string, valb': int)
    requires valb == 2 || valb == 4 || valb == 6
    ensures valb' == (if valb == 6 then -6 else valb - 6)
    ensures out' == out + Sextets(valb, val)
  {
    Pow2Small();
    out', valb' := out, valb;
    while valb' >= 0
      invariant valb == 2 ==> (valb' == 2 && out' == out) || (valb' == -4 && out' == out + [Ch(val / 4)])
      invariant valb == 4 ==> (valb' == 4 && out' == out) || (valb' == -2 && out' == out + [Ch(val / 16)])
      invariant valb == 6 ==> ((valb' == 6 && out' == out) || (valb' == 0 && out' == out + [Ch(val / 64)])
                               || (valb' == -6 && out' == out + [Ch(val / 64), Ch(val / 1)]))
      decreases valb'
    {
      out' := out' + [Ch(val / Pow2(valb'))];
      valb' := valb' - 6;
    }
  }

  /** n padding characters. */
  function Padding(n: nat): (p: string)
    ensures |p| == n && forall i :: 0 <= i < n ==> p[i] == '='
  {
    seq(n, _ => '=')
  }

  lemma Padding012()
    ensures Padding(0) == [] && Padding(1) == ['='] && Padding(2) == ['=', '=']
  {
  }

  /** base64enc's `while (out.size() % 4) out.push_back('=')`. */
  method PadTo4(out: string) returns (out': string)
    ensures out' == out + Padding((4 - |out| % 4) % 4)
    ensures |out'| % 4 == 0
  {
    out' := out;
    while |out'| % 4 != 0
      invariant |out| <= |out'| && out' == out + Padding(|out'| - |out|)
      invariant |out'| - |out| + (4 - |out'| % 4) % 4 == (4 - |out| % 4) % 4
      decreases (4 - |out'| % 4) % 4
    {
      PadStep(|out'|);
      out' := out' + ['='];
    }
  }

  /** base64enc: an accumulator `val` whose low `valb + 6` bits are pending.
      The ghost pair (q, r) counts the whole quanta read and the bytes of the
      partial one. */
  method Encode(input: seq<byte>) returns (out: string)
    ensures out == Encoding(input)
  {
    Pow2Small();
    out := [];
    var val: nat := 0;
    var valb := -6;
    var i := 0;
    ghost var q: nat, r: nat := 0, 0;
    while i < |input|
      invariant i == 3 * q + r && r < 3 && i <= |input| && out == EncodedSoFar(input, q, r)
      invariant valb == 2 * r - 6
      invariant r == 1 ==> val % 4 == input[3 * q] % 4
      invariant r == 2 ==> val % 16 == input[3 * q + 1] % 16
    {
      var c := input[i];
      ghost var prev := val;
      val := val * 256 + c;
      valb := valb + 8;
      out, valb := EmitSextets(out, val, valb);
      q, r := EncodeStep(input, q, r, prev, val);
      i := i + 1;
    }
    ghost var target := Encoding(input);
    EncodingLength(input);
    EncodedLengths(|input|);
    ghost var total := |target|;
    assert total % 4 == 0;
    Padding012();
    ghost var pad := 0;
    if r == 0 {
      EncodeFlush0(input, q);
    } else if r == 1 {
      EncodeFlushOne(input, q, val);
      pad := 2;
    } else {
      EncodeFlushTwo(input, q, val);
      pad := 1;
    }
    if valb > -6 {
      out := out + [Ch(val * 256 / Pow2(valb + 8))];
    }
    assert target == out + Padding(pad);
    PadCount(|out|, pad, total);
    out := PadTo4(out);
  }

  // ---------------------------------------------------------------------
  // The decoder's loop.  `(val << 6) + T[c]` is `val * 64 + T[c]`, and
  // `char((val >> valb) & 0xFF)` is `val / Pow2(valb) % 256`.

  /** The byte base64dec pushes for accumulator `val` once `valb` has reached
      `top`: none after the first character of a quantum (top == -2), then
      `val >> 4`, `val >> 2` and `val`, each masked to eight bits. */
  function Pushed(top: int, val: nat): seq<byte> {
    if top == 4 then [val / 16 % 256]
    else if top == 2 then [val / 4 % 256]
    else if top == 0 then [val / 1 % 256]
    else []
  }

  /** base64dec's `if (valb >= 0)`: push the completed byte, if any. */
  method EmitByte(out: seq<byte>, val: nat, valb: int) returns (out': seq<byte>, valb': int)
    requires valb == -2 || valb == 0 || valb == 2 || valb == 4
    ensures valb' == (if valb >= 0 then valb - 8 else valb)
    ensures out' == out + Pushed(valb, val)
  {
    Pow2Small();
    out', valb' := out, valb;
    if valb' >= 0 {
      out' := out' + [val / Pow2(valb') % 256];
      valb' := valb' - 8;
    }
  }

  /** The accumulator after the second character of a quantum holds the
      first byte in bits 4..11 ... */
  lemma ShiftedByte0(last: char, c: char, prev: nat, val: nat)
    requires IsAlpha(last) && IsAlpha(c)
    requires val == prev * 64 + IndexOf(c) && prev % 64 == IndexOf(last)
    ensures Byte0(last, c) == val / 16 % 256 && val % 16 == IndexOf(c) % 16
  {
    var w, x := IndexOf(last), IndexOf(c);
    ShiftOut1(prev, x, w);
    assert Byte0(last, c) == (w * 4 + x / 16) % 256;
  }

  /** ... after the third the second byte in bits 2..9 ... */
  lemma ShiftedByte1(last: char, c: char, prev: nat, val: nat)
    requires IsAlpha(last) && IsAlpha(c)
    requires val == prev * 64 + IndexOf(c) && prev % 16 == IndexOf(last) % 16
    ensures Byte1(last, c) == val / 4 % 256 && val % 4 == IndexOf(c) % 4
  {
    var w, x := IndexOf(last), IndexOf(c);
    ShiftOut2(prev, x, w);
    assert Byte1(last, c) == (w * 16 + x / 4) % 256;
  }

  /** ... and after the fourth the third byte in bits 0..7. */
  lemma ShiftedByte2(last: char, c: char, prev: nat, val: nat)
    requires IsAlpha(last) && IsAlpha(c)
    requires val == prev * 64 + IndexOf(c) && prev % 4 == IndexOf(last) % 4
    ensures Byte2(last, c) == val / 1 % 256
  {
    var w, x := IndexOf(last), IndexOf(c);
    ShiftOut3(prev, x, w);
    assert Byte2(last, c) == (w * 64 + x) % 256;
  }

  /** One alphabet character read in any phase: the pushed byte extends the
      output to the decoding of the next (q, r). */
  lemma DecodeStep(p: string, c: char, q: nat, r: nat, prev: nat, val: nat) returns (q': nat, r': nat)
    requires AllAlpha(p) && IsAlpha(c) && |p| == 4 * q + r && r < 4
    requires val == prev * 64 + IndexOf(c)
    requires r == 1 ==> prev % 64 == IndexOf(p[|p| - 1])
    requires r == 2 ==> prev % 16 == IndexOf(p[|p| - 1]) % 16
    requires r == 3 ==> prev % 4 == IndexOf(p[|p| - 1]) % 4
    ensures 4 * q' + r' == |p| + 1 && r' < 4 && r' == (if r == 3 then 0 else r + 1)
    ensures AllAlpha(p + [c])
    ensures Decoded(p + [c]) == Decoded(p) + Pushed(if r == 0 then -2 else 6 - 2 * r, val)
    ensures r' == 1 ==> val % 64 == IndexOf(c)
    ensures r' == 2 ==> val % 16 == IndexOf(c) % 16
    ensures r' == 3 ==> val % 4 == IndexOf(c) % 4
  {
    DecodedAppend(p, c, q, r);
    if r == 0 {
      ShiftOut0(prev, IndexOf(c));
      q', r' := q, 1;
    } else if r == 1 {
      ShiftedByte0(p[|p| - 1], c, prev, val);
      q', r' := q, 2;
    } else if r == 2 {
      ShiftedByte1(p[|p| - 1], c, prev, val);
      q', r' := q, 3;
    } else {
      ShiftedByte2(p[|p| - 1], c, prev, val);
      q', r' := q + 1, 0;
    }
  }

  /** T[c] once the first j letters have been entered. */
  function TableEntry(j: int, c: int): int
    requires 0 <= c < 256
  {
    var x := IndexOf(c as char);
    if 0 <= x < j then x else -1
  }

  /** Entering letter j changes exactly the entry of that letter. */
  lemma TableStep(j: int)
    requires 0 <= j < 64
    ensures forall c :: 0 <= c < 256 ==>
              TableEntry(j + 1, c) == if c == Letter(j) as int then j else TableEntry(j, c)
  {
    IndexOfLetter(j);
    forall c | 0 <= c < 256
      ensures TableEntry(j + 1, c) == if c == Letter(j) as int then j else TableEntry(j, c)
    {
      if IndexOf(c as char) == j {
        LetterOfIndex(c as char);
      }
    }
  }

  /** The finished table maps each byte to its position in the alphabet. */
  lemma TableComplete()
    ensures forall c :: 0 <= c < 256 ==> TableEntry(64, c) == IndexOf(c as char)
  {
  }

  /** base64dec's `T`: -1 everywhere, then `T[b64[i]] = i` for each letter. */
  method DecodeTable() returns (table: array<int>)
    ensures fresh(table) && table.Length == 256
    ensures forall c :: 0 <= c < 256 ==> table[c] == IndexOf(c as char)
  {
    table := new int[256](_ => -1);
    var j := 0;
    while j < 64
      invariant 0 <= j <= 64
      invariant forall c :: 0 <= c < 256 ==> table[c] == TableEntry(j, c)
    {
      IndexOfLetter(j);
      TableStep(j);
      table[Letter(j) as int] := j;
      j := j + 1;
    }
    TableComplete();
  }

  /** base64dec: a 256-entry table, then an accumulator whose low `valb + 8`
      bits are pending. */
  method Decode(input: string) returns (out: seq<byte>)
    ensures out == Decoding(input)
  {
    Pow2Small();
    var table := DecodeTable();
    out := [];
    var val: nat := 0;
    var valb := -8;
    var k := 0;
    ghost var q: nat, r: nat := 0, 0;
    while k < |input|
      invariant k == 4 * q + r && r < 4 && k <= |input|
      invariant forall c :: 0 <= c < 256 ==> table[c] == IndexOf(c as char)
      invariant AllAlpha(input[..k]) && out == Decoded(input[..k])
      invariant valb == (if r == 0 then -8 else -2 * r)
      invariant r == 1 ==> val % 64 == IndexOf(input[k - 1])
      invariant r == 2 ==> val % 16 == IndexOf(input[k - 1]) % 16
      invariant r == 3 ==> val % 4 == IndexOf(input[k - 1]) % 4
    {
      var c := input[k];
      var t := -1;
      if c as int < 256 {
        t := table[c as int];
        assert (c as int) as char == c;
      } else {
        NotAlpha(c);
      }
      if t == -1 {
        break;
      }
      assert t == IndexOf(c) && 0 <= t;
      ghost var prev := val;
      val := val * 64 + t;
      valb := valb + 6;
      out, valb := EmitByte(out, val, valb);
      q, r := DecodeStep(input[..k], c, q, r, prev, val);
      TakeNext(input, k);
      k := k + 1;
    }
    AlphaPrefixLenIs(input, k);
  }
}
