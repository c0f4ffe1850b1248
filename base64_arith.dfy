// Facts about the base64 accumulator arithmetic, kept apart from the codec so
// that each is proved over plain integers.  Throughout, `x / 2^k` is `x >> k`
// and `x % 2^k` is `x & (2^k - 1)` for x >= 0.  Every proof names the quotient
// and remainder it needs and hands them to one of the DivModN lemmas.
module Base64Arith {

  lemma DivMod4(x: int, q: int, r: int)
    requires x == q * 4 + r && 0 <= r < 4
    ensures x / 4 == q && x % 4 == r
  {
  }

  lemma DivMod16(x: int, q: int, r: int)
    requires x == q * 16 + r && 0 <= r < 16
    ensures x / 16 == q && x % 16 == r
  {
  }

  lemma DivMod64(x: int, q: int, r: int)
    requires x == q * 64 + r && 0 <= r < 64
    ensures x / 64 == q && x % 64 == r
  {
  }

  lemma DivMod256(x: int, q: int, r: int)
    requires x == q * 256 + r && 0 <= r < 256
    ensures x / 256 == q && x % 256 == r
  {
  }

  /** Decoding the four sextets of a quantum gives back its first byte. */
  lemma QuantumByte0(b0: int, b1: int)
    requires 0 <= b0 < 256 && 0 <= b1 < 256
    ensures ((b0 / 4 % 64) * 4 + ((b0 % 4 * 16 + b1 / 16) % 64) / 16) % 256 == b0
  {
    var h0, l0, h1 := b0 / 4, b0 % 4, b1 / 16;
    DivMod64(h0, 0, h0);
    var s1 := l0 * 16 + h1;
    DivMod64(s1, 0, s1);
    DivMod16(s1, l0, h1);
    DivMod256(b0, 0, b0);
  }

  /** ... its second byte ... */
  lemma QuantumByte1(b0: int, b1: int, b2: int)
    requires 0 <= b0 < 256 && 0 <= b1 < 256 && 0 <= b2 < 256
    ensures (((b0 % 4 * 16 + b1 / 16) % 64) * 16 + ((b1 % 16 * 4 + b2 / 64) % 64) / 4) % 256 == b1
  {
    var l0, h1, l1, h2 := b0 % 4, b1 / 16, b1 % 16, b2 / 64;
    var s1, s2 := l0 * 16 + h1, l1 * 4 + h2;
    DivMod64(s1, 0, s1);
    DivMod64(s2, 0, s2);
    DivMod4(s2, l1, h2);
    DivMod256(s1 * 16 + l1, l0, b1);
  }

  /** ... and its third byte. */
  lemma QuantumByte2(b1: int, b2: int)
    requires 0 <= b1 < 256 && 0 <= b2 < 256
    ensures (((b1 % 16 * 4 + b2 / 64) % 64) * 64 + b2 % 64) % 256 == b2
  {
    var l1, h2, l2 := b1 % 16, b2 / 64, b2 % 64;
    var s2 := l1 * 4 + h2;
    DivMod64(s2, 0, s2);
    DivMod256(s2 * 64 + l2, l1, b2);
  }

  /** Shifting the first byte of a quantum into the encoder's accumulator. */
  lemma ShiftIn0(prev: int, c: int)
    requires 0 <= prev && 0 <= c < 256
    ensures ((prev * 256 + c) / 4) % 64 == (c / 4) % 64
    ensures (prev * 256 + c) % 4 == c % 4
  {
    var h, l := c / 4, c % 4;
    DivMod4(prev * 256 + c, prev * 64 + h, l);
    DivMod64(prev * 64 + h, prev, h);
    DivMod64(h, 0, h);
  }

  /** Shifting the second byte in, with the first byte's low two bits pending. */
  lemma ShiftIn1(prev: int, w: int, c: int)
    requires 0 <= prev && 0 <= w < 256 && 0 <= c < 256 && prev % 4 == w % 4
    ensures ((prev * 256 + c) / 16) % 64 == (w % 4 * 16 + c / 16) % 64
    ensures (prev * 256 + c) % 16 == c % 16
  {
    var q, r, h, l := prev / 4, prev % 4, c / 16, c % 16;
    DivMod16(prev * 256 + c, q * 64 + r * 16 + h, l);
    DivMod64(q * 64 + r * 16 + h, q, r * 16 + h);
    DivMod64(r * 16 + h, 0, r * 16 + h);
  }

  /** Shifting the third byte in, with the second byte's low four bits pending. */
  lemma ShiftIn2(prev: int, w: int, c: int)
    requires 0 <= prev && 0 <= w < 256 && 0 <= c < 256 && prev % 16 == w % 16
    ensures ((prev * 256 + c) / 64) % 64 == (w % 16 * 4 + c / 64) % 64
    ensures (prev * 256 + c) % 64 == c % 64
  {
    var q, r, h, l := prev / 16, prev % 16, c / 64, c % 64;
    DivMod64(prev * 256 + c, q * 64 + r * 4 + h, l);
    DivMod64(q * 64 + r * 4 + h, q, r * 4 + h);
    DivMod64(r * 4 + h, 0, r * 4 + h);
  }

  /** The final partial sextet: `(val << 8) >> 4` or `(val << 8) >> 6`. */
  lemma Flush(val: int, w: int)
    requires 0 <= val && 0 <= w < 256
    ensures val % 4 == w % 4 ==> (val * 256 / 16) % 64 == (w % 4 * 16 + 0 / 16) % 64
    ensures val % 16 == w % 16 ==> (val * 256 / 64) % 64 == (w % 16 * 4 + 0 / 64) % 64
  {
    DivMod16(val * 256, val * 16, 0);
    DivMod64(val * 256, val * 4, 0);
    var q4, r4 := val / 4, val % 4;
    DivMod64(val * 16, q4, r4 * 16);
    DivMod64(r4 * 16, 0, r4 * 16);
    var q16, r16 := val / 16, val % 16;
    DivMod64(val * 4, q16, r16 * 4);
    DivMod64(r16 * 4, 0, r16 * 4);
  }

  /** Shifting a sextet `s` into the decoder's accumulator after the first
      character of a quantum ... */
  lemma ShiftOut0(prev: int, s: int)
    requires 0 <= prev && 0 <= s < 64
    ensures (prev * 64 + s) % 64 == s
  {
    DivMod64(prev * 64 + s, prev, s);
  }

  /** ... after the second, with the previous sextet `w` pending ... */
  lemma ShiftOut1(prev: int, s: int, w: int)
    requires 0 <= prev && 0 <= s < 64 && 0 <= w < 64 && prev % 64 == w
    ensures (prev * 64 + s) / 16 % 256 == (w * 4 + s / 16) % 256
    ensures (prev * 64 + s) % 16 == s % 16
  {
    var x := prev * 64 + s;
    var q, h, l := prev / 64, s / 16, s % 16;
    DivMod16(x, q * 256 + w * 4 + h, l);
    DivMod256(q * 256 + w * 4 + h, q, w * 4 + h);
    DivMod256(w * 4 + h, 0, w * 4 + h);
  }

  /** ... after the third, with the low four bits of `w` pending ... */
  lemma ShiftOut2(prev: int, s: int, w: int)
    requires 0 <= prev && 0 <= s < 64 && 0 <= w < 64 && prev % 16 == w % 16
    ensures (prev * 64 + s) / 4 % 256 == (w * 16 + s / 4) % 256
    ensures (prev * 64 + s) % 4 == s % 4
  {
    var x := prev * 64 + s;
    var q, r, qw, h, l := prev / 16, prev % 16, w / 16, s / 4, s % 4;
    DivMod4(x, q * 256 + r * 16 + h, l);
    DivMod256(q * 256 + r * 16 + h, q, r * 16 + h);
    DivMod256(w * 16 + h, qw, r * 16 + h);
  }

  /** ... and after the fourth, with the low two bits of `w` pending. */
  lemma ShiftOut3(prev: int, s: int, w: int)
    requires 0 <= prev && 0 <= s < 64 && 0 <= w < 64 && prev % 4 == w % 4
    ensures (prev * 64 + s) / 1 % 256 == (w * 64 + s) % 256
  {
    var x := prev * 64 + s;
    var q, r, qw := prev / 4, prev % 4, w / 4;
    assert x / 1 == x;
    DivMod256(x, q, r * 64 + s);
    DivMod256(w * 64 + s, qw, r * 64 + s);
  }

  /** An encoding of n bytes has 4 * ceil(n / 3) characters, of which
      (8n + 5) / 6 carry data and the rest, at most two, are padding. */
  lemma EncodedLengths(n: int)
    requires 0 <= n
    ensures var len, d := 4 * ((n + 2) / 3), (8 * n + 5) / 6;
            d <= len <= d + 2 && len % 4 == 0
  {
    var q, r := n / 3, n % 3;
    assert n == 3 * q + r;
    var len, d := 4 * ((n + 2) / 3), (8 * n + 5) / 6;
    if r == 0 {
      assert len == 4 * q;
      assert d == 4 * q;
    } else if r == 1 {
      assert len == 4 * q + 4;
      assert d == 4 * q + 2;
    } else {
      assert len == 4 * q + 4;
      assert d == 4 * q + 3;
    }
  }

  /** The number of '=' that bring a length to a multiple of four ... */
  lemma PadCount(len: int, pad: int, total: int)
    requires 0 <= len && 0 <= pad < 4 && len + pad == total && total % 4 == 0
    ensures (4 - len % 4) % 4 == pad
  {
    var q := total / 4;
    DivMod4(total, q, 0);
    if pad > 0 {
      DivMod4(len, q - 1, 4 - pad);
    } else {
      DivMod4(len, q, 0);
    }
  }

  /** ... drops by one with each '=' pushed. */
  lemma PadStep(len: int)
    requires 0 <= len && len % 4 != 0
    ensures (4 - (len + 1) % 4) % 4 == (4 - len % 4) % 4 - 1
  {
    var q, r := len / 4, len % 4;
    if r == 3 {
      DivMod4(len + 1, q + 1, 0);
    } else {
      DivMod4(len + 1, q, r + 1);
    }
  }

}
