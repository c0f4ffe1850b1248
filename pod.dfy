// Plain-old-data streams: writePOD appends the bytes of one field, readPOD
// reads them back into a target.  The model keeps one tagged word per field
// instead of its bytes; how a word is laid out in bytes is host code (see
// StateCodec for where the two meet).  A read that finds no word, or a word of
// another kind, leaves its target untouched and sets the stream's sticky fail
// bit, so every later read leaves its target untouched too.
//
// A record is read field by field in the order it was written.  The pure
// readers describe that uniformly: the record's current fields, as words, are
// the targets, and `TakeWords` overwrites them one after another.
module Pod {
  import opened State

  datatype Word = Float(f: real) | Int(i: int) | Bool(b: bool) {
    /** Both words are fields of the same type. */
    predicate SameKind(other: Word) {
      (Float? && other.Float?) || (Int? && other.Int?) || (Bool? && other.Bool?)
    }
  }

  /** Field by field, `a` and `b` are of the same types. */
  predicate SameKinds(a: seq<Word>, b: seq<Word>) {
    |a| == |b| && forall i :: 0 <= i < |a| ==> a[i].SameKind(b[i])
  }

  lemma SameKindsAppend(a1: seq<Word>, a2: seq<Word>, b1: seq<Word>, b2: seq<Word>)
    requires SameKinds(a1, b1) && SameKinds(a2, b2)
    ensures SameKinds(a1 + a2, b1 + b2)
  {
    forall i | 0 <= i < |a1| + |a2| ensures (a1 + a2)[i].SameKind((b1 + b2)[i]) {
      if i >= |a1| {
        assert a2[i - |a1|].SameKind(b2[i - |a1|]);
      }
    }
  }

  /** The state of an input stream: its words, the read position and the
      fail bit. */
  datatype Cursor = Cursor(data: seq<Word>, pos: nat, failed: bool) {
    predicate Ready() { !failed && pos < |data| }
  }

  /** `w` sits in `data` starting at `pos`. */
  predicate WordsAt(data: seq<Word>, pos: nat, w: seq<Word>) {
    pos + |w| <= |data| && forall i :: 0 <= i < |w| ==> data[pos + i] == w[i]
  }

  lemma WordsAtSplit(data: seq<Word>, pos: nat, w1: seq<Word>, w2: seq<Word>)
    requires WordsAt(data, pos, w1 + w2)
    ensures WordsAt(data, pos, w1) && WordsAt(data, pos + |w1|, w2)
  {
    forall i | 0 <= i < |w1| ensures data[pos + i] == w1[i] {
      assert data[pos + i] == (w1 + w2)[i];
    }
    forall i | 0 <= i < |w2| ensures data[pos + |w1| + i] == w2[i] {
      assert data[pos + (|w1| + i)] == (w1 + w2)[|w1| + i];
    }
  }

  lemma WordsAtWhole(w: seq<Word>, rest: seq<Word>)
    ensures WordsAt(w + rest, 0, w)
  {
    forall i | 0 <= i < |w| ensures (w + rest)[0 + i] == w[i] {
    }
  }

  lemma WordsAtAfter(pre: seq<Word>, w: seq<Word>)
    ensures WordsAt(pre + w, |pre|, w)
  {
    forall i | 0 <= i < |w| ensures (pre + w)[|pre| + i] == w[i] {
    }
  }

  // ---------------------------------------------------------------------
  // One field at a time.

  /** readPOD into a target holding `prior`: the next word when the stream is
      good and the word is of the target's type, otherwise the target is kept
      and the stream fails. */
  function TakeWord(c: Cursor, prior: Word): (r: (Word, Cursor))
    ensures r.0.SameKind(prior) && r.1.data == c.data
  {
    var ok := c.Ready() && c.data[c.pos].SameKind(prior);
    (if ok then c.data[c.pos] else prior, Cursor(c.data, if ok then c.pos + 1 else c.pos, !ok))
  }

  function TakeFloat(c: Cursor, prior: real): (real, Cursor) {
    var (w, c1) := TakeWord(c, Float(prior));
    (w.f, c1)
  }

  function TakeInt(c: Cursor, prior: int): (int, Cursor) {
    var (w, c1) := TakeWord(c, Int(prior));
    (w.i, c1)
  }

  function TakeBool(c: Cursor, prior: bool): (bool, Cursor) {
    var (w, c1) := TakeWord(c, Bool(prior));
    (w.b, c1)
  }

  /** Successive readPOD calls into targets holding `prior`, in order. */
  function TakeWords(c: Cursor, prior: seq<Word>): (r: (seq<Word>, Cursor))
    ensures |r.0| == |prior|
    decreases |prior|
  {
    if |prior| == 0 then ([], c)
    else
      var (w, c1) := TakeWord(c, prior[0]);
      var (ws, c2) := TakeWords(c1, prior[1..]);
      ([w] + ws, c2)
  }

  /** Every target keeps its type. */
  lemma {:induction false} TakeWordsKinds(c: Cursor, prior: seq<Word>)
    ensures SameKinds(TakeWords(c, prior).0, prior)
    decreases |prior|
  {
    if |prior| > 0 {
      var (w, c1) := TakeWord(c, prior[0]);
      TakeWordsKinds(c1, prior[1..]);
    }
  }

  /** Reading where words of the targets' types were written gives those words
      back and moves past them, whatever the targets held before. */
  lemma {:induction false} TakeWordsRoundTrip(c: Cursor, w: seq<Word>, prior: seq<Word>)
    requires !c.failed && WordsAt(c.data, c.pos, w) && SameKinds(w, prior)
    ensures TakeWords(c, prior) == (w, c.(pos := c.pos + |w|))
    decreases |w|
  {
    if |w| > 0 {
      assert c.data[c.pos + 0] == w[0];
      var c1 := c.(pos := c.pos + 1);
      assert TakeWord(c, prior[0]) == (w[0], c1);
      assert WordsAt(c.data, c1.pos, w[1..]) by {
        forall i | 0 <= i < |w[1..]| ensures c.data[c1.pos + i] == w[1..][i] {
          assert c.data[c.pos + (i + 1)] == w[i + 1];
        }
      }
      TakeWordsRoundTrip(c1, w[1..], prior[1..]);
      assert [w[0]] + w[1..] == w;
    }
  }

  /** Reading from a failed or exhausted stream keeps every target; the fail
      bit is set as soon as one read is attempted. */
  lemma {:induction false} TakeWordsAtEnd(c: Cursor, prior: seq<Word>)
    requires c.failed || c.pos >= |c.data|
    ensures TakeWords(c, prior) == (prior, if |prior| == 0 then c else c.(failed := true))
    decreases |prior|
  {
    if |prior| > 0 {
      var c1 := c.(failed := true);
      assert TakeWord(c, prior[0]) == (prior[0], c1);
      TakeWordsAtEnd(c1, prior[1..]);
      assert [prior[0]] + prior[1..] == prior;
    }
  }

  /** Reading two records in a row is reading their fields in a row. */
  lemma {:induction false} TakeWordsAppend(c: Cursor, p1: seq<Word>, p2: seq<Word>)
    ensures var (r1, c1) := TakeWords(c, p1);
            var (r2, c2) := TakeWords(c1, p2);
            TakeWords(c, p1 + p2) == (r1 + r2, c2)
    decreases |p1|
  {
    if |p1| > 0 {
      var (w, c1) := TakeWord(c, p1[0]);
      assert (p1 + p2)[0] == p1[0];
      assert (p1 + p2)[1..] == p1[1..] + p2;
      TakeWordsAppend(c1, p1[1..], p2);
      var (r1, d1) := TakeWords(c1, p1[1..]);
      var (r2, d2) := TakeWords(d1, p2);
      assert [w] + (r1 + r2) == ([w] + r1) + r2;
    } else {
      assert p1 + p2 == p2;
      assert TakeWords(c, p1) == ([], c);
      assert [] + TakeWords(c, p2).0 == TakeWords(c, p2).0;
    }
  }

  /** One target read on its own. */
  lemma TakeWordsOne(c: Cursor, prior: Word, rest: seq<Word>)
    ensures var (w, c1) := TakeWord(c, prior);
            var (ws, c2) := TakeWords(c1, rest);
            TakeWords(c, [prior] + rest) == ([w] + ws, c2)
  {
    assert ([prior] + rest)[0] == prior;
    assert ([prior] + rest)[1..] == rest;
  }

  // ---------------------------------------------------------------------
  // Vectors and rotators.

  /** writeVec: X, Y, Z. */
  function VecWords(v: Vec): (w: seq<Word>)
    ensures |w| == 3
  {
    [Float(v.x), Float(v.y), Float(v.z)]
  }

  /** writeRot: Pitch, Yaw, Roll. */
  function RotWords(r: Rot): (w: seq<Word>)
    ensures |w| == 3
  {
    [Int(r.pitch), Int(r.yaw), Int(r.roll)]
  }

  /** Three float words start at `k`. */
  predicate VecKindsAt(ws: seq<Word>, k: nat) {
    k + 3 <= |ws| && ws[k].Float? && ws[k + 1].Float? && ws[k + 2].Float?
  }

  /** Three integer words start at `k`. */
  predicate RotKindsAt(ws: seq<Word>, k: nat) {
    k + 3 <= |ws| && ws[k].Int? && ws[k + 1].Int? && ws[k + 2].Int?
  }

  /** The vector held by the three words at `k`. */
  function VecAt(ws: seq<Word>, k: nat): Vec
    requires VecKindsAt(ws, k)
  {
    Vec(ws[k].f, ws[k + 1].f, ws[k + 2].f)
  }

  /** The rotator held by the three words at `k`. */
  function RotAt(ws: seq<Word>, k: nat): Rot
    requires RotKindsAt(ws, k)
  {
    Rot(ws[k].i, ws[k + 1].i, ws[k + 2].i)
  }

  /** The words of a vector hold that vector, and three words of a vector's
      types are the words of the vector they hold. */
  lemma VecWordsAt(v: Vec, w: seq<Word>, prior: Vec)
    ensures VecKindsAt(VecWords(v), 0) && VecAt(VecWords(v), 0) == v
    ensures SameKinds(w, VecWords(prior)) ==> VecKindsAt(w, 0) && VecWords(VecAt(w, 0)) == w
  {
    if SameKinds(w, VecWords(prior)) {
      assert w[0].SameKind(Float(prior.x)) && w[1].SameKind(Float(prior.y)) && w[2].SameKind(Float(prior.z));
    }
  }

  lemma RotWordsAt(r: Rot, w: seq<Word>, prior: Rot)
    ensures RotKindsAt(RotWords(r), 0) && RotAt(RotWords(r), 0) == r
    ensures SameKinds(w, RotWords(prior)) ==> RotKindsAt(w, 0) && RotWords(RotAt(w, 0)) == w
  {
    if SameKinds(w, RotWords(prior)) {
      assert w[0].SameKind(Int(prior.pitch)) && w[1].SameKind(Int(prior.yaw)) && w[2].SameKind(Int(prior.roll));
    }
  }

  /** readVec: X, Y, Z, each into the corresponding field of `prior`. */
  function TakeVec(c: Cursor, prior: Vec): (Vec, Cursor) {
    var (ws, c1) := TakeWords(c, VecWords(prior));
    VecReadKinds(c, prior);
    (VecAt(ws, 0), c1)
  }

  /** readRot: Pitch, Yaw, Roll. */
  function TakeRot(c: Cursor, prior: Rot): (Rot, Cursor) {
    var (ws, c1) := TakeWords(c, RotWords(prior));
    RotReadKinds(c, prior);
    (RotAt(ws, 0), c1)
  }

  /** The three words read into a vector are floats, into a rotator
      integers. */
  lemma VecReadKinds(c: Cursor, prior: Vec)
    ensures VecKindsAt(TakeWords(c, VecWords(prior)).0, 0)
  {
    TakeWordsKinds(c, VecWords(prior));
    VecWordsAt(prior, TakeWords(c, VecWords(prior)).0, prior);
  }

  lemma RotReadKinds(c: Cursor, prior: Rot)
    ensures RotKindsAt(TakeWords(c, RotWords(prior)).0, 0)
  {
    TakeWordsKinds(c, RotWords(prior));
    RotWordsAt(prior, TakeWords(c, RotWords(prior)).0, prior);
  }

  /** A vector read followed by more reads, as one run of reads. */
  lemma VecThen(c: Cursor, prior: Vec, rest: seq<Word>, v: Vec, c1: Cursor, ws: seq<Word>, c2: Cursor)
    requires TakeVec(c, prior) == (v, c1) && TakeWords(c1, rest) == (ws, c2)
    ensures TakeWords(c, VecWords(prior) + rest) == (VecWords(v) + ws, c2)
  {
    TakeWordsAppend(c, VecWords(prior), rest);
    TakeWordsKinds(c, VecWords(prior));
    VecWordsAt(prior, TakeWords(c, VecWords(prior)).0, prior);
  }

  lemma RotThen(c: Cursor, prior: Rot, rest: seq<Word>, r: Rot, c1: Cursor, ws: seq<Word>, c2: Cursor)
    requires TakeRot(c, prior) == (r, c1) && TakeWords(c1, rest) == (ws, c2)
    ensures TakeWords(c, RotWords(prior) + rest) == (RotWords(r) + ws, c2)
  {
    TakeWordsAppend(c, RotWords(prior), rest);
    TakeWordsKinds(c, RotWords(prior));
    RotWordsAt(prior, TakeWords(c, RotWords(prior)).0, prior);
  }

  /** Reading where a vector was written gives the vector back and moves past
      its three words, whatever the target held before. */
  lemma VecRoundTrip(c: Cursor, v: Vec, prior: Vec)
    requires !c.failed && WordsAt(c.data, c.pos, VecWords(v))
    ensures TakeVec(c, prior) == (v, c.(pos := c.pos + 3))
  {
    TakeWordsRoundTrip(c, VecWords(v), VecWords(prior));
    VecWordsAt(v, VecWords(v), prior);
  }

  lemma RotRoundTrip(c: Cursor, r: Rot, prior: Rot)
    requires !c.failed && WordsAt(c.data, c.pos, RotWords(r))
    ensures TakeRot(c, prior) == (r, c.(pos := c.pos + 3))
  {
    TakeWordsRoundTrip(c, RotWords(r), RotWords(prior));
    RotWordsAt(r, RotWords(r), prior);
  }

  /** A read past the end of the stream fails and keeps its target. */
  lemma TakeVecAtEnd(c: Cursor, prior: Vec)
    requires c.failed || c.pos >= |c.data|
    ensures TakeVec(c, prior) == (prior, c.(failed := true))
  {
    TakeWordsAtEnd(c, VecWords(prior));
    VecWordsAt(prior, VecWords(prior), prior);
  }

  lemma TakeRotAtEnd(c: Cursor, prior: Rot)
    requires c.failed || c.pos >= |c.data|
    ensures TakeRot(c, prior) == (prior, c.(failed := true))
  {
    TakeWordsAtEnd(c, RotWords(prior));
    RotWordsAt(prior, RotWords(prior), prior);
  }

  /** Eight three-word fields and a three-word tail written one after
      another make up the record laid out field by field. */
  lemma RecordRegroup<T>(w: seq<T>, a: seq<T>, b: seq<T>, c: seq<T>, d: seq<T>, e: seq<T>, f: seq<T>,
                         g: seq<T>, h: seq<T>, x: T, y: T, z: T)
    ensures w + a + b + c + d + e + f + g + h + [x] + [y] + [z]
            == w + (a + (b + (c + (d + (e + (f + (g + (h + [x, y, z]))))))))
  {
  }

  // ---------------------------------------------------------------------
  // The streams themselves.

  /** An output stream (std::ostringstream / std::ofstream). */
  class OutStream {
    var words: seq<Word>

    constructor ()
      ensures words == []
    {
      words := [];
    }

    method WriteFloat(f: real)
      modifies this
      ensures words == old(words) + [Float(f)]
    {
      words := words + [Float(f)];
    }

    method WriteInt(i: int)
      modifies this
      ensures words == old(words) + [Int(i)]
    {
      words := words + [Int(i)];
    }

    method WriteBool(b: bool)
      modifies this
      ensures words == old(words) + [Bool(b)]
    {
      words := words + [Bool(b)];
    }
  }

  /** An input stream (std::istringstream / std::ifstream) over fixed data. */
  class InStream {
    const data: seq<Word>
    var pos: nat
    var failed: bool

    constructor (data: seq<Word>)
      ensures At() == Cursor(data, 0, false)
    {
      this.data := data;
      pos := 0;
      failed := false;
    }

    function At(): Cursor
      reads this
    {
      Cursor(data, pos, failed)
    }

    method ReadFloat(prior: real) returns (f: real)
      modifies this
      ensures (f, At()) == TakeFloat(old(At()), prior)
    {
      if !failed && pos < |data| && data[pos].Float? {
        f, pos := data[pos].f, pos + 1;
      } else {
        f, failed := prior, true;
      }
    }

    method ReadInt(prior: int) returns (i: int)
      modifies this
      ensures (i, At()) == TakeInt(old(At()), prior)
    {
      if !failed && pos < |data| && data[pos].Int? {
        i, pos := data[pos].i, pos + 1;
      } else {
        i, failed := prior, true;
      }
    }

    method ReadBool(prior: bool) returns (b: bool)
      modifies this
      ensures (b, At()) == TakeBool(old(At()), prior)
    {
      if !failed && pos < |data| && data[pos].Bool? {
        b, pos := data[pos].b, pos + 1;
      } else {
        b, failed := prior, true;
      }
    }
  }

  method WriteVec(out: OutStream, v: Vec)
    modifies out
    ensures out.words == old(out.words) + VecWords(v)
  {
    out.WriteFloat(v.x);
    out.WriteFloat(v.y);
    out.WriteFloat(v.z);
  }

  method WriteRot(out: OutStream, r: Rot)
    modifies out
    ensures out.words == old(out.words) + RotWords(r)
  {
    out.WriteInt(r.pitch);
    out.WriteInt(r.yaw);
    out.WriteInt(r.roll);
  }

  method ReadVec(inp: InStream, prior: Vec) returns (v: Vec)
    modifies inp
    ensures (v, inp.At()) == TakeVec(old(inp.At()), prior)
  {
    ghost var c0 := inp.At();
    var x := inp.ReadFloat(prior.x);
    ghost var c1 := inp.At();
    var y := inp.ReadFloat(prior.y);
    ghost var c2 := inp.At();
    var z := inp.ReadFloat(prior.z);
    v := Vec(x, y, z);
    TakeWordsOne(c2, Float(prior.z), []);
    TakeWordsOne(c1, Float(prior.y), [Float(prior.z)]);
    TakeWordsOne(c0, Float(prior.x), [Float(prior.y), Float(prior.z)]);
  }

  method ReadRot(inp: InStream, prior: Rot) returns (r: Rot)
    modifies inp
    ensures (r, inp.At()) == TakeRot(old(inp.At()), prior)
  {
    ghost var c0 := inp.At();
    var p := inp.ReadInt(prior.pitch);
    ghost var c1 := inp.At();
    var y := inp.ReadInt(prior.yaw);
    ghost var c2 := inp.At();
    var l := inp.ReadInt(prior.roll);
    r := Rot(p, y, l);
    TakeWordsOne(c2, Int(prior.roll), []);
    TakeWordsOne(c1, Int(prior.yaw), [Int(prior.roll)]);
    TakeWordsOne(c0, Int(prior.pitch), [Int(prior.yaw), Int(prior.roll)]);
  }
}
