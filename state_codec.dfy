// The stream layout of the snapshot records (state.cpp): ActorState and
// CarState each write their own fields in declaration order, while GameState
// interleaves ball and car field by field.  A GameState travels as text by
// writing it to a byte stream and base64-encoding the bytes (toString), and
// comes back by decoding and reading (the string constructor).  How words
// become bytes is host code, passed in as `pack` and `unpack`.
module StateCodec {
  import opened State
  import opened Pod
  import Base64

  // ---------------------------------------------------------------------
  // Layouts.

  /** ActorState::write. */
  function ActorWords(a: ActorState): (w: seq<Word>)
    ensures |w| == 12
  {
    VecWords(a.location) + (VecWords(a.velocity) + (RotWords(a.rotation) + VecWords(a.angVelocity)))
  }

  /** The three words a car adds after its body. */
  function CarTail(c: CarState): seq<Word> {
    [Float(c.boostAmount), Bool(c.hasDodge), Float(c.lastJumped)]
  }

  /** CarState::write: the body, then boost, dodge and jump time; `boosting`
      is not written. */
  function CarWords(c: CarState): (w: seq<Word>)
    ensures |w| == 15
  {
    ActorWords(c.actor) + CarTail(c)
  }

  /** GameState::write: ball and car alternate, field by field, then the
      car's tail; neither `time` nor `boosting` is written. */
  function GameWords(g: GameState): (w: seq<Word>)
    ensures |w| == 27
  {
    VecWords(g.ball.location) + (VecWords(g.car.actor.location) +
    (VecWords(g.ball.velocity) + (VecWords(g.car.actor.velocity) +
    (RotWords(g.ball.rotation) + (RotWords(g.car.actor.rotation) +
    (VecWords(g.ball.angVelocity) + (VecWords(g.car.actor.angVelocity) +
    CarTail(g.car))))))))
  }

  /** What a reader can recover of a game state: everything that is written;
      the clock reads as -1 and the car as not boosting. */
  function Loaded(g: GameState): GameState {
    GameState(g.ball, g.car.(boosting := false), NoTime)
  }

  /** Kinds do not depend on the values: any two records of one type are
      written as words of the same types. */
  lemma ActorKinds(a: ActorState, b: ActorState)
    ensures SameKinds(ActorWords(a), ActorWords(b))
  {
    SameKindsAppend(RotWords(a.rotation), VecWords(a.angVelocity), RotWords(b.rotation), VecWords(b.angVelocity));
    SameKindsAppend(VecWords(a.velocity), RotWords(a.rotation) + VecWords(a.angVelocity),
                    VecWords(b.velocity), RotWords(b.rotation) + VecWords(b.angVelocity));
    SameKindsAppend(VecWords(a.location), VecWords(a.velocity) + (RotWords(a.rotation) + VecWords(a.angVelocity)),
                    VecWords(b.location), VecWords(b.velocity) + (RotWords(b.rotation) + VecWords(b.angVelocity)));
  }

  lemma CarKinds(c: CarState, d: CarState)
    ensures SameKinds(CarWords(c), CarWords(d))
  {
    ActorKinds(c.actor, d.actor);
    SameKindsAppend(ActorWords(c.actor), CarTail(c), ActorWords(d.actor), CarTail(d));
  }

  lemma GameKinds(g: GameState, h: GameState)
    ensures SameKinds(GameWords(g), GameWords(h))
  {
    var gb, ga, hb, ha := g.ball, g.car.actor, h.ball, h.car.actor;
    var g7, h7 := VecWords(ga.angVelocity) + CarTail(g.car), VecWords(ha.angVelocity) + CarTail(h.car);
    SameKindsAppend(VecWords(ga.angVelocity), CarTail(g.car), VecWords(ha.angVelocity), CarTail(h.car));
    var g6, h6 := VecWords(gb.angVelocity) + g7, VecWords(hb.angVelocity) + h7;
    SameKindsAppend(VecWords(gb.angVelocity), g7, VecWords(hb.angVelocity), h7);
    var g5, h5 := RotWords(ga.rotation) + g6, RotWords(ha.rotation) + h6;
    SameKindsAppend(RotWords(ga.rotation), g6, RotWords(ha.rotation), h6);
    var g4, h4 := RotWords(gb.rotation) + g5, RotWords(hb.rotation) + h5;
    SameKindsAppend(RotWords(gb.rotation), g5, RotWords(hb.rotation), h5);
    var g3, h3 := VecWords(ga.velocity) + g4, VecWords(ha.velocity) + h4;
    SameKindsAppend(VecWords(ga.velocity), g4, VecWords(ha.velocity), h4);
    var g2, h2 := VecWords(gb.velocity) + g3, VecWords(hb.velocity) + h3;
    SameKindsAppend(VecWords(gb.velocity), g3, VecWords(hb.velocity), h3);
    var g1, h1 := VecWords(ga.location) + g2, VecWords(ha.location) + h2;
    SameKindsAppend(VecWords(ga.location), g2, VecWords(ha.location), h2);
    SameKindsAppend(VecWords(gb.location), g1, VecWords(hb.location), h1);
  }

  // ---------------------------------------------------------------------
  // Readers, over a stream state.  Each record starts from its default value
  // and its fields are overwritten in the order they were written; a field
  // keeps its default when its read fails.

  /** The words at `k` have the types of an actor's fields. */
  predicate ActorKindsAt(ws: seq<Word>, k: nat) {
    VecKindsAt(ws, k) && VecKindsAt(ws, k + 3) && RotKindsAt(ws, k + 6) && VecKindsAt(ws, k + 9)
  }

  /** The words have the types of a car's written fields. */
  predicate CarKindsAt(ws: seq<Word>) {
    ActorKindsAt(ws, 0) && 15 <= |ws| && ws[12].Float? && ws[13].Bool? && ws[14].Float?
  }

  /** The words have the types of a game state's written fields, ball and car
      interleaved. */
  predicate GameKindsAt(ws: seq<Word>) {
    VecKindsAt(ws, 0) && VecKindsAt(ws, 3) && VecKindsAt(ws, 6) && VecKindsAt(ws, 9)
    && RotKindsAt(ws, 12) && RotKindsAt(ws, 15) && VecKindsAt(ws, 18) && VecKindsAt(ws, 21)
    && 27 <= |ws| && ws[24].Float? && ws[25].Bool? && ws[26].Float?
  }

  /** Words of the same types as a record's layout have the types its reader
      expects. */
  lemma KindsOfLayouts(ws: seq<Word>)
    ensures SameKinds(ws, ActorWords(DefaultActor())) ==> ActorKindsAt(ws, 0)
    ensures SameKinds(ws, CarWords(DefaultCar())) ==> CarKindsAt(ws)
    ensures SameKinds(ws, GameWords(DefaultGame())) ==> GameKindsAt(ws)
  {
  }

  /** The actor held by the twelve words at `k`. */
  function ActorAt(ws: seq<Word>, k: nat): ActorState
    requires ActorKindsAt(ws, k)
  {
    ActorState(VecAt(ws, k), VecAt(ws, k + 3), RotAt(ws, k + 6), VecAt(ws, k + 9))
  }

  /** The car held by fifteen words; the words carry no boosting flag. */
  function CarAt(ws: seq<Word>): CarState
    requires CarKindsAt(ws)
  {
    CarState(ActorAt(ws, 0), ws[12].f, ws[13].b, ws[14].f, false)
  }

  /** The game state held by 27 interleaved words; they carry no clock. */
  function GameAt(ws: seq<Word>): GameState
    requires GameKindsAt(ws)
  {
    GameState(ActorState(VecAt(ws, 0), VecAt(ws, 6), RotAt(ws, 12), VecAt(ws, 18)),
              CarState(ActorState(VecAt(ws, 3), VecAt(ws, 9), RotAt(ws, 15), VecAt(ws, 21)),
                       ws[24].f, ws[25].b, ws[26].f, false),
              NoTime)
  }

  /** Each layout is read back by its reader, up to what it does not carry. */
  lemma LayoutsRead(a: ActorState, c: CarState, g: GameState)
    ensures ActorKindsAt(ActorWords(a), 0) && ActorAt(ActorWords(a), 0) == a
    ensures CarKindsAt(CarWords(c)) && CarAt(CarWords(c)) == c.(boosting := false)
    ensures GameKindsAt(GameWords(g)) && GameAt(GameWords(g)) == Loaded(g)
  {
  }

  /** Twelve words of an actor's types are the words of the actor they hold. */
  lemma ActorWordsOf(ws: seq<Word>)
    requires SameKinds(ws, ActorWords(DefaultActor()))
    ensures ActorKindsAt(ws, 0) && ActorWords(ActorAt(ws, 0)) == ws
  {
    KindsOfLayouts(ws);
    forall i | 0 <= i < 12 ensures ws[i].SameKind(ActorWords(DefaultActor())[i]) {
    }
  }

  /** ActorState(std::istream&). */
  function TakeActor(c: Cursor): (ActorState, Cursor) {
    var (ws, c1) := TakeWords(c, ActorWords(DefaultActor()));
    ActorReadKinds(c);
    (ActorAt(ws, 0), c1)
  }

  /** CarState(std::istream&). */
  function TakeCar(c: Cursor): (CarState, Cursor) {
    var (ws, c1) := TakeWords(c, CarWords(DefaultCar()));
    CarReadKinds(c);
    (CarAt(ws), c1)
  }

  /** GameState(std::istream&): the fields of DefaultGame(), overwritten in
      the order GameState::write emits them. */
  function TakeGame(c: Cursor): (GameState, Cursor) {
    var (ws, c1) := TakeWords(c, GameWords(DefaultGame()));
    GameReadKinds(c);
    (GameAt(ws), c1)
  }

  /** Every reader finds the types it expects. */
  lemma ActorReadKinds(c: Cursor)
    ensures ActorKindsAt(TakeWords(c, ActorWords(DefaultActor())).0, 0)
  {
    TakeWordsKinds(c, ActorWords(DefaultActor()));
    KindsOfLayouts(TakeWords(c, ActorWords(DefaultActor())).0);
  }

  lemma CarReadKinds(c: Cursor)
    ensures CarKindsAt(TakeWords(c, CarWords(DefaultCar())).0)
  {
    TakeWordsKinds(c, CarWords(DefaultCar()));
    KindsOfLayouts(TakeWords(c, CarWords(DefaultCar())).0);
  }

  lemma GameReadKinds(c: Cursor)
    ensures GameKindsAt(TakeWords(c, GameWords(DefaultGame())).0)
  {
    TakeWordsKinds(c, GameWords(DefaultGame()));
    KindsOfLayouts(TakeWords(c, GameWords(DefaultGame())).0);
  }

  // ---------------------------------------------------------------------
  // Read after write.

  /** Reading an actor where one was written gives it back. */
  lemma ActorRoundTrip(c: Cursor, a: ActorState)
    requires !c.failed && WordsAt(c.data, c.pos, ActorWords(a))
    ensures TakeActor(c) == (a, c.(pos := c.pos + 12))
  {
    ActorKinds(a, DefaultActor());
    TakeWordsRoundTrip(c, ActorWords(a), ActorWords(DefaultActor()));
    LayoutsRead(a, DefaultCar(), DefaultGame());
  }

  /** Reading a car where one was written gives it back, not boosting. */
  lemma CarRoundTrip(c: Cursor, car: CarState)
    requires !c.failed && WordsAt(c.data, c.pos, CarWords(car))
    ensures TakeCar(c) == (car.(boosting := false), c.(pos := c.pos + 15))
  {
    CarKinds(car, DefaultCar());
    TakeWordsRoundTrip(c, CarWords(car), CarWords(DefaultCar()));
    LayoutsRead(DefaultActor(), car, DefaultGame());
  }

  /** Reading a game state where one was written restores every written
      field, moves past its 27 words, and leaves the clock at -1. */
  lemma GameRoundTrip(c: Cursor, g: GameState)
    requires !c.failed && WordsAt(c.data, c.pos, GameWords(g))
    ensures TakeGame(c) == (Loaded(g), c.(pos := c.pos + 27))
  {
    GameKinds(g, DefaultGame());
    TakeWordsRoundTrip(c, GameWords(g), GameWords(DefaultGame()));
    LayoutsRead(DefaultActor(), DefaultCar(), g);
  }

  /** Whatever follows a written state in the stream is left unread. */
  lemma GameReadBack(g: GameState, rest: seq<Word>)
    ensures TakeGame(Cursor(GameWords(g) + rest, 0, false)) == (Loaded(g), Cursor(GameWords(g) + rest, 27, false))
  {
    WordsAtWhole(GameWords(g), rest);
    GameRoundTrip(Cursor(GameWords(g) + rest, 0, false), g);
  }

  /** Reading from an empty or failed stream yields the default state. */
  lemma GameFromNothing(c: Cursor)
    requires c.failed || c.pos >= |c.data|
    ensures TakeGame(c) == (DefaultGame(), c.(failed := true))
  {
    TakeWordsAtEnd(c, GameWords(DefaultGame()));
    LayoutsRead(DefaultActor(), DefaultCar(), DefaultGame());
  }

  // ---------------------------------------------------------------------
  // The stream methods.

  /** Three single reads of the car's tail, as one run of reads. */
  lemma TailInOrder(car: CarState, prior: CarState, rest: seq<Word>, c0: Cursor, c1: Cursor, c2: Cursor, c3: Cursor)
    requires TakeFloat(c0, prior.boostAmount) == (car.boostAmount, c1)
    requires TakeBool(c1, prior.hasDodge) == (car.hasDodge, c2)
    requires TakeFloat(c2, prior.lastJumped) == (car.lastJumped, c3)
    ensures TakeWords(c0, CarTail(prior) + rest) == (CarTail(car) + TakeWords(c3, rest).0, TakeWords(c3, rest).1)
  {
    TakeWordsOne(c2, Float(prior.lastJumped), rest);
    TakeWordsOne(c1, Bool(prior.hasDodge), [Float(prior.lastJumped)] + rest);
    TakeWordsOne(c0, Float(prior.boostAmount), [Bool(prior.hasDodge)] + ([Float(prior.lastJumped)] + rest));
    assert CarTail(prior) + rest == [Float(prior.boostAmount)] + ([Bool(prior.hasDodge)] + ([Float(prior.lastJumped)] + rest));
    assert CarTail(car) + TakeWords(c3, rest).0
        == [Float(car.boostAmount)] + ([Bool(car.hasDodge)] + ([Float(car.lastJumped)] + TakeWords(c3, rest).0));
  }

  /** The last seven field reads of GameState(std::istream&), from the
      ball's rotation on, as one run of reads. */
  lemma GameBackInOrder(g: GameState, c4: Cursor, c5: Cursor, c6: Cursor, c7: Cursor, c8: Cursor, c9: Cursor,
                        c10: Cursor, c11: Cursor)
    requires TakeRot(c4, ZeroRot) == (g.ball.rotation, c5)
    requires TakeRot(c5, ZeroRot) == (g.car.actor.rotation, c6)
    requires TakeVec(c6, ZeroVec) == (g.ball.angVelocity, c7)
    requires TakeVec(c7, ZeroVec) == (g.car.actor.angVelocity, c8)
    requires TakeFloat(c8, 0.0) == (g.car.boostAmount, c9)
    requires TakeBool(c9, false) == (g.car.hasDodge, c10)
    requires TakeFloat(c10, 0.0) == (g.car.lastJumped, c11)
    ensures TakeWords(c4, RotWords(ZeroRot) + (RotWords(ZeroRot) + (VecWords(ZeroVec) + (VecWords(ZeroVec) + CarTail(DefaultCar())))))
         == (RotWords(g.ball.rotation) + (RotWords(g.car.actor.rotation) + (VecWords(g.ball.angVelocity)
             + (VecWords(g.car.actor.angVelocity) + CarTail(g.car)))), c11)
  {
    var b, a := g.ball, g.car.actor;
    var r8, w8 := CarTail(DefaultCar()), CarTail(g.car);
    assert TakeWords(c8, r8) == (w8, c11) by {
      assert TakeWords(c11, []) == ([], c11);
      TailInOrder(g.car, DefaultCar(), [], c8, c9, c10, c11);
      assert r8 + [] == r8 && w8 + [] == w8;
    }
    var r7, w7 := VecWords(ZeroVec) + r8, VecWords(a.angVelocity) + w8;
    VecThen(c7, ZeroVec, r8, a.angVelocity, c8, w8, c11);
    var r6, w6 := VecWords(ZeroVec) + r7, VecWords(b.angVelocity) + w7;
    VecThen(c6, ZeroVec, r7, b.angVelocity, c7, w7, c11);
    var r5, w5 := RotWords(ZeroRot) + r6, RotWords(a.rotation) + w6;
    RotThen(c5, ZeroRot, r6, a.rotation, c6, w6, c11);
    RotThen(c4, ZeroRot, r5, b.rotation, c5, w5, c11);
  }

  /** The eleven field reads of GameState(std::istream&), one after another
      from `c0` to `c11`, are one run of reads over the default state's words
      (spelled out in DefaultGameWords) that yields the words of `g`. */
  lemma GameInOrder(g: GameState, c0: Cursor, c1: Cursor, c2: Cursor, c3: Cursor, c4: Cursor, c5: Cursor,
                    c6: Cursor, c7: Cursor, c8: Cursor, c9: Cursor, c10: Cursor, c11: Cursor)
    requires TakeVec(c0, ZeroVec) == (g.ball.location, c1)
    requires TakeVec(c1, ZeroVec) == (g.car.actor.location, c2)
    requires TakeVec(c2, ZeroVec) == (g.ball.velocity, c3)
    requires TakeVec(c3, ZeroVec) == (g.car.actor.velocity, c4)
    requires TakeRot(c4, ZeroRot) == (g.ball.rotation, c5)
    requires TakeRot(c5, ZeroRot) == (g.car.actor.rotation, c6)
    requires TakeVec(c6, ZeroVec) == (g.ball.angVelocity, c7)
    requires TakeVec(c7, ZeroVec) == (g.car.actor.angVelocity, c8)
    requires TakeFloat(c8, 0.0) == (g.car.boostAmount, c9)
    requires TakeBool(c9, false) == (g.car.hasDodge, c10)
    requires TakeFloat(c10, 0.0) == (g.car.lastJumped, c11)
    ensures TakeWords(c0, VecWords(ZeroVec) + (VecWords(ZeroVec) + (VecWords(ZeroVec) + (VecWords(ZeroVec) + (RotWords(ZeroRot)
              + (RotWords(ZeroRot) + (VecWords(ZeroVec) + (VecWords(ZeroVec) + CarTail(DefaultCar())))))))))
         == (GameWords(g), c11)
  {
    var b, a := g.ball, g.car.actor;
    var r4 := RotWords(ZeroRot) + (RotWords(ZeroRot) + (VecWords(ZeroVec) + (VecWords(ZeroVec) + CarTail(DefaultCar()))));
    var w4 := RotWords(b.rotation) + (RotWords(a.rotation) + (VecWords(b.angVelocity)
              + (VecWords(a.angVelocity) + CarTail(g.car))));
    GameBackInOrder(g, c4, c5, c6, c7, c8, c9, c10, c11);
    var r3, w3 := VecWords(ZeroVec) + r4, VecWords(a.velocity) + w4;
    VecThen(c3, ZeroVec, r4, a.velocity, c4, w4, c11);
    var r2, w2 := VecWords(ZeroVec) + r3, VecWords(b.velocity) + w3;
    VecThen(c2, ZeroVec, r3, b.velocity, c3, w3, c11);
    var r1, w1 := VecWords(ZeroVec) + r2, VecWords(a.location) + w2;
    VecThen(c1, ZeroVec, r2, a.location, c2, w2, c11);
    VecThen(c0, ZeroVec, r1, b.location, c1, w1, c11);
  }

  /** The words a default game state is written as. */
  lemma DefaultGameWords()
    ensures GameWords(DefaultGame())
         == VecWords(ZeroVec) + (VecWords(ZeroVec) + (VecWords(ZeroVec) + (VecWords(ZeroVec) + (RotWords(ZeroRot)
            + (RotWords(ZeroRot) + (VecWords(ZeroVec) + (VecWords(ZeroVec) + CarTail(DefaultCar()))))))))
  {
    var d := DefaultGame();
    assert d.ball == DefaultActor() && d.car == DefaultCar();
  }

  method WriteActor(out: OutStream, a: ActorState)
    modifies out
    ensures out.words == old(out.words) + ActorWords(a)
  {
    WriteVec(out, a.location);
    WriteVec(out, a.velocity);
    WriteRot(out, a.rotation);
    WriteVec(out, a.angVelocity);
  }

  method ReadActor(inp: InStream) returns (a: ActorState)
    modifies inp
    ensures (a, inp.At()) == TakeActor(old(inp.At()))
  {
    ghost var c0 := inp.At();
    var l := ReadVec(inp, ZeroVec);
    ghost var c1 := inp.At();
    var v := ReadVec(inp, ZeroVec);
    ghost var c2 := inp.At();
    var r := ReadRot(inp, ZeroRot);
    ghost var c3 := inp.At();
    var w := ReadVec(inp, ZeroVec);
    a := ActorState(l, v, r, w);
    ghost var c4 := inp.At();
    assert TakeWords(c4, []) == ([], c4);
    VecThen(c3, ZeroVec, [], w, c4, [], c4);
    RotThen(c2, ZeroRot, VecWords(ZeroVec) + [], r, c3, VecWords(w) + [], c4);
    VecThen(c1, ZeroVec, RotWords(ZeroRot) + (VecWords(ZeroVec) + []), v, c2, RotWords(r) + (VecWords(w) + []), c4);
    VecThen(c0, ZeroVec, VecWords(ZeroVec) + (RotWords(ZeroRot) + (VecWords(ZeroVec) + [])), l, c1,
            VecWords(v) + (RotWords(r) + (VecWords(w) + [])), c4);
    assert VecWords(ZeroVec) + [] == VecWords(ZeroVec) && VecWords(w) + [] == VecWords(w);
    LayoutsRead(a, DefaultCar(), DefaultGame());
  }

  method WriteCar(out: OutStream, c: CarState)
    modifies out
    ensures out.words == old(out.words) + CarWords(c)
  {
    WriteActor(out, c.actor);
    out.WriteFloat(c.boostAmount);
    out.WriteBool(c.hasDodge);
    out.WriteFloat(c.lastJumped);
  }

  method ReadCar(inp: InStream) returns (c: CarState)
    modifies inp
    ensures (c, inp.At()) == TakeCar(old(inp.At()))
  {
    ghost var c0 := inp.At();
    var a := ReadActor(inp);
    ghost var c1 := inp.At();
    var boost := inp.ReadFloat(0.0);
    ghost var c2 := inp.At();
    var dodge := inp.ReadBool(false);
    ghost var c3 := inp.At();
    var jumped := inp.ReadFloat(0.0);
    c := CarState(a, boost, dodge, jumped, false);
    var d := DefaultCar();
    assert TakeWords(inp.At(), []) == ([], inp.At());
    TailInOrder(c, d, [], c1, c2, c3, inp.At());
    assert CarTail(d) + [] == CarTail(d) && CarTail(c) + [] == CarTail(c);
    TakeWordsAppend(c0, ActorWords(d.actor), CarTail(d));
    TakeWordsKinds(c0, ActorWords(d.actor));
    var ws := TakeWords(c0, ActorWords(d.actor)).0;
    ActorWordsOf(ws);
    LayoutsRead(a, c, DefaultGame());
  }

  method WriteGame(out: OutStream, g: GameState)
    modifies out
    ensures out.words == old(out.words) + GameWords(g)
  {
    ghost var start := out.words;
    WriteVec(out, g.ball.location);
    WriteVec(out, g.car.actor.location);
    WriteVec(out, g.ball.velocity);
    WriteVec(out, g.car.actor.velocity);
    WriteRot(out, g.ball.rotation);
    WriteRot(out, g.car.actor.rotation);
    WriteVec(out, g.ball.angVelocity);
    WriteVec(out, g.car.actor.angVelocity);
    out.WriteFloat(g.car.boostAmount);
    out.WriteBool(g.car.hasDodge);
    out.WriteFloat(g.car.lastJumped);
    RecordRegroup(start, VecWords(g.ball.location), VecWords(g.car.actor.location),
                  VecWords(g.ball.velocity), VecWords(g.car.actor.velocity),
                  RotWords(g.ball.rotation), RotWords(g.car.actor.rotation),
                  VecWords(g.ball.angVelocity), VecWords(g.car.actor.angVelocity),
                  Float(g.car.boostAmount), Bool(g.car.hasDodge), Float(g.car.lastJumped));
  }

  method ReadGame(inp: InStream) returns (g: GameState)
    modifies inp
    ensures (g, inp.At()) == TakeGame(old(inp.At()))
  {
    ghost var c0 := inp.At();
    var bl := ReadVec(inp, ZeroVec);
    ghost var c1 := inp.At();
    var cl := ReadVec(inp, ZeroVec);
    ghost var c2 := inp.At();
    var bv := ReadVec(inp, ZeroVec);
    ghost var c3 := inp.At();
    var cv := ReadVec(inp, ZeroVec);
    ghost var c4 := inp.At();
    var br := ReadRot(inp, ZeroRot);
    ghost var c5 := inp.At();
    var cr := ReadRot(inp, ZeroRot);
    ghost var c6 := inp.At();
    var ba := ReadVec(inp, ZeroVec);
    ghost var c7 := inp.At();
    var ca := ReadVec(inp, ZeroVec);
    ghost var c8 := inp.At();
    var boost := inp.ReadFloat(0.0);
    ghost var c9 := inp.At();
    var dodge := inp.ReadBool(false);
    ghost var c10 := inp.At();
    var jumped := inp.ReadFloat(0.0);
    g := GameState(ActorState(bl, bv, br, ba), CarState(ActorState(cl, cv, cr, ca), boost, dodge, jumped, false),
                   NoTime);
    GameInOrder(g, c0, c1, c2, c3, c4, c5, c6, c7, c8, c9, c10, inp.At());
    DefaultGameWords();
    LayoutsRead(DefaultActor(), DefaultCar(), g);
  }

  // ---------------------------------------------------------------------
  // Text form.

  /** The text toString produces for `g`. */
  function Text(g: GameState, pack: seq<Word> -> seq<Base64.byte>): string {
    Base64.Encoding(pack(GameWords(g)))
  }

  /** The state the string constructor builds from `enc`. */
  function FromText(enc: string, unpack: seq<Base64.byte> -> seq<Word>): GameState {
    TakeGame(Cursor(unpack(Base64.Decoding(enc)), 0, false)).0
  }

  /** GameState::toString. */
  method ToString(g: GameState, pack: seq<Word> -> seq<Base64.byte>) returns (s: string)
    ensures s == Text(g, pack)
  {
    var out := new OutStream();
    WriteGame(out, g);
    assert out.words == GameWords(g);
    s := Base64.Encode(pack(out.words));
  }

  /** GameState(const std::string). */
  method ParseString(enc: string, unpack: seq<Base64.byte> -> seq<Word>) returns (g: GameState)
    ensures g == FromText(enc, unpack)
  {
    var dec := Base64.Decode(enc);
    var inp := new InStream(unpack(dec));
    g := ReadGame(inp);
  }

  /** A state survives the trip through text whenever the host's byte packing
      of its words can be undone. */
  lemma TextRoundTrip(g: GameState, pack: seq<Word> -> seq<Base64.byte>, unpack: seq<Base64.byte> -> seq<Word>)
    requires unpack(pack(GameWords(g))) == GameWords(g)
    ensures FromText(Text(g, pack), unpack) == Loaded(g)
  {
    Base64.RoundTrip(pack(GameWords(g)));
    GameReadBack(g, []);
    assert GameWords(g) + [] == GameWords(g);
  }
}
