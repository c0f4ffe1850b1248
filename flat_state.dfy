// The older flat snapshot record of utils.h: the same fields as the nested
// GameState of state.cpp, without the clock and the boost flag, written and
// read in the same order.
module FlatState {
  import opened State
  import opened Pod
  import StateCodec

  datatype Flat = Flat(ballLocation: Vec, carLocation: Vec, ballVelocity: Vec, carVelocity: Vec,
                       ballRotation: Rot, carRotation: Rot, ballAngVelocity: Vec, carAngVelocity: Vec,
                       boostAmount: real, hasDodge: bool, lastJumped: real)

  /** The default constructor: zero vectors and rotators, no boost, no dodge,
      jump time 0. */
  function DefaultFlat(): (f: Flat)
    ensures f.ballLocation == ZeroVec && f.carLocation == ZeroVec && f.ballVelocity == ZeroVec
    ensures f.carVelocity == ZeroVec && f.ballRotation == ZeroRot && f.carRotation == ZeroRot
    ensures f.ballAngVelocity == ZeroVec && f.carAngVelocity == ZeroVec
    ensures f.boostAmount == 0.0 && !f.hasDodge && f.lastJumped == 0.0
  {
    Flat(ZeroVec, ZeroVec, ZeroVec, ZeroVec, ZeroRot, ZeroRot, ZeroVec, ZeroVec, 0.0, false, 0.0)
  }

  /** The nested record holding the same fields, with no clock and not boosting. */
  function ToNested(f: Flat): GameState {
    GameState(ActorState(f.ballLocation, f.ballVelocity, f.ballRotation, f.ballAngVelocity),
              CarState(ActorState(f.carLocation, f.carVelocity, f.carRotation, f.carAngVelocity),
                       f.boostAmount, f.hasDodge, f.lastJumped, false),
              NoTime)
  }

  function ToFlat(g: GameState): Flat {
    Flat(g.ball.location, g.car.actor.location, g.ball.velocity, g.car.actor.velocity,
         g.ball.rotation, g.car.actor.rotation, g.ball.angVelocity, g.car.actor.angVelocity,
         g.car.boostAmount, g.car.hasDodge, g.car.lastJumped)
  }

  /** The two records hold the same information, up to what the flat one
      lacks; the defaults correspond. */
  lemma FlatNestedCorrespond(f: Flat, g: GameState)
    ensures ToFlat(ToNested(f)) == f
    ensures ToNested(ToFlat(g)) == StateCodec.Loaded(g)
    ensures ToNested(DefaultFlat()) == DefaultGame()
  {
  }

  /** GameState::write of utils.h. */
  function FlatWords(f: Flat): seq<Word> {
    VecWords(f.ballLocation) + (VecWords(f.carLocation) +
    (VecWords(f.ballVelocity) + (VecWords(f.carVelocity) +
    (RotWords(f.ballRotation) + (RotWords(f.carRotation) +
    (VecWords(f.ballAngVelocity) + (VecWords(f.carAngVelocity) +
    [Float(f.boostAmount), Bool(f.hasDodge), Float(f.lastJumped)])))))))
  }

  /** The record held by 27 words, in the order write emits them. */
  function FlatAt(ws: seq<Word>): Flat
    requires StateCodec.GameKindsAt(ws)
  {
    Flat(VecAt(ws, 0), VecAt(ws, 3), VecAt(ws, 6), VecAt(ws, 9), RotAt(ws, 12), RotAt(ws, 15),
         VecAt(ws, 18), VecAt(ws, 21), ws[24].f, ws[25].b, ws[26].f)
  }

  /** GameState(std::ifstream&) of utils.h.  The fields are not initialised
      before the reads; a failed read is taken to leave zero. */
  function TakeFlat(c: Cursor): (Flat, Cursor) {
    var (ws, c1) := TakeWords(c, FlatWords(DefaultFlat()));
    FlatReadKinds(c);
    (FlatAt(ws), c1)
  }

  lemma FlatReadKinds(c: Cursor)
    ensures StateCodec.GameKindsAt(TakeWords(c, FlatWords(DefaultFlat())).0)
  {
    SameLayout(DefaultFlat(), DefaultGame());
    FlatNestedCorrespond(DefaultFlat(), DefaultGame());
    StateCodec.GameReadKinds(c);
  }

  /** Both revisions emit the same word sequence for the same fields ... */
  lemma SameLayout(f: Flat, g: GameState)
    ensures FlatWords(f) == StateCodec.GameWords(ToNested(f))
    ensures StateCodec.GameWords(g) == FlatWords(ToFlat(g))
  {
  }

  /** ... and both readers, given the same stream, read the same fields and
      stop at the same place. */
  lemma ReadersAgree(c: Cursor)
    ensures ToNested(TakeFlat(c).0) == StateCodec.TakeGame(c).0
    ensures TakeFlat(c).1 == StateCodec.TakeGame(c).1
  {
    SameLayout(DefaultFlat(), DefaultGame());
    FlatNestedCorrespond(DefaultFlat(), DefaultGame());
  }

  /** Reading back what write emitted is the identity. */
  lemma FlatRoundTrip(f: Flat, rest: seq<Word>)
    ensures TakeFlat(Cursor(FlatWords(f) + rest, 0, false)) == (f, Cursor(FlatWords(f) + rest, 27, false))
  {
    var g := ToNested(f);
    SameLayout(f, g);
    StateCodec.GameReadBack(g, rest);
    ReadersAgree(Cursor(FlatWords(f) + rest, 0, false));
    FlatNestedCorrespond(f, g);
    assert ToFlat(ToNested(TakeFlat(Cursor(FlatWords(f) + rest, 0, false)).0)) == f;
  }

  method WriteFlat(out: OutStream, f: Flat)
    modifies out
    ensures out.words == old(out.words) + FlatWords(f)
  {
    ghost var start := out.words;
    WriteVec(out, f.ballLocation);
    WriteVec(out, f.carLocation);
    WriteVec(out, f.ballVelocity);
    WriteVec(out, f.carVelocity);
    WriteRot(out, f.ballRotation);
    WriteRot(out, f.carRotation);
    WriteVec(out, f.ballAngVelocity);
    WriteVec(out, f.carAngVelocity);
    out.WriteFloat(f.boostAmount);
    out.WriteBool(f.hasDodge);
    out.WriteFloat(f.lastJumped);
    RecordRegroup(start, VecWords(f.ballLocation), VecWords(f.carLocation),
                  VecWords(f.ballVelocity), VecWords(f.carVelocity),
                  RotWords(f.ballRotation), RotWords(f.carRotation),
                  VecWords(f.ballAngVelocity), VecWords(f.carAngVelocity),
                  Float(f.boostAmount), Bool(f.hasDodge), Float(f.lastJumped));
  }

  method ReadFlat(inp: InStream) returns (f: Flat)
    modifies inp
    ensures (f, inp.At()) == TakeFlat(old(inp.At()))
  {
    ghost var c0 := inp.At();
    var bl := ReadVec(inp, ZeroVec);
    ghost var c1 := inp.At();
    var cl := ReadVec(inp, ZeroVec);
    ghost var c2 := inp.At();
    var bv := ReadVec(inp, ZeroVec);
    ghost var c3 := inp.At();
    var cv := ReadVec(inp, ZeroVec);
    ghost var c4 := inp.At();
    var br := ReadRot(inp, ZeroRot);
    ghost var c5 := inp.At();
    var cr := ReadRot(inp, ZeroRot);
    ghost var c6 := inp.At();
    var ba := ReadVec(inp, ZeroVec);
    ghost var c7 := inp.At();
    var ca := ReadVec(inp, ZeroVec);
    ghost var c8 := inp.At();
    var boost := inp.ReadFloat(0.0);
    ghost var c9 := inp.At();
    var dodge := inp.ReadBool(false);
    ghost var c10 := inp.At();
    var jumped := inp.ReadFloat(0.0);
    f := Flat(bl, cl, bv, cv, br, cr, ba, ca, boost, dodge, jumped);
    // The same eleven reads, in the same order, as the nested reader.
    StateCodec.GameInOrder(ToNested(f), c0, c1, c2, c3, c4, c5, c6, c7, c8, c9, c10, inp.At());
    StateCodec.DefaultGameWords();
    StateCodec.LayoutsRead(DefaultActor(), DefaultCar(), ToNested(f));
    ReadersAgree(c0);
    FlatNestedCorrespond(f, DefaultGame());
    FlatNestedCorrespond(TakeFlat(c0).0, DefaultGame());
  }

  // ---------------------------------------------------------------------
  // Reading from and writing to the host.

  /** GameState(ServerWrapper): the same boost, jump and dodge derivation as
      the nested record's CarState(CarWrapper). */
  function FlatFromServer(ball: ActorState, car: HostCar): (f: Flat)
    ensures f.lastJumped == (if !car.jumped || !car.hasJumpComponent then NotJumped else car.jumpInactiveTime)
    ensures f.hasDodge <==> !car.doubleJumped && f.lastJumped < MaxDodgeTime
    ensures f.boostAmount == (if car.hasBoostComponent then car.boost else 0.0)
  {
    var lastJumped := if !car.jumped || !car.hasJumpComponent then NotJumped else car.jumpInactiveTime;
    Flat(ball.location, car.body.location, ball.velocity, car.body.velocity,
         ball.rotation, car.body.rotation, ball.angVelocity, car.body.angVelocity,
         if car.hasBoostComponent then car.boost else 0.0,
         !car.doubleJumped && lastJumped < MaxDodgeTime, lastJumped)
  }

  /** The two revisions read the host alike. */
  lemma FromServerAgrees(ball: ActorState, car: HostCar)
    ensures FlatFromServer(ball, car) == ToFlat(GameFromCarBall(car, ball))
  {
  }

  /** apply(ServerWrapper): ball and car bodies, boost only with a boost
      component, and both jump flags set to `!hasDodge`. */
  function ApplyFlat(f: Flat, ball: ActorState, car: HostCar): (ActorState, HostCar) {
    (ActorState(f.ballLocation, f.ballVelocity, f.ballRotation, f.ballAngVelocity),
     car.(body := ActorState(f.carLocation, f.carVelocity, f.carRotation, f.carAngVelocity),
          boost := if car.hasBoostComponent then f.boostAmount else car.boost,
          jumped := !f.hasDodge, doubleJumped := !f.hasDodge))
  }

  /** After apply the host car's jump flags both say `!hasDodge`, its boost
      is the record's exactly when it has a boost component, and reading the
      host back gives the record's bodies and dodge. */
  lemma ApplyFlatThenRead(f: Flat, ball: ActorState, car: HostCar)
    ensures var (b, c) := ApplyFlat(f, ball, car);
            c.jumped == !f.hasDodge && c.doubleJumped == !f.hasDodge
            && (car.hasBoostComponent ==> c.boost == f.boostAmount)
            && (!car.hasBoostComponent ==> c.boost == car.boost)
            && var r := FlatFromServer(b, c);
               r.hasDodge == f.hasDodge && r.ballLocation == f.ballLocation && r.carLocation == f.carLocation
               && r.ballRotation == f.ballRotation && r.carRotation == f.carRotation
               && r.ballVelocity == f.ballVelocity && r.carVelocity == f.carVelocity
               && r.ballAngVelocity == f.ballAngVelocity && r.carAngVelocity == f.carAngVelocity
               && (car.hasBoostComponent ==> r.boostAmount == f.boostAmount)
  {
    var (b, c) := ApplyFlat(f, ball, car);
    if f.hasDodge {
      assert !c.jumped;
    } else {
      assert c.doubleJumped;
    }
  }
}
