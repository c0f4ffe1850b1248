// The snapshot records of state.h / state.cpp: an actor (ball or car body),
// a car with its boost and dodge bookkeeping, and a game state that pairs the
// two with the custom-training clock.  Floats are exact reals; the rotator's
// fields are the host's integers.  Quaternion and slerp arithmetic is host
// code and enters as function parameters.
module State {

  datatype Vec = Vec(x: real, y: real, z: real)

  datatype Rot = Rot(pitch: int, yaw: int, roll: int)

  datatype ActorState = ActorState(location: Vec, velocity: Vec, rotation: Rot, angVelocity: Vec)

  datatype CarState = CarState(actor: ActorState, boostAmount: real, hasDodge: bool,
                               lastJumped: real, boosting: bool)

  /** `time` is the custom-training clock, or -1 outside custom training. */
  datatype GameState = GameState(ball: ActorState, car: CarState, time: real)

  /** MAX_DODGE_TIME: seconds after a jump during which a dodge is still available. */
  const MaxDodgeTime: real := 1.2

  /** The value of `lastJumped` for a car that has not jumped. */
  const NotJumped: real := -1.0

  /** The value of `time` outside custom training. */
  const NoTime: real := -1.0

  const ZeroVec: Vec := Vec(0.0, 0.0, 0.0)

  const ZeroRot: Rot := Rot(0, 0, 0)

  // ---------------------------------------------------------------------
  // Default constructors.

  function DefaultActor(): (a: ActorState)
    ensures a.location == ZeroVec && a.velocity == ZeroVec && a.rotation == ZeroRot
    ensures a.angVelocity == ZeroVec
  {
    ActorState(ZeroVec, ZeroVec, ZeroRot, ZeroVec)
  }

  function DefaultCar(): (c: CarState)
    ensures c.actor == DefaultActor() && c.boostAmount == 0.0 && !c.hasDodge
    ensures c.lastJumped == 0.0 && !c.boosting
  {
    CarState(DefaultActor(), 0.0, false, 0.0, false)
  }

  function DefaultGame(): (g: GameState)
    ensures g.ball == DefaultActor() && g.car == DefaultCar() && g.time == NoTime
  {
    GameState(DefaultActor(), DefaultCar(), NoTime)
  }

  // ---------------------------------------------------------------------
  // Blending: the state `percent` of the way from rh to lh.

  function Mix(l: real, r: real, percent: real): real {
    l * percent + r * (1.0 - percent)
  }

  function MixVec(l: Vec, r: Vec, percent: real): Vec {
    Vec(Mix(l.x, r.x, percent), Mix(l.y, r.y, percent), Mix(l.z, r.z, percent))
  }

  /** A weight in [0, 1] gives a value between the two ends, and the ends
      themselves at 1 and 0. */
  lemma MixBetween(l: real, r: real, percent: real)
    requires 0.0 <= percent <= 1.0
    ensures (if l <= r then l else r) <= Mix(l, r, percent) <= (if l <= r then r else l)
    ensures percent == 1.0 ==> Mix(l, r, percent) == l
    ensures percent == 0.0 ==> Mix(l, r, percent) == r
  {
    var d := if l <= r then r - l else l - r;
    assert Mix(l, r, percent) == r + (l - r) * percent;
    ScaleBetween(d, percent);
  }

  lemma ScaleBetween(d: real, percent: real)
    requires 0.0 <= d && 0.0 <= percent <= 1.0
    ensures 0.0 <= d * percent <= d
  {
    NonNegProduct(d, percent);
    NonNegProduct(d, 1.0 - percent);
    assert d - d * percent == d * (1.0 - percent);
  }

  lemma NonNegProduct(a: real, b: real)
    requires 0.0 <= a && 0.0 <= b
    ensures 0.0 <= a * b
  {
  }

  /** ActorState(lh, rh, percent): linear blend of location, velocity and
      angular velocity; the rotation comes from the host's rotator
      interpolation `slerp`. */
  function BlendActor(lh: ActorState, rh: ActorState, percent: real,
                      slerp: (Rot, Rot, real) -> Rot): ActorState
  {
    ActorState(MixVec(lh.location, rh.location, percent),
               MixVec(lh.velocity, rh.velocity, percent),
               slerp(lh.rotation, rh.rotation, percent),
               MixVec(lh.angVelocity, rh.angVelocity, percent))
  }

  /** CarState(lh, rh, percent): boost blends linearly and `boosting` is lh's.
      A side that has not jumped wins: the blend has not jumped and keeps its
      dodge.  If rh jumped more recently than lh (rewinding across a jump), the
      blend has just jumped.  Otherwise the jump time blends and the dodge is
      available while it is below MaxDodgeTime. */
  function BlendCar(lh: CarState, rh: CarState, percent: real,
                    slerp: (Rot, Rot, real) -> Rot): CarState
  {
    var actor := BlendActor(lh.actor, rh.actor, percent, slerp);
    var boost := Mix(lh.boostAmount, rh.boostAmount, percent);
    if lh.lastJumped == NotJumped || rh.lastJumped == NotJumped then
      CarState(actor, boost, true, NotJumped, lh.boosting)
    else if rh.lastJumped < lh.lastJumped then
      CarState(actor, boost, true, 0.0, lh.boosting)
    else
      var jumped := Mix(lh.lastJumped, rh.lastJumped, percent);
      CarState(actor, boost, jumped < MaxDodgeTime, jumped, lh.boosting)
  }

  /** GameState(lh, rh, percent): the clock is the plain average of two
      custom-training clocks, and -1 if either side has none. */
  function BlendGame(lh: GameState, rh: GameState, percent: real,
                     slerp: (Rot, Rot, real) -> Rot): GameState
  {
    GameState(BlendActor(lh.ball, rh.ball, percent, slerp),
              BlendCar(lh.car, rh.car, percent, slerp),
              if lh.time != NoTime && rh.time != NoTime then (lh.time + rh.time) / 2.0 else NoTime)
  }

  /** The weight multiplies lh: at 1 the blend has lh's location, velocity,
      angular velocity and boost, at 0 rh's. */
  lemma BlendEnds(lh: CarState, rh: CarState, percent: real, slerp: (Rot, Rot, real) -> Rot)
    requires percent == 1.0 || percent == 0.0
    ensures var b, src := BlendCar(lh, rh, percent, slerp), if percent == 1.0 then lh else rh;
            b.actor.location == src.actor.location && b.actor.velocity == src.actor.velocity
            && b.actor.angVelocity == src.actor.angVelocity && b.boostAmount == src.boostAmount
  {
    var src := if percent == 1.0 then lh else rh;
    var b := BlendCar(lh, rh, percent, slerp);
    MixBetween(lh.boostAmount, rh.boostAmount, percent);
    MixVecEnds(lh.actor.location, rh.actor.location, percent);
    MixVecEnds(lh.actor.velocity, rh.actor.velocity, percent);
    MixVecEnds(lh.actor.angVelocity, rh.actor.angVelocity, percent);
  }

  lemma MixVecEnds(l: Vec, r: Vec, percent: real)
    requires percent == 1.0 || percent == 0.0
    ensures MixVec(l, r, percent) == if percent == 1.0 then l else r
  {
    MixBetween(l.x, r.x, percent);
    MixBetween(l.y, r.y, percent);
    MixBetween(l.z, r.z, percent);
  }

  /** The dodge rule of a car blend, case by case; in the third case the jump
      time is blended with the same weight as the body, so it lies between the
      two sides' for a weight in [0, 1]. */
  lemma BlendDodge(lh: CarState, rh: CarState, percent: real, slerp: (Rot, Rot, real) -> Rot)
    requires 0.0 <= percent <= 1.0
    ensures var b := BlendCar(lh, rh, percent, slerp);
            b.boosting == lh.boosting
            && ((lh.lastJumped == NotJumped || rh.lastJumped == NotJumped)
                ==> b.lastJumped == NotJumped && b.hasDodge)
            && (lh.lastJumped != NotJumped && rh.lastJumped != NotJumped && rh.lastJumped < lh.lastJumped
                ==> b.lastJumped == 0.0 && b.hasDodge)
            && (lh.lastJumped != NotJumped && rh.lastJumped != NotJumped && lh.lastJumped <= rh.lastJumped
                ==> b.lastJumped == Mix(lh.lastJumped, rh.lastJumped, percent)
                    && lh.lastJumped <= b.lastJumped <= rh.lastJumped
                    && b.hasDodge == (b.lastJumped < MaxDodgeTime))
  {
    MixBetween(lh.lastJumped, rh.lastJumped, percent);
  }

  /** The blended clock never invents a time: it is -1 unless both sides have
      one, and then it is their midpoint, whatever the weight and whichever
      side is which. */
  lemma BlendTime(lh: GameState, rh: GameState, percent: real, slerp: (Rot, Rot, real) -> Rot)
    ensures var t := BlendGame(lh, rh, percent, slerp).time;
            t == BlendGame(rh, lh, 1.0 - percent, slerp).time
            && (forall q :: BlendGame(lh, rh, q, slerp).time == t)
            && (t == NoTime <== (lh.time == NoTime || rh.time == NoTime))
            && (lh.time != NoTime && rh.time != NoTime ==> t - lh.time == rh.time - t)
            && (lh.time != NoTime && rh.time != NoTime && lh.time <= rh.time ==> lh.time <= t <= rh.time)
  {
  }

  // ---------------------------------------------------------------------
  // Mirroring across the field's length axis.

  function MirrorVec(v: Vec): Vec { Vec(-v.x, v.y, v.z) }

  /** ActorState::mirror: negates location.X, velocity.X, angVelocity.Y and
      angVelocity.Z; the rotation goes through the host's quaternion code. */
  function MirrorActor(a: ActorState, mirrorRot: Rot -> Rot): ActorState {
    ActorState(MirrorVec(a.location), MirrorVec(a.velocity), mirrorRot(a.rotation),
               Vec(a.angVelocity.x, -a.angVelocity.y, -a.angVelocity.z))
  }

  /** CarState::mirror: only the body changes. */
  function MirrorCar(c: CarState, mirrorRot: Rot -> Rot): CarState {
    c.(actor := MirrorActor(c.actor, mirrorRot))
  }

  /** GameState::mirror starts from a default state, so the clock is lost. */
  function MirrorGame(g: GameState, mirrorRot: Rot -> Rot): GameState {
    GameState(MirrorActor(g.ball, mirrorRot), MirrorCar(g.car, mirrorRot), NoTime)
  }

  /** Mirroring twice restores every sign-flipped field, and the whole actor
      when the rotation part is itself an involution; the car's boost and jump
      bookkeeping are never touched. */
  lemma MirrorTwice(g: GameState, mirrorRot: Rot -> Rot)
    ensures var m := MirrorGame(MirrorGame(g, mirrorRot), mirrorRot);
            m.ball.location == g.ball.location && m.ball.velocity == g.ball.velocity
            && m.ball.angVelocity == g.ball.angVelocity
            && m.car.actor.location == g.car.actor.location && m.car.actor.velocity == g.car.actor.velocity
            && m.car.actor.angVelocity == g.car.actor.angVelocity
            && m.car.boostAmount == g.car.boostAmount && m.car.hasDodge == g.car.hasDodge
            && m.car.lastJumped == g.car.lastJumped && m.car.boosting == g.car.boosting
            && m.time == NoTime
            && ((forall r :: mirrorRot(mirrorRot(r)) == r) ==> m == g.(time := NoTime))
  {
  }

  /** Mirroring changes nothing but signs: each flipped component keeps its
      magnitude and every other component is untouched. */
  lemma MirrorFlipsOnly(a: ActorState, mirrorRot: Rot -> Rot)
    ensures var m := MirrorActor(a, mirrorRot);
            m.location.x == -a.location.x && m.location.y == a.location.y && m.location.z == a.location.z
            && m.velocity.x == -a.velocity.x && m.velocity.y == a.velocity.y && m.velocity.z == a.velocity.z
            && m.angVelocity.x == a.angVelocity.x && m.angVelocity.y == -a.angVelocity.y
            && m.angVelocity.z == -a.angVelocity.z
  {
  }

  // ---------------------------------------------------------------------
  // Reading a car from the host, and writing one back.

  /** What CarState(CarWrapper) reads from the host car. */
  datatype HostCar = HostCar(body: ActorState, jumped: bool, doubleJumped: bool,
                             hasJumpComponent: bool, jumpInactiveTime: real,
                             hasBoostComponent: bool, boost: real, boostActive: bool)

  /** The jump time is kept only if the car jumped and has a jump component. */
  function HostLastJumped(h: HostCar): real {
    if !h.jumped || !h.hasJumpComponent then NotJumped else h.jumpInactiveTime
  }

  /** CarState(CarWrapper c, float lastJumpedTime). */
  function CarFromHostAt(h: HostCar, lastJumped: real): (c: CarState)
    ensures c.actor == h.body && c.lastJumped == lastJumped
    ensures c.hasDodge <==> !h.doubleJumped && lastJumped < MaxDodgeTime
    ensures c.boostAmount == (if h.hasBoostComponent then h.boost else 0.0)
    ensures c.boosting <==> h.hasBoostComponent && h.boostActive
  {
    CarState(h.body, if h.hasBoostComponent then h.boost else 0.0,
             !h.doubleJumped && lastJumped < MaxDodgeTime, lastJumped,
             h.hasBoostComponent && h.boostActive)
  }

  /** CarState(CarWrapper c). */
  function CarFromHost(h: HostCar): CarState {
    CarFromHostAt(h, HostLastJumped(h))
  }

  /** A car that has not jumped, or has no jump component, reads as not
      jumped, and then it has its dodge exactly when it has not double-jumped;
      a car read from the host without a boost component has no boost. */
  lemma CarFromHostRule(h: HostCar)
    ensures var c := CarFromHost(h);
            (c.lastJumped == NotJumped <== (!h.jumped || !h.hasJumpComponent))
            && (h.jumped && h.hasJumpComponent ==> c.lastJumped == h.jumpInactiveTime)
            && (c.hasDodge <==> !h.doubleJumped && c.lastJumped < MaxDodgeTime)
            && ((!h.jumped || !h.hasJumpComponent) ==> (c.hasDodge <==> !h.doubleJumped))
            && (!h.hasBoostComponent ==> c.boostAmount == 0.0 && !c.boosting)
  {
  }

  /** CarState::apply: the body, boost (only with a boost component), both
      jump flags set to `!hasDodge`, and the boost flame shown only if asked. */
  function ApplyCar(c: CarState, h: HostCar, showBoost: bool): HostCar {
    h.(body := c.actor,
       boost := if h.hasBoostComponent then c.boostAmount else h.boost,
       jumped := !c.hasDodge, doubleJumped := !c.hasDodge,
       boostActive := if h.hasBoostComponent then showBoost && c.boosting else h.boostActive)
  }

  /** Applying a car and reading it back keeps its dodge: a car with a dodge
      is written as not jumped, one without as double-jumped.  Body and boost
      survive the round trip when the host car has a boost component. */
  lemma ApplyThenRead(c: CarState, h: HostCar, showBoost: bool)
    ensures var r := CarFromHost(ApplyCar(c, h, showBoost));
            r.hasDodge == c.hasDodge && r.actor == c.actor
            && (c.hasDodge ==> r.lastJumped == NotJumped)
            && (h.hasBoostComponent ==> r.boostAmount == c.boostAmount && (r.boosting <==> showBoost && c.boosting))
  {
    var h' := ApplyCar(c, h, showBoost);
    if c.hasDodge {
      assert !h'.jumped && !h'.doubleJumped;
      assert HostLastJumped(h') == NotJumped;
    } else {
      assert h'.doubleJumped;
    }
  }

  /** The host's game: its ball, its car, and the custom-training clock. */
  datatype HostGame = HostGame(ballBody: ActorState, car: HostCar, hasBall: bool, hasCar: bool,
                               inCustomTraining: bool, timeRemaining: real)

  /** GameState(gameWrapper): the clock is read only in custom training. */
  function GameFromHost(g: HostGame): (s: GameState)
    ensures s.ball == g.ballBody && s.car == CarFromHost(g.car)
    ensures s.time == (if g.inCustomTraining then g.timeRemaining else NoTime)
  {
    GameState(g.ballBody, CarFromHost(g.car), if g.inCustomTraining then g.timeRemaining else NoTime)
  }

  /** GameState(CarWrapper, BallWrapper), used for replays: no clock. */
  function GameFromCarBall(car: HostCar, ball: ActorState): (s: GameState)
    ensures s.time == NoTime && s.ball == ball && s.car == CarFromHost(car)
  {
    GameState(ball, CarFromHost(car), NoTime)
  }

  /** GameState::apply: nothing without a ball and a car, and a state without
      a clock is never loaded into custom training. */
  function ApplyGame(s: GameState, g: HostGame, showBoost: bool): HostGame {
    if !g.hasBall || !g.hasCar then g
    else if g.inCustomTraining && s.time == NoTime then g
    else g.(ballBody := s.ball, car := ApplyCar(s.car, g.car, showBoost),
            timeRemaining := if g.inCustomTraining then s.time else g.timeRemaining)
  }

  /** Reading back an applied state gives the state itself, up to what the
      host cannot hold (the jump time of a car with a dodge, the boost without
      a boost component), whenever the apply was not refused. */
  lemma ApplyGameThenRead(s: GameState, g: HostGame, showBoost: bool)
    requires g.hasBall && g.hasCar && g.car.hasBoostComponent
    requires g.inCustomTraining ==> s.time != NoTime
    ensures var r := GameFromHost(ApplyGame(s, g, showBoost));
            r.ball == s.ball && r.car.actor == s.car.actor && r.car.hasDodge == s.car.hasDodge
            && r.car.boostAmount == s.car.boostAmount
            && r.time == (if g.inCustomTraining then s.time else NoTime)
  {
    ApplyThenRead(s.car, g.car, showBoost);
  }

  /** An apply is refused, leaving the host untouched, exactly without a ball
      or a car, or for a clockless state in custom training; otherwise the
      host holds the state's ball. */
  lemma ApplyGameRefused(s: GameState, g: HostGame, showBoost: bool)
    ensures (!g.hasBall || !g.hasCar || (g.inCustomTraining && s.time == NoTime))
            ==> ApplyGame(s, g, showBoost) == g
    ensures !(!g.hasBall || !g.hasCar || (g.inCustomTraining && s.time == NoTime))
            ==> ApplyGame(s, g, showBoost).ballBody == s.ball
                && ApplyGame(s, g, showBoost).car.jumped == !s.car.hasDodge
  {
  }
}
