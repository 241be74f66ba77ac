/** The per-shape animation state of ornament.c (ShapeRuntime) and its per-frame update
    (update_shape): a hue that cycles, a fast continuous spin, and now and then a slow
    reorientation towards a freshly drawn target orientation.

    Floating point is modelled by real numbers. The quaternion builders that need
    trigonometry (q_from_euler, q_slerp, q_from_axis_angle) are passed in as a QuatOps
    record of function values, and every frand_range draw is passed in as a unit value
    u in [0, 1] (the frand01 result) that FrandRange scales to its interval. */
module Animator {
  import opened VecMath
  import opened Config
  import opened Wire

  /** The quaternion builders update_shape and the runtime setup call. */
  datatype QuatOps = QuatOps(fromEuler: (real, real, real) -> Quat,
                             slerp: (Quat, Quat, real) -> Quat,
                             fromAxisAngle: (Vec3, real) -> Quat)

  /** frand_range(a, b) for the frand01 draw u. */
  function FrandRange(a: real, b: real, u: real): real
  {
    a + (b - a) * u
  }

  /** Draws lie where frand01 puts them. */
  predicate Unit(u: real) { 0.0 <= u <= 1.0 }

  /** fmodf(x, 1.0f): whole units are taken off towards zero until what is left lies
      strictly between -1 and 1, so the result keeps the sign of x. */
  function Fmod1(x: real): real
    decreases Size(x)
  {
    if x >= 1.0 then Fmod1(x - 1.0)
    else if x <= -1.0 then Fmod1(x + 1.0)
    else x
  }

  /** How many whole units fmodf takes off. */
  function Size(x: real): nat
  {
    if x >= 0.0 then x.Floor else (-x).Floor
  }

  /** C's truncation of a real towards zero. */
  function Trunc(x: real): int
  {
    if x >= 0.0 then x.Floor else -((-x).Floor)
  }

  /** fmodf(x, 1) is x minus its truncation towards zero. */
  lemma {:induction false} Fmod1Closed(x: real)
    ensures Fmod1(x) == x - Trunc(x) as real
    decreases Size(x)
  {
    if x >= 1.0 {
      Fmod1Closed(x - 1.0);
    } else if x <= -1.0 {
      Fmod1Closed(x + 1.0);
    }
  }

  /** fmodf(x, 1) lies in [0, 1) for x >= 0 and in (-1, 0] for x < 0. */
  lemma Fmod1Range(x: real)
    ensures x >= 0.0 ==> 0.0 <= Fmod1(x) < 1.0
    ensures x < 0.0 ==> -1.0 < Fmod1(x) <= 0.0
  {
    Fmod1Closed(x);
  }

  /** s->hue = fmodf(s->hue + s->hueSpeed*dt, 1.0f): the colour cycle of RANDOM shapes. */
  function NextHue(hue: real, hueSpeed: real, dt: real): real
  {
    Fmod1(hue + hueSpeed * dt)
  }

  /** With a non-negative hue, speed and time step the hue lands in [0, 1). */
  lemma HueStaysUnit(hue: real, hueSpeed: real, dt: real)
    requires hue >= 0.0 && hueSpeed >= 0.0 && dt >= 0.0
    ensures 0.0 <= NextHue(hue, hueSpeed, dt) < 1.0
  {
    assert hueSpeed * dt >= 0.0;
    Fmod1Range(hue + hueSpeed * dt);
  }

  /** The motion fields update_shape changes: orientation, target orientation, seconds
      until the next reorientation, and the progress of the current one. */
  datatype Animation = Animation(orient: Quat, target: Quat, timer: real, t: real)

  /** The fields drawn once at setup and only read afterwards: hue speed (Hz), spin rates
      (degrees per second) and the duration of a reorientation (seconds). */
  datatype Traits = Traits(hueSpeed: real, spinY: real, spinX: real, dur: real)

  /** The draws one frame may consume: three Euler angles for a new target and a new
      timer after a reorientation completes. */
  datatype FrameDraws = FrameDraws(pitch: real, yaw: real, roll: real, timer: real)

  predicate UnitFrame(d: FrameDraws)
  {
    Unit(d.pitch) && Unit(d.yaw) && Unit(d.roll) && Unit(d.timer)
  }

  /** The three modes of one update: plain spinning, spinning at half speed while
      interpolating towards the target, and the snap that ends a reorientation. */
  datatype Phase = Spinning | Interpolating | Snapping

  /** Which branch update_shape takes: the reorientation branch is entered when the
      decremented timer has run out or a reorientation is under way, and it snaps once
      the progress reaches 1. */
  function PhaseOf(a: Animation, p: Traits, dt: real): Phase
    requires p.dur != 0.0
  {
    if !(a.timer - dt <= 0.0 || a.t > 0.0) then Spinning
    else if a.t + dt / p.dur >= 1.0 then Snapping
    else Interpolating
  }

  /** The target after the branch is entered: redrawn in [-1.5, 1.5]^3 when no
      reorientation was under way, kept otherwise. */
  function Retarget(a: Animation, ops: QuatOps, d: FrameDraws): Quat
  {
    if a.t == 0.0 then EulerTarget(ops, d) else a.target
  }

  /** q_from_euler of three draws in [-1.5, 1.5]. */
  function EulerTarget(ops: QuatOps, d: FrameDraws): Quat
  {
    ops.fromEuler(FrandRange(-1.5, 1.5, d.pitch), FrandRange(-1.5, 1.5, d.yaw), FrandRange(-1.5, 1.5, d.roll))
  }

  /** dq: yaw about the y axis times pitch about the x axis, for spin rates scaled by
      scale over dt seconds, degrees converted to radians. */
  function Spin(spinY: real, spinX: real, scale: real, dt: real, ops: QuatOps): Quat
  {
    QMul(ops.fromAxisAngle(Vec3(0.0, 1.0, 0.0), spinY * scale * dt * Pi / 180.0),
         ops.fromAxisAngle(Vec3(1.0, 0.0, 0.0), spinX * scale * dt * Pi / 180.0))
  }

  /** The reorientation part of update_shape, before the spin is applied: the timer
      counts down; once a reorientation is under way the orientation is slerped towards
      the target, and when the progress reaches 1 it snaps to the target, the progress is
      reset and the timer redrawn in [4, 8]. */
  function Reorient(a: Animation, p: Traits, dt: real, ops: QuatOps, d: FrameDraws): Animation
    requires p.dur != 0.0
  {
    match PhaseOf(a, p, dt)
    case Spinning => a.(timer := a.timer - dt)
    case Snapping =>
      var target := Retarget(a, ops, d);
      a.(orient := target, target := target, timer := FrandRange(4.0, 8.0, d.timer), t := 0.0)
    case Interpolating =>
      var target := Retarget(a, ops, d);
      var t := a.t + dt / p.dur;
      a.(orient := ops.slerp(a.orient, target, t), target := target, timer := a.timer - dt, t := t)
  }

  /** The spin runs at half speed while a reorientation is interpolating, at full speed
      otherwise. */
  function SpinScale(a: Animation, p: Traits, dt: real): real
    requires p.dur != 0.0
  {
    if PhaseOf(a, p, dt) == Interpolating then 0.5 else 1.0
  }

  /** One call of update_shape on the motion fields: the reorientation moves on, then
      the frame's spin is applied to the orientation. */
  function Step(a: Animation, p: Traits, dt: real, ops: QuatOps, d: FrameDraws): Animation
    requires p.dur != 0.0
  {
    var r := Reorient(a, p, dt, ops, d);
    r.(orient := QMul(Spin(p.spinY, p.spinX, SpinScale(a, p, dt), dt, ops), r.orient))
  }

  /** The ranges setup draws the traits from. */
  predicate TraitsInRange(p: Traits)
  {
    0.25 <= p.hueSpeed <= 0.5 && 180.0 <= p.spinY <= 360.0 && 15.0 <= p.spinX <= 45.0 && 1.5 <= p.dur <= 2.5
  }

  /** The invariant of a runtime shape's motion: traits in their ranges and the
      reorientation progress in [0, 1). */
  predicate ValidAnimation(a: Animation, p: Traits)
  {
    TraitsInRange(p) && 0.0 <= a.t < 1.0
  }

  /** The reorientation progress stays in [0, 1) for dt >= 0 and a positive duration. */
  lemma ProgressStaysUnit(a: Animation, p: Traits, dt: real, ops: QuatOps, d: FrameDraws)
    requires p.dur > 0.0 && dt >= 0.0 && 0.0 <= a.t < 1.0
    ensures 0.0 <= Step(a, p, dt, ops, d).t < 1.0
  {
    assert dt / p.dur >= 0.0;
  }

  /** The target changes only when a reorientation starts (the branch is entered with
      progress 0), and then it is the Euler rotation of the three draws. */
  lemma TargetOnlyOnStart(a: Animation, p: Traits, dt: real, ops: QuatOps, d: FrameDraws)
    requires p.dur != 0.0
    ensures var b := Step(a, p, dt, ops, d);
      PhaseOf(a, p, dt) != Spinning && a.t == 0.0 ==>
        b.target == ops.fromEuler(FrandRange(-1.5, 1.5, d.pitch), FrandRange(-1.5, 1.5, d.yaw), FrandRange(-1.5, 1.5, d.roll))
    ensures var b := Step(a, p, dt, ops, d);
      b.target != a.target ==> PhaseOf(a, p, dt) != Spinning && a.t == 0.0
    ensures PhaseOf(a, p, dt) == Spinning <==> a.timer - dt > 0.0 && a.t <= 0.0
  {
  }

  /** When the progress reaches 1 the shape snaps to the target, the progress is reset,
      the timer is redrawn in [4, 8], and the full-speed spin of the frame is still
      applied on top of the target. */
  lemma SnapCompletes(a: Animation, p: Traits, dt: real, ops: QuatOps, d: FrameDraws)
    requires p.dur != 0.0 && UnitFrame(d) && PhaseOf(a, p, dt) == Snapping
    ensures var b := Step(a, p, dt, ops, d);
      b.t == 0.0 && 4.0 <= b.timer <= 8.0 && b.orient == QMul(Spin(p.spinY, p.spinX, 1.0, dt, ops), b.target)
  {
  }

  /** For a valid shape and dt >= 0, a positive progress after the update means the
      update was interpolating (the only half-speed branch); plain spinning leaves the
      progress at 0 and the target alone and only counts the timer down. */
  lemma PhasesObservable(a: Animation, p: Traits, dt: real, ops: QuatOps, d: FrameDraws)
    requires ValidAnimation(a, p) && dt >= 0.0
    ensures Step(a, p, dt, ops, d).t > 0.0 ==> PhaseOf(a, p, dt) == Interpolating
    ensures PhaseOf(a, p, dt) == Spinning ==>
      var b := Step(a, p, dt, ops, d);
      b.t == 0.0 && b.target == a.target && b.timer == a.timer - dt > 0.0
    ensures PhaseOf(a, p, dt) == Interpolating ==>
      var b := Step(a, p, dt, ops, d);
      b.t == a.t + dt / p.dur && b.orient == QMul(Spin(p.spinY, p.spinX, 0.5, dt, ops), ops.slerp(a.orient, b.target, b.t))
  {
  }

  /** update_shape keeps a runtime shape valid. */
  lemma StepValid(a: Animation, p: Traits, dt: real, ops: QuatOps, d: FrameDraws)
    requires ValidAnimation(a, p) && dt >= 0.0
    ensures ValidAnimation(Step(a, p, dt, ops, d), p)
  {
    ProgressStaysUnit(a, p, dt, ops, d);
  }

  /** The nine draws of the setup, in the order the source makes them. */
  datatype SpawnDraws = SpawnDraws(hue: real, hueSpeed: real, pitch: real, yaw: real, roll: real,
                                   spinY: real, spinX: real, timer: real, dur: real)

  predicate UnitSpawn(d: SpawnDraws)
  {
    Unit(d.hue) && Unit(d.hueSpeed) && Unit(d.pitch) && Unit(d.yaw) && Unit(d.roll)
    && Unit(d.spinY) && Unit(d.spinX) && Unit(d.timer) && Unit(d.dur)
  }

  /** The traits a new runtime shape gets. */
  function SpawnTraits(d: SpawnDraws): Traits
  {
    Traits(FrandRange(0.25, 0.5, d.hueSpeed), FrandRange(180.0, 360.0, d.spinY),
           FrandRange(15.0, 45.0, d.spinX), FrandRange(1.5, 2.5, d.dur))
  }

  /** The animated fields a new runtime shape starts with: the identity orientation, an
      Euler target drawn in [-1, 1]^3 and no reorientation under way. */
  function SpawnAnimation(ops: QuatOps, d: SpawnDraws): Animation
  {
    Animation(QIdent(),
              ops.fromEuler(FrandRange(-1.0, 1.0, d.pitch), FrandRange(-1.0, 1.0, d.yaw), FrandRange(-1.0, 1.0, d.roll)),
              FrandRange(4.0, 8.0, d.timer), 0.0)
  }

  /** A freshly set-up shape is valid, waits 4 to 8 seconds before its first
      reorientation and starts from the identity orientation. */
  lemma SpawnValid(ops: QuatOps, d: SpawnDraws)
    requires UnitSpawn(d)
    ensures ValidAnimation(SpawnAnimation(ops, d), SpawnTraits(d))
    ensures 4.0 <= SpawnAnimation(ops, d).timer <= 8.0 && SpawnAnimation(ops, d).orient == QIdent()
  {
  }

  /** q_mul has the identity quaternion as a unit on both sides. */
  lemma QMulIdentity(q: Quat)
    ensures QMul(QIdent(), q) == q && QMul(q, QIdent()) == q
  {
  }

  /** One entry of the runtime array. */
  class ShapeRuntime {
    var shape: ShapeKind
    var color: ColorKind
    var hue: real
    var hueSpeed: real
    var orient: Quat
    var target: Quat
    var spinY: real
    var spinX: real
    var reorientTimer: real
    var reorientDur: real
    var reorientT: real
    var worldPos: Vec3
    var geom: Mesh

    function Current(): Animation
      reads this
    {
      Animation(orient, target, reorientTimer, reorientT)
    }

    function CurrentTraits(): Traits
      reads this
    {
      Traits(hueSpeed, spinY, spinX, reorientDur)
    }

    /** Traits in range, hue in [0, 1] and the progress in [0, 1). */
    predicate Valid()
      reads this
    {
      ValidAnimation(Current(), CurrentTraits()) && 0.0 <= hue <= 1.0
    }

    /** The setup in main: kind and colour from the configuration, a drawn hue, hue
        speed, target, spin rates, timer and duration, the placement and the mesh. */
    constructor (sc: ShapeConfig, pos: Vec3, g: Mesh, ops: QuatOps, d: SpawnDraws)
      ensures shape == sc.shape && color == sc.color && worldPos == pos && geom == g
      ensures hue == d.hue && Current() == SpawnAnimation(ops, d) && CurrentTraits() == SpawnTraits(d)
      ensures UnitSpawn(d) ==> Valid()
    {
      shape, color := sc.shape, sc.color;
      hue, hueSpeed := d.hue, FrandRange(0.25, 0.5, d.hueSpeed);
      orient := QIdent();
      target := ops.fromEuler(FrandRange(-1.0, 1.0, d.pitch), FrandRange(-1.0, 1.0, d.yaw), FrandRange(-1.0, 1.0, d.roll));
      spinY, spinX := FrandRange(180.0, 360.0, d.spinY), FrandRange(15.0, 45.0, d.spinX);
      reorientTimer, reorientDur, reorientT := FrandRange(4.0, 8.0, d.timer), FrandRange(1.5, 2.5, d.dur), 0.0;
      worldPos, geom := pos, g;
      new;
      if UnitSpawn(d) {
        SpawnValid(ops, d);
      }
    }

    /** update_shape(s, dt): the hue advances by NextHue, the motion fields move on by
        Step, nothing else changes, and a valid shape stays valid. */
    method Update(dt: real, ops: QuatOps, d: FrameDraws)
      requires reorientDur != 0.0
      modifies this
      ensures hue == NextHue(old(hue), old(hueSpeed), dt)
      ensures Current() == Step(old(Current()), old(CurrentTraits()), dt, ops, d)
      ensures CurrentTraits() == old(CurrentTraits())
      ensures shape == old(shape) && color == old(color) && worldPos == old(worldPos) && geom == old(geom)
      ensures old(Valid()) && dt >= 0.0 ==> Valid()
    {
      if Valid() && dt >= 0.0 {
        StepValid(Current(), CurrentTraits(), dt, ops, d);
        HueStaysUnit(hue, hueSpeed, dt);
      }
      AdvanceHue(dt);
      var spinScale := Reorientation(dt, ops, d);
      ApplySpin(spinScale, dt, ops);
    }

    /** s->hue = fmodf(s->hue + s->hueSpeed*dt, 1.0f). */
    method AdvanceHue(dt: real)
      modifies this
      ensures hue == NextHue(old(hue), old(hueSpeed), dt)
      ensures orient == old(orient) && target == old(target) && reorientTimer == old(reorientTimer) && reorientT == old(reorientT)
      ensures CurrentTraits() == old(CurrentTraits())
      ensures shape == old(shape) && color == old(color) && worldPos == old(worldPos) && geom == old(geom)
    {
      hue := Fmod1(hue + hueSpeed * dt);
    }

    /** The timer countdown and the reorientation branch; returns spinScale. */
    method Reorientation(dt: real, ops: QuatOps, d: FrameDraws) returns (spinScale: real)
      requires reorientDur != 0.0
      modifies this
      ensures Current() == Reorient(old(Current()), old(CurrentTraits()), dt, ops, d)
      ensures spinScale == SpinScale(old(Current()), old(CurrentTraits()), dt)
      ensures hue == old(hue) && CurrentTraits() == old(CurrentTraits())
      ensures shape == old(shape) && color == old(color) && worldPos == old(worldPos) && geom == old(geom)
    {
      reorientTimer := reorientTimer - dt;
      spinScale := 1.0;
      if reorientTimer <= 0.0 || reorientT > 0.0 {
        if reorientT == 0.0 {
          target := EulerTarget(ops, d);
        }
        reorientT := reorientT + dt / reorientDur;
        if reorientT >= 1.0 {
          orient := target;
          reorientT := 0.0;
          reorientTimer := FrandRange(4.0, 8.0, d.timer);
        } else {
          orient := ops.slerp(orient, target, reorientT);
          spinScale := 0.5;
        }
      }
    }

    /** The continuous spin: dq from the scaled spin rates, then orient = dq * orient. */
    method ApplySpin(spinScale: real, dt: real, ops: QuatOps)
      modifies this
      ensures orient == QMul(Spin(old(spinY), old(spinX), spinScale, dt, ops), old(orient))
      ensures hue == old(hue) && target == old(target) && reorientTimer == old(reorientTimer) && reorientT == old(reorientT)
      ensures CurrentTraits() == old(CurrentTraits())
      ensures shape == old(shape) && color == old(color) && worldPos == old(worldPos) && geom == old(geom)
    {
      var dYaw := spinY * spinScale * dt * Pi / 180.0;
      var dPitch := spinX * spinScale * dt * Pi / 180.0;
      var dq := QMul(ops.fromAxisAngle(Vec3(0.0, 1.0, 0.0), dYaw), ops.fromAxisAngle(Vec3(1.0, 0.0, 0.0), dPitch));
      orient := QMul(dq, orient);
    }
  }
}
