/** The player ship's control state machine. State 0 is control without
    weapons, 1 normal play, 2 flying in and 3 flying out. In states 0 and 1
    the ship drifts by its speed and wraps around the screen, and thrust and
    turn commands take effect; in states 2 and 3 it follows a curve frame by
    frame and returns to state 1 when the curve ends. */
module ShipControl {
  import opened MeshTypes

  const ShipAccel: real := 0.1
  const ShipRotSpeed: real := 4.0
  /** How far past an edge the ship travels before it reappears at the other. */
  const WrapDist: real := 20.0

  /** The playing field: its width and height, and the camera's distance. */
  datatype Screen = Screen(width: real, height: real, distance: real)

  /** One point of a flight curve: position, then the angles theta and phi. */
  datatype Sample = Sample(pos: Vec3, theta: real, phi: real)

  /** Everything the control methods read and write, apart from the curve itself. */
  datatype Pose = Pose(
    state: int,
    t: int,
    tmax: int,
    pos: Vec3,
    speed: Vec3,
    theta: real,
    phi: real,
    rot: real,
    thrusting: bool,
    turning: real)

  function Add(a: Vec3, b: Vec3): Vec3
  {
    Vec3(a.x + b.x, a.y + b.y, a.z + b.z)
  }

  function Times(k: real, a: Vec3): Vec3
  {
    Vec3(k * a.x, k * a.y, k * a.z)
  }

  /** A state the dispatch in `update` can index. */
  predicate KnownState(p: Pose)
  {
    0 <= p.state <= 3
  }

  /** Thrust and turn commands are obeyed only under control. */
  predicate UnderControl(p: Pose)
  {
    p.state == 0 || p.state == 1
  }

  /** One coordinate after leaving the field on one side: it reappears just
      beyond the other side. */
  function Wrap(c: real, limit: real): (r: real)
    ensures limit >= 0.0 ==> -WrapDist <= r <= limit + WrapDist
    ensures -WrapDist <= c <= limit + WrapDist ==> r == c
    ensures r != c ==> (c > limit + WrapDist && r == -WrapDist) || (c < -WrapDist && r == limit + WrapDist)
  {
    if c > limit + WrapDist then -WrapDist
    else if c < -WrapDist then limit + WrapDist
    else c
  }

  /** The ship as the constructor leaves it before starting the fly-in. */
  function Initial(screen: Screen): Pose
  {
    Pose(0, 0, 0, Vec3(screen.width / 2.0, screen.height / 2.0, 0.0), Vec3(0.0, 0.0, 0.0), 30.0, 0.0, 0.0, false, 0.0)
  }

  /** Starting a fly-in: state 2 at frame 0 of a 100-frame curve, placed
      behind the camera and pointing down the screen. */
  function FlownIn(p: Pose, screen: Screen): Pose
  {
    p.(state := 2, t := 0, tmax := 100,
       pos := Vec3(screen.width * 0.6, screen.height / 2.0, screen.distance * 1.1),
       theta := 90.0, phi := -90.0)
  }

  /** Starting a fly-out: state 3 at frame 0 of a 200-frame curve that starts
      where the ship is. */
  function FlownOut(p: Pose): Pose
  {
    p.(state := 3, t := 0, tmax := 200)
  }

  function Thrusted(p: Pose, on: bool): Pose
  {
    if UnderControl(p) then p.(thrusting := on) else p
  }

  function Turned(p: Pose, dir: real): Pose
  {
    if UnderControl(p) then p.(turning := dir) else p
  }

  /** A frame under control: move by the speed, then wrap x and y. */
  function NormalStep(p: Pose, screen: Screen): Pose
  {
    var moved := Add(p.pos, p.speed);
    p.(pos := Vec3(Wrap(moved.x, screen.width), Wrap(moved.y, screen.height), moved.z))
  }

  /** A frame of flight: the next curve sample, a spin about the ship's axis,
      and state 1 once the curve is over. */
  function BezierStep(p: Pose, curve: int -> Sample): Pose
  {
    var t := p.t + 1;
    var s := curve(t);
    p.(t := t, rot := p.rot + 2.0, pos := s.pos, theta := s.theta, phi := s.phi,
       state := if t >= p.tmax then 1 else p.state)
  }

  /** One frame: the step for the state, then thrust along the heading the
      step left, then the turn. `direction` maps theta and phi to the heading. */
  function Tick(p: Pose, screen: Screen, curve: int -> Sample, direction: (real, real) -> Vec3): (r: Pose)
    requires KnownState(p)
    ensures KnownState(r)
  {
    var stepped := if UnderControl(p) then NormalStep(p, screen) else BezierStep(p, curve);
    var pushed := if stepped.thrusting then stepped.(speed := Add(stepped.speed, Times(ShipAccel, direction(stepped.theta, stepped.phi)))) else stepped;
    if pushed.turning != 0.0 then pushed.(theta := pushed.theta + ShipRotSpeed * pushed.turning, rot := pushed.theta + ShipRotSpeed * pushed.turning)
    else pushed
  }

  /** `n` frames in a row. */
  function Ticks(p: Pose, screen: Screen, curve: int -> Sample, direction: (real, real) -> Vec3, n: nat): (r: Pose)
    requires KnownState(p)
    ensures KnownState(r)
    decreases n
  {
    if n == 0 then p else Ticks(Tick(p, screen, curve, direction), screen, curve, direction, n - 1)
  }

  /** A fresh ship is flying in, at frame 0. */
  lemma FreshShipFliesIn(screen: Screen)
    ensures var p := FlownIn(Initial(screen), screen);
      p.state == 2 && p.t == 0 && p.tmax == 100 && !p.thrusting && p.turning == 0.0
  {
  }

  /** Commands are ignored in flight; under control each sets only its own field. */
  lemma CommandsOnlyUnderControl(p: Pose, on: bool, dir: real)
    ensures !UnderControl(p) ==> Thrusted(p, on) == p && Turned(p, dir) == p
    ensures UnderControl(p) ==> Thrusted(p, on).thrusting == on && Thrusted(p, on).(thrusting := p.thrusting) == p
    ensures UnderControl(p) ==> Turned(p, dir).turning == dir && Turned(p, dir).(turning := p.turning) == p
  {
  }

  /** A frame under control keeps x and y within the field widened by the
      wrap distance, moves z by the speed, and leaves the speed alone. */
  lemma NormalStepStaysOnField(p: Pose, screen: Screen)
    requires screen.width >= 0.0 && screen.height >= 0.0
    ensures var r := NormalStep(p, screen);
      && -WrapDist <= r.pos.x <= screen.width + WrapDist
      && -WrapDist <= r.pos.y <= screen.height + WrapDist
      && r.pos.z == p.pos.z + p.speed.z
      && r.speed == p.speed && r.state == p.state && r.t == p.t
  {
  }

  /** A ship that stays on the field moves by exactly its speed. */
  lemma NormalStepWithoutWrap(p: Pose, screen: Screen)
    requires -WrapDist <= p.pos.x + p.speed.x <= screen.width + WrapDist
    requires -WrapDist <= p.pos.y + p.speed.y <= screen.height + WrapDist
    ensures NormalStep(p, screen).pos == Add(p.pos, p.speed)
  {
  }

  /** A frame of flight advances the frame counter by one and the spin by 2,
      and ends the flight exactly when the counter reaches the curve's length. */
  lemma BezierStepAdvances(p: Pose, curve: int -> Sample)
    ensures var r := BezierStep(p, curve);
      && r.t == p.t + 1 && r.rot == p.rot + 2.0
      && (r.state == 1 <==> p.t + 1 >= p.tmax || p.state == 1)
      && (p.t + 1 < p.tmax ==> r.state == p.state)
      && r.pos == curve(p.t + 1).pos
      && r.theta == curve(p.t + 1).theta && r.phi == curve(p.t + 1).phi
  {
  }

  /** States 0 and 1 take the normal step, 2 and 3 the flight step. */
  lemma TickDispatch(p: Pose, screen: Screen, curve: int -> Sample, direction: (real, real) -> Vec3)
    requires KnownState(p)
    ensures var r := Tick(p, screen, curve, direction);
      && (UnderControl(p) ==> r.t == p.t && r.state == p.state && r.pos == NormalStep(p, screen).pos)
      && (!UnderControl(p) ==> r.t == p.t + 1 && r.pos == curve(p.t + 1).pos)
  {
  }

  /** Thrust adds a tenth of the heading the frame's step left; without
      thrust the speed stays. */
  lemma TickThrust(p: Pose, screen: Screen, curve: int -> Sample, direction: (real, real) -> Vec3)
    requires KnownState(p)
    ensures var r := Tick(p, screen, curve, direction);
      var stepped := if UnderControl(p) then NormalStep(p, screen) else BezierStep(p, curve);
      r.speed == if p.thrusting then Add(p.speed, Times(ShipAccel, direction(stepped.theta, stepped.phi))) else p.speed
  {
  }

  /** A turning ship turns by four degrees per unit of turn, and its spin
      follows its heading. */
  lemma TickTurn(p: Pose, screen: Screen, curve: int -> Sample, direction: (real, real) -> Vec3)
    requires KnownState(p)
    ensures var r := Tick(p, screen, curve, direction);
      var stepped := if UnderControl(p) then NormalStep(p, screen) else BezierStep(p, curve);
      && (p.turning != 0.0 ==> r.theta == stepped.theta + ShipRotSpeed * p.turning && r.rot == r.theta)
      && (p.turning == 0.0 ==> r.theta == stepped.theta && r.rot == stepped.rot)
  {
  }

  /** The only way into state 1 is the end of a flight: no command and no
      frame leads there from another state otherwise. */
  lemma OnlyFlightEndEntersPlay(p: Pose, screen: Screen, curve: int -> Sample, direction: (real, real) -> Vec3, on: bool, dir: real)
    requires KnownState(p) && p.state != 1
    ensures Tick(p, screen, curve, direction).state == 1 ==> (p.state == 2 || p.state == 3) && p.t + 1 >= p.tmax
    ensures Thrusted(p, on).state != 1 && Turned(p, dir).state != 1
    ensures FlownIn(p, screen).state != 1 && FlownOut(p).state != 1
  {
  }

  /** A flight of `tmax` frames started at frame 0 ends after exactly `tmax`
      frames: before that the ship stays in flight, counting frames. */
  lemma {:induction false} FlightLength(p: Pose, screen: Screen, curve: int -> Sample, direction: (real, real) -> Vec3, n: nat)
    requires p.state == 2 || p.state == 3
    requires 0 <= p.t && p.t + n <= p.tmax
    ensures var r := Ticks(p, screen, curve, direction, n);
      && r.t == p.t + n
      && r.state == (if n > 0 && p.t + n == p.tmax then 1 else p.state)
    decreases n
  {
    if n > 0 {
      var q := Tick(p, screen, curve, direction);
      assert q.t == p.t + 1;
      if n == 1 {
        assert Ticks(q, screen, curve, direction, 0) == q;
      } else {
        assert q.state == p.state;
        FlightLength(q, screen, curve, direction, n - 1);
      }
    }
  }

  /** A fly-in lasts 100 frames and then hands the ship over to normal play. */
  lemma FlyInLands(p: Pose, screen: Screen, curve: int -> Sample, direction: (real, real) -> Vec3)
    ensures Ticks(FlownIn(p, screen), screen, curve, direction, 99).state == 2
    ensures Ticks(FlownIn(p, screen), screen, curve, direction, 100).state == 1
  {
    FlightLength(FlownIn(p, screen), screen, curve, direction, 99);
    FlightLength(FlownIn(p, screen), screen, curve, direction, 100);
  }

  /** The player's ship. */
  class Ship {
    const screen: Screen
    var state: int
    var t: int
    var tmax: int
    var curve: int -> Sample
    var pos: Vec3
    var speed: Vec3
    var theta: real
    var phi: real
    var rot: real
    var thrusting: bool
    var turning: real

    /** The fields the specification functions speak about. */
    function Snapshot(): Pose
      reads this
    {
      Pose(state, t, tmax, pos, speed, theta, phi, rot, thrusting, turning)
    }

    ghost predicate Valid()
      reads this
    {
      KnownState(Snapshot())
    }

    /** A new ship, already flying in along `flight`. */
    constructor (screen: Screen, flight: int -> Sample)
      ensures Valid()
      ensures this.screen == screen && curve == flight
      ensures Snapshot() == FlownIn(Initial(screen), screen)
    {
      this.screen := screen;
      pos := Vec3(screen.width / 2.0, screen.height / 2.0, 0.0);
      state := 0;
      theta := 30.0;
      phi := 0.0;
      rot := 0.0;
      speed := Vec3(0.0, 0.0, 0.0);
      thrusting := false;
      turning := 0.0;
      t := 0;
      tmax := 0;
      curve := flight;
      new;
      FlyIn(flight);
    }

    method FlyIn(flight: int -> Sample)
      modifies this`state, this`t, this`tmax, this`curve, this`pos, this`theta, this`phi
      ensures Valid()
      ensures curve == flight
      ensures Snapshot() == FlownIn(old(Snapshot()), screen)
    {
      state := 2;
      pos := Vec3(screen.width * 0.6, screen.height / 2.0, screen.distance * 1.1);
      theta := 90.0;
      phi := -90.0;
      t := 0;
      curve := flight;
      tmax := 100;
    }

    method FlyOut(flight: int -> Sample)
      modifies this`state, this`t, this`tmax, this`curve
      ensures Valid()
      ensures curve == flight
      ensures Snapshot() == FlownOut(old(Snapshot()))
    {
      state := 3;
      t := 0;
      curve := flight;
      tmax := 200;
    }

    method Thrust(on: bool)
      modifies this`thrusting
      ensures Snapshot() == Thrusted(old(Snapshot()), on)
    {
      if state != 0 && state != 1 {
        return;
      }
      thrusting := on;
    }

    method Turn(dir: real)
      modifies this`turning
      ensures Snapshot() == Turned(old(Snapshot()), dir)
    {
      if state != 0 && state != 1 {
        return;
      }
      turning := dir;
    }

    method UpdateNormal()
      modifies this`pos
      ensures Snapshot() == NormalStep(old(Snapshot()), screen)
    {
      pos := Add(pos, speed);
      if pos.x > screen.width + WrapDist {
        pos := pos.(x := -WrapDist);
      } else if pos.x < -WrapDist {
        pos := pos.(x := screen.width + WrapDist);
      }
      if pos.y > screen.height + WrapDist {
        pos := pos.(y := -WrapDist);
      } else if pos.y < -WrapDist {
        pos := pos.(y := screen.height + WrapDist);
      }
    }

    method UpdateBezier()
      modifies this`t, this`rot, this`pos, this`theta, this`phi, this`state
      ensures Snapshot() == BezierStep(old(Snapshot()), curve)
    {
      t := t + 1;
      rot := rot + 2.0;
      var current := curve(t);
      pos := current.pos;
      theta := current.theta;
      phi := current.phi;
      if t >= tmax {
        state := 1;
      }
    }

    /** One frame; `direction` gives the heading for theta and phi. */
    method Update(direction: (real, real) -> Vec3)
      requires Valid()
      modifies this`t, this`rot, this`pos, this`theta, this`phi, this`state, this`speed
      ensures Valid()
      ensures Snapshot() == Tick(old(Snapshot()), screen, curve, direction)
    {
      if state == 0 || state == 1 {
        UpdateNormal();
      } else {
        UpdateBezier();
      }
      if thrusting {
        speed := Add(speed, Times(ShipAccel, direction(theta, phi)));
      }
      if turning != 0.0 {
        theta := theta + ShipRotSpeed * turning;
        rot := theta;
      }
    }
  }
}
