/** Straight-line motion of the virtual vehicle along an edge, and the charge it takes, in exact arithmetic. */
module VehicleMotion {
  import opened Multiples
  import opened Orders

  datatype Vec = Vec(x: real, y: real)

  function Minus(a: Vec, b: Vec): Vec {
    Vec(a.x - b.x, a.y - b.y)
  }

  function Plus(a: Vec, b: Vec): Vec {
    Vec(a.x + b.x, a.y + b.y)
  }

  function Scale(k: real, v: Vec): Vec {
    Vec(k * v.x, k * v.y)
  }

  function Sq(a: real): real {
    a * a
  }

  /** Square of the length. */
  function Square(v: Vec): real {
    Sq(v.x) + Sq(v.y)
  }

  /** Square root and trigonometry: the length of a vector, and cosine and sine of its angle. */
  datatype Geometry = Geometry(norm: Vec -> real, direction: Vec -> Vec)

  ghost predicate Euclidean(g: Geometry) {
    && (forall v {:trigger g.norm(v), Square(v)} :: g.norm(v) >= 0.0 && Sq(g.norm(v)) == Square(v))
    && (forall v {:trigger Scale(g.norm(v), g.direction(v))} :: Square(g.direction(v)) == 1.0
          && v == Scale(g.norm(v), g.direction(v)))
  }

  function TargetSpeed(vehicleSpeed: real, maxSpeed: Option<real>): real {
    if maxSpeed.None? then vehicleSpeed else if maxSpeed.value < vehicleSpeed then maxSpeed.value else vehicleSpeed
  }

  datatype Options = Options(batteryMaxReach: real, lowBatteryChargeThreshold: real)

  /** The edge being traversed: its end, and the speed for it. */
  datatype Leg = Leg(end: Vec, speed: real)

  datatype Vehicle = Vehicle(
    position: Vec, velocity: Vec, isDriving: bool, isPaused: bool, isCharging: bool, charge: real,
    leg: Option<Leg>,
    traversed: nat)            // calls of edgeTraversed

  function Drained(o: Options, charge: real, distance: real): real
    requires o.batteryMaxReach > 0.0
  {
    var left := charge - distance * 100.0 / o.batteryMaxReach;
    if left < 0.0 then 0.0 else left
  }

  function StopDriving(a: Vehicle): Vehicle {
    a.(isDriving := false, velocity := Vec(0.0, 0.0))
  }

  /** The part of a tick that moves the vehicle. */
  function Advance(g: Geometry, o: Options, a: Vehicle, realInterval: real): Vehicle
    requires o.batteryMaxReach > 0.0
  {
    if a.leg.None? || a.isPaused || a.isCharging then a
    else
      var t := Minus(a.leg.value.end, a.position);
      if !a.isDriving then
        if a.charge < o.lowBatteryChargeThreshold then a
        else a.(velocity := Scale(a.leg.value.speed, g.direction(t)), isDriving := true)
      else
        var d := Scale(realInterval, a.velocity);
        if Square(t) <= Square(d) then
          StopDriving(a.(position := a.leg.value.end, charge := Drained(o, a.charge, g.norm(t)), leg := None,
                         traversed := a.traversed + 1))
        else
          var a1 := a.(position := Plus(a.position, d), charge := Drained(o, a.charge, g.norm(d)));
          if a.charge < o.lowBatteryChargeThreshold then StopDriving(a1) else a1
  }

  datatype Event = Tick(realInterval: real) | StartPause | StopPause

  function Step(g: Geometry, o: Options, a: Vehicle, e: Event): Vehicle
    requires o.batteryMaxReach > 0.0
  {
    match e
    case Tick(realInterval) => Advance(g, o, a, realInterval)
    case StartPause => if a.isPaused then a else (if a.isDriving then StopDriving(a) else a).(isPaused := true)
    case StopPause => a.(isPaused := false)
  }

  // ---------- Facts of geometry ----------

  lemma {:induction false} ProductGrows(a: real, b: real, c: real, d: real)
    requires 0.0 <= a < b && 0.0 <= c < d
    ensures 0.0 <= a * c < b * d
  {
    assert a * c <= b * c;
    assert b * c < b * d;
  }

  lemma {:induction false} SqGrows(a: real, b: real)
    requires 0.0 <= a < b
    ensures Sq(a) < Sq(b)
  {
    ProductGrows(a, b, a, b);
  }

  lemma {:induction false} SqOrder(a: real, b: real)
    requires a >= 0.0 && b >= 0.0
    ensures Sq(a) <= Sq(b) <==> a <= b
  {
    if a < b {
      SqGrows(a, b);
    } else if b < a {
      SqGrows(b, a);
    }
  }

  lemma {:induction false} SqOfProduct(n: real, p: real, x: real)
    requires x == n * p
    ensures Sq(x) == Sq(n) * Sq(p)
  {
    assert x * x == (n * n) * (p * p);
  }

  lemma {:induction false} SquareOfScaled(k: real, u: Vec)
    requires Square(u) == 1.0
    ensures Square(Scale(k, u)) == Sq(k)
  {
    SqOfProduct(k, u.x, k * u.x);
    SqOfProduct(k, u.y, k * u.y);
    UnitTimes(Sq(k), Sq(u.x), Sq(u.y));
  }

  /** Along a direction, length and direction are what they seem. */
  lemma {:induction false} NormOfScaled(g: Geometry, k: real, u: Vec)
    requires Euclidean(g) && Square(u) == 1.0 && k >= 0.0
    ensures g.norm(Scale(k, u)) == k
    ensures k > 0.0 ==> g.direction(Scale(k, u)) == u
  {
    SquareOfScaled(k, u);
    var v := Scale(k, u);
    var n := g.norm(v);
    assert n >= 0.0 && Sq(n) == Square(v);
    SqOrder(n, k);
    SqOrder(k, n);
    assert v == Scale(n, g.direction(v));
    if k > 0.0 {
      SameDirection(k, u, g.direction(v));
    }
  }

  lemma {:induction false} SameDirection(k: real, u: Vec, d: Vec)
    requires k > 0.0 && Scale(k, u) == Scale(k, d)
    ensures u == d
  {
    assert Scale(k, u).x == k * u.x && Scale(k, d).x == k * d.x;
    assert k * (u.x - d.x) == 0.0 && k * (u.y - d.y) == 0.0;
  }

  lemma {:induction false} UnitTimes(m: real, p: real, q: real)
    requires p + q == 1.0
    ensures m * p + m * q == m
  {
    assert m * p + m * q == m * (p + q);
  }

  /** Draining distance by distance is the same as draining the whole distance. */
  lemma {:induction false} DrainedTwice(o: Options, charge: real, p: real, q: real)
    requires o.batteryMaxReach > 0.0 && p >= 0.0 && q >= 0.0
    ensures Drained(o, Drained(o, charge, p), q) == Drained(o, charge, p + q)
  {
    assert (p + q) * 100.0 / o.batteryMaxReach == p * 100.0 / o.batteryMaxReach + q * 100.0 / o.batteryMaxReach;
    assert q * 100.0 / o.batteryMaxReach >= 0.0;
  }

  // ---------- On the segment ----------

  function Distance(g: Geometry, a: Vec, b: Vec): real {
    g.norm(Minus(b, a))
  }

  /**
   The vehicle is on its way from `start`, where its charge was `charge`: on the segment, and driving along it if at
   all.
   */
  ghost predicate OnSegment(g: Geometry, o: Options, a: Vehicle, start: Vec, leg: Leg, charge: real)
    requires o.batteryMaxReach > 0.0
  {
    var length, u, left := Distance(g, start, leg.end), g.direction(Minus(leg.end, start)),
      Distance(g, a.position, leg.end);
    && a.leg == Some(leg) && leg.speed > 0.0
    && Minus(leg.end, a.position) == Scale(left, u)
    && left <= length && (left > 0.0 || a.position == start)
    && a.charge == Drained(o, charge, length - left)
    && (a.isDriving ==> a.velocity == Scale(leg.speed, u))
  }

  ghost predicate Arrived(g: Geometry, o: Options, a: Vehicle, start: Vec, leg: Leg, charge: real)
    requires o.batteryMaxReach > 0.0
  {
    && a.leg == None && a.position == leg.end && !a.isDriving
    && a.charge == Drained(o, charge, Distance(g, start, leg.end))
  }

  lemma {:induction false} ScaleTwice(a: real, b: real, u: Vec)
    ensures Scale(a, Scale(b, u)) == Scale(a * b, u)
  {
    Associative(a, b, u.x);
    Associative(a, b, u.y);
  }

  lemma {:induction false} Associative(a: real, b: real, c: real)
    ensures a * (b * c) == (a * b) * c
  {
  }

  lemma {:induction false} Closer(end: real, position: real, left: real, driven: real, u: real)
    requires end - position == left * u
    ensures end - (position + driven * u) == (left - driven) * u
  {
  }

  lemma {:induction false} NotNegative(a: real, b: real)
    requires a >= 0.0 && b >= 0.0
    ensures a * b >= 0.0
  {
  }

  /** The end is within reach of a tick exactly if no more distance is left than is driven. */
  lemma {:induction false} WithinReach(left: real, driven: real, u: Vec)
    requires Square(u) == 1.0 && left >= 0.0 && driven >= 0.0
    ensures Square(Scale(left, u)) <= Square(Scale(driven, u)) <==> left <= driven
  {
    SquareOfScaled(left, u);
    SquareOfScaled(driven, u);
    SqOrder(left, driven);
  }

  lemma {:induction false} MovedOn(end: Vec, position: Vec, left: real, driven: real, u: Vec)
    requires Minus(end, position) == Scale(left, u)
    ensures Minus(end, Plus(position, Scale(driven, u))) == Scale(left - driven, u)
  {
    Closer(end.x, position.x, left, driven, u.x);
    Closer(end.y, position.y, left, driven, u.y);
  }

  // ---------- One tick ----------

  lemma {:induction false} DistanceNotNegative(g: Geometry, a: Vec, b: Vec)
    requires Euclidean(g)
    ensures Distance(g, a, b) >= 0.0
  {
    assert Sq(g.norm(Minus(b, a))) == Square(Minus(b, a));
  }

  /** The vector of a tick, and the branch it takes. */
  lemma {:induction false} TickVector(g: Geometry, o: Options, a: Vehicle, start: Vec, leg: Leg, charge: real, dt: real)
    requires Euclidean(g) && o.batteryMaxReach > 0.0 && OnSegment(g, o, a, start, leg, charge) && a.isDriving
      && dt >= 0.0
    ensures var left, u := Distance(g, a.position, leg.end), g.direction(Minus(leg.end, start));
      && Scale(dt, a.velocity) == Scale(dt * leg.speed, u) && dt * leg.speed >= 0.0
      && (Square(Minus(leg.end, a.position)) <= Square(Scale(dt, a.velocity)) <==> left <= dt * leg.speed)
  {
    var left, u := Distance(g, a.position, leg.end), g.direction(Minus(leg.end, start));
    DirectionIsUnit(g, Minus(leg.end, start));
    DistanceNotNegative(g, a.position, leg.end);
    NotNegative(dt, leg.speed);
    ScaleTwice(dt, leg.speed, u);
    WithinReach(left, dt * leg.speed, u);
  }

  lemma {:induction false} Approach(g: Geometry, end: Vec, position: Vec, left: real, driven: real, u: Vec)
    requires Euclidean(g) && Square(u) == 1.0 && Minus(end, position) == Scale(left, u) && 0.0 <= driven <= left
    ensures g.norm(Scale(driven, u)) == driven
    ensures var next := Minus(end, Plus(position, Scale(driven, u)));
      next == Scale(left - driven, u) && g.norm(next) == left - driven
  {
    MovedOn(end, position, left, driven, u);
    NormOfScaled(g, driven, u);
    NormOfScaled(g, left - driven, u);
  }

  lemma {:induction false} DirectionIsUnit(g: Geometry, v: Vec)
    requires Euclidean(g)
    ensures Square(g.direction(v)) == 1.0 && v == Scale(g.norm(v), g.direction(v))
  {
  }

  lemma {:induction false} DriveKeeps(g: Geometry, o: Options, a: Vehicle, start: Vec, leg: Leg, charge: real,
                                      driven: real)
    requires Euclidean(g) && o.batteryMaxReach > 0.0 && OnSegment(g, o, a, start, leg, charge) && a.isDriving
    requires 0.0 <= driven < Distance(g, a.position, leg.end)
    ensures var u := g.direction(Minus(leg.end, start));
      var d := Scale(driven, u);
      var a' := a.(position := Plus(a.position, d), charge := Drained(o, a.charge, g.norm(d)));
      && OnSegment(g, o, a', start, leg, charge)
      && Distance(g, a'.position, leg.end) == Distance(g, a.position, leg.end) - driven
  {
    var length, left, u := Distance(g, start, leg.end), Distance(g, a.position, leg.end),
      g.direction(Minus(leg.end, start));
    DirectionIsUnit(g, Minus(leg.end, start));
    Approach(g, leg.end, a.position, left, driven, u);
    DrainedTwice(o, charge, length - left, driven);
  }

  /** Wherever the vehicle stands on the segment, the direction to the end is that of the edge. */
  lemma {:induction false} StartKeeps(g: Geometry, o: Options, a: Vehicle, start: Vec, leg: Leg, charge: real)
    requires Euclidean(g) && o.batteryMaxReach > 0.0 && OnSegment(g, o, a, start, leg, charge)
    ensures g.direction(Minus(leg.end, a.position)) == g.direction(Minus(leg.end, start))
  {
    var left, u := Distance(g, a.position, leg.end), g.direction(Minus(leg.end, start));
    DirectionIsUnit(g, Minus(leg.end, start));
    DistanceNotNegative(g, a.position, leg.end);
    if left > 0.0 {
      NormOfScaled(g, left, u);
    }
  }

  /** A driving vehicle with the end within reach of a tick, or not. */
  lemma {:induction false} ArrivesInTick(g: Geometry, o: Options, a: Vehicle, start: Vec, leg: Leg, charge: real)
    requires Euclidean(g) && o.batteryMaxReach > 0.0 && OnSegment(g, o, a, start, leg, charge)
    ensures Drained(o, a.charge, Distance(g, a.position, leg.end)) == Drained(o, charge, Distance(g, start, leg.end))
  {
    var length, left := Distance(g, start, leg.end), Distance(g, a.position, leg.end);
    DistanceNotNegative(g, a.position, leg.end);
    DrainedTwice(o, charge, length - left, left);
  }

  ghost predicate CanMove(a: Vehicle) {
    a.isDriving && !a.isPaused && !a.isCharging
  }

  lemma {:induction false} DrivingTick(g: Geometry, o: Options, a: Vehicle, start: Vec, leg: Leg, charge: real,
                                       dt: real, driven: real)
    requires Euclidean(g) && o.batteryMaxReach > 0.0 && OnSegment(g, o, a, start, leg, charge) && CanMove(a)
    requires dt >= 0.0 && driven == dt * leg.speed
    ensures var left, a' := Distance(g, a.position, leg.end), Advance(g, o, a, dt);
      if left <= driven then Arrived(g, o, a', start, leg, charge)
      else OnSegment(g, o, a', start, leg, charge) && Distance(g, a'.position, leg.end) == left - driven
  {
    TickVector(g, o, a, start, leg, charge, dt);
    if Distance(g, a.position, leg.end) <= driven {
      ArrivesInTick(g, o, a, start, leg, charge);
    } else {
      DriveKeeps(g, o, a, start, leg, charge, driven);
    }
  }

  /** A tick keeps the vehicle on the segment, or brings it to the end of it. */
  lemma {:induction false} TickKeeps(g: Geometry, o: Options, a: Vehicle, start: Vec, leg: Leg, charge: real, dt: real)
    requires Euclidean(g) && o.batteryMaxReach > 0.0 && OnSegment(g, o, a, start, leg, charge) && dt >= 0.0
    ensures var a' := Advance(g, o, a, dt);
      OnSegment(g, o, a', start, leg, charge) || Arrived(g, o, a', start, leg, charge)
  {
    if a.isDriving && !a.isPaused && !a.isCharging {
      DrivingTick(g, o, a, start, leg, charge, dt, dt * leg.speed);
    } else {
      StartKeeps(g, o, a, start, leg, charge);
    }
  }

  // ---------- Runs ----------

  function Run(g: Geometry, o: Options, a: Vehicle, events: seq<Event>): Vehicle
    requires o.batteryMaxReach > 0.0
  {
    if events == [] then a else Step(g, o, Run(g, o, a, events[..|events| - 1]), events[|events| - 1])
  }

  predicate Forward(events: seq<Event>) {
    forall k :: 0 <= k < |events| && events[k].Tick? ==> events[k].realInterval >= 0.0
  }

  /** A vehicle that starts to traverse an edge. */
  predicate Departs(a: Vehicle, leg: Leg) {
    a.leg == Some(leg) && leg.speed > 0.0 && !a.isDriving && a.charge >= 0.0
  }

  lemma {:induction false} DepartsOnSegment(g: Geometry, o: Options, a: Vehicle, leg: Leg)
    requires Euclidean(g) && o.batteryMaxReach > 0.0 && Departs(a, leg)
    ensures OnSegment(g, o, a, a.position, leg, a.charge)
  {
    DirectionIsUnit(g, Minus(leg.end, a.position));
  }

  /**
   Under any ticks, stops and restarts the vehicle stays on the segment from where it departed to the end of the edge,
   without overshooting, or it has arrived: exactly at the end, and with the charge of the whole distance taken.
   */
  lemma {:induction false} StaysOnSegment(g: Geometry, o: Options, a: Vehicle, leg: Leg, events: seq<Event>)
    requires Euclidean(g) && o.batteryMaxReach > 0.0 && Departs(a, leg) && Forward(events)
    ensures var b := Run(g, o, a, events);
      OnSegment(g, o, b, a.position, leg, a.charge) || Arrived(g, o, b, a.position, leg, a.charge)
  {
    if events == [] {
      DepartsOnSegment(g, o, a, leg);
    } else {
      var before, e := events[..|events| - 1], events[|events| - 1];
      StaysOnSegment(g, o, a, leg, before);
      var b := Run(g, o, a, before);
      if OnSegment(g, o, b, a.position, leg, a.charge) && e.Tick? {
        TickKeeps(g, o, b, a.position, leg, a.charge, e.realInterval);
      }
    }
  }

  // ---------- Standing still ----------

  /** Whatever keeps the vehicle from driving: a pause that is not ended, or being charged. */
  predicate KeptStanding(a: Vehicle, events: seq<Event>) {
    a.isCharging || (a.isPaused && forall k :: 0 <= k < |events| ==> !events[k].StopPause?)
  }

  /** A paused or charging vehicle stays where it is, with its charge and its edge, whatever happens. */
  lemma {:induction false} StandsStill(g: Geometry, o: Options, a: Vehicle, events: seq<Event>)
    requires o.batteryMaxReach > 0.0 && KeptStanding(a, events)
    ensures var b := Run(g, o, a, events);
      && b.position == a.position && b.charge == a.charge && b.leg == a.leg && b.traversed == a.traversed
      && b.isCharging == a.isCharging && (a.isPaused && !a.isCharging ==> b.isPaused)
  {
    if events != [] {
      StandsStill(g, o, a, events[..|events| - 1]);
    }
  }

  /** A standing vehicle with a low battery does not start again. */
  lemma {:induction false} LowBatteryStands(g: Geometry, o: Options, a: Vehicle, events: seq<Event>)
    requires o.batteryMaxReach > 0.0 && a.charge < o.lowBatteryChargeThreshold && !a.isDriving
    ensures var b := Run(g, o, a, events); b.position == a.position && b.charge == a.charge && !b.isDriving
  {
    if events != [] {
      LowBatteryStands(g, o, a, events[..|events| - 1]);
    }
  }

  /** A driving one is stopped by the tick that finds the battery low, and then stands for good. */
  lemma {:induction false} LowBatteryStops(g: Geometry, o: Options, a: Vehicle, dt: real, events: seq<Event>)
    requires Euclidean(g) && o.batteryMaxReach > 0.0 && 0.0 <= a.charge < o.lowBatteryChargeThreshold
    requires a.leg.Some? && !a.isPaused && !a.isCharging
    ensures var b := Step(g, o, a, Tick(dt));
      var c := Run(g, o, b, events);
      !b.isDriving && !c.isDriving && c.position == b.position && c.charge == b.charge <= a.charge
  {
    var b := Step(g, o, a, Tick(dt));
    DrainedLess(g, o, a.charge, Minus(a.leg.value.end, a.position));
    DrainedLess(g, o, a.charge, Scale(dt, a.velocity));
    LowBatteryStands(g, o, b, events);
  }

  lemma {:induction false} DrainedLess(g: Geometry, o: Options, charge: real, driven: Vec)
    requires Euclidean(g) && o.batteryMaxReach > 0.0 && charge >= 0.0
    ensures 0.0 <= Drained(o, charge, g.norm(driven)) <= charge
  {
    assert Sq(g.norm(driven)) == Square(driven);
  }

  // ---------- Arrival ----------

  function Drive(g: Geometry, o: Options, a: Vehicle, intervals: seq<real>): Vehicle
    requires o.batteryMaxReach > 0.0
  {
    if intervals == [] then a
      else Advance(g, o, Drive(g, o, a, intervals[..|intervals| - 1]), intervals[|intervals| - 1])
  }

  /** The charge suffices for the whole edge. */
  predicate Sufficient(o: Options, charge: real, distance: real)
    requires o.batteryMaxReach > 0.0
  {
    charge - distance * 100.0 / o.batteryMaxReach >= o.lowBatteryChargeThreshold
  }

  lemma {:induction false} StaysSufficient(o: Options, charge: real, distance: real, driven: real)
    requires o.batteryMaxReach > 0.0 && Sufficient(o, charge, distance) && driven <= distance
    ensures Drained(o, charge, driven) >= o.lowBatteryChargeThreshold
  {
    assert (distance - driven) * 100.0 / o.batteryMaxReach >= 0.0;
    assert distance * 100.0 / o.batteryMaxReach
      == driven * 100.0 / o.batteryMaxReach + (distance - driven) * 100.0 / o.batteryMaxReach;
  }

  /** After `n` ticks: the first one started the vehicle, each further one has brought it closer by at least `step`. */
  ghost predicate Nearing(g: Geometry, o: Options, a: Vehicle, start: Vec, leg: Leg, charge: real, n: nat, step: real)
    requires o.batteryMaxReach > 0.0
  {
    && OnSegment(g, o, a, start, leg, charge) && !a.isPaused && !a.isCharging
    && (n > 0 ==> a.isDriving && Distance(g, a.position, leg.end) <= Distance(g, start, leg.end) - Times(n - 1, step))
    && (n > 1 ==> Distance(g, a.position, leg.end) > 0.0)
  }

  lemma {:induction false} TickNears(g: Geometry, o: Options, a: Vehicle, start: Vec, leg: Leg, charge: real,
                                     n: nat, step: real, dt: real, driven: real)
    requires Euclidean(g) && o.batteryMaxReach > 0.0 && Sufficient(o, charge, Distance(g, start, leg.end))
    requires Nearing(g, o, a, start, leg, charge, n, step) && dt >= 0.0 && driven == dt * leg.speed >= step
    ensures Arrived(g, o, Advance(g, o, a, dt), start, leg, charge)
            || Nearing(g, o, Advance(g, o, a, dt), start, leg, charge, n + 1, step)
  {
    var length, left := Distance(g, start, leg.end), Distance(g, a.position, leg.end);
    DistanceNotNegative(g, a.position, leg.end);
    StaysSufficient(o, charge, length, length - left);
    if a.isDriving {
      DrivingTick(g, o, a, start, leg, charge, dt, driven);
    } else {
      StartKeeps(g, o, a, start, leg, charge);
    }
  }

  lemma {:induction false} LongEnough(dt: real, least: real, speed: real)
    requires dt >= least > 0.0 && speed > 0.0
    ensures dt * speed >= least * speed > 0.0
  {
  }

  lemma {:induction false} Nears(g: Geometry, o: Options, a: Vehicle, leg: Leg, intervals: seq<real>, least: real)
    requires Euclidean(g) && o.batteryMaxReach > 0.0 && Departs(a, leg) && !a.isPaused && !a.isCharging && least > 0.0
    requires Sufficient(o, a.charge, Distance(g, a.position, leg.end))
    requires forall k :: 0 <= k < |intervals| ==> intervals[k] >= least
    ensures var b := Drive(g, o, a, intervals);
      || Arrived(g, o, b, a.position, leg, a.charge)
      || Nearing(g, o, b, a.position, leg, a.charge, |intervals|, least * leg.speed)
  {
    if intervals == [] {
      DepartsOnSegment(g, o, a, leg);
    } else {
      var before, dt := intervals[..|intervals| - 1], intervals[|intervals| - 1];
      Nears(g, o, a, leg, before, least);
      var b := Drive(g, o, a, before);
      LongEnough(dt, least, leg.speed);
      if Nearing(g, o, b, a.position, leg, a.charge, |before|, least * leg.speed) {
        TickNears(g, o, b, a.position, leg, a.charge, |before|, least * leg.speed, dt, dt * leg.speed);
      }
    }
  }

  lemma {:induction false} ArrivesBySteps(g: Geometry, o: Options, a: Vehicle, leg: Leg, intervals: seq<real>,
                                          least: real)
    requires Euclidean(g) && o.batteryMaxReach > 0.0 && Departs(a, leg) && !a.isPaused && !a.isCharging && least > 0.0
    requires Sufficient(o, a.charge, Distance(g, a.position, leg.end))
    requires forall k :: 0 <= k < |intervals| ==> intervals[k] >= least
    requires |intervals| >= 2 && Times(|intervals| - 1, least * leg.speed) >= Distance(g, a.position, leg.end)
    ensures Arrived(g, o, Drive(g, o, a, intervals), a.position, leg, a.charge)
  {
    Nears(g, o, a, leg, intervals, least);
  }

  /**
   A vehicle with enough charge arrives within as many ticks as the distance takes in steps of the least interval, and
   one tick more to start.
   */
  lemma {:induction false} ArrivesInTime(g: Geometry, o: Options, a: Vehicle, leg: Leg, intervals: seq<real>,
                                         least: real)
    requires Euclidean(g) && o.batteryMaxReach > 0.0 && Departs(a, leg) && !a.isPaused && !a.isCharging && least > 0.0
    requires Sufficient(o, a.charge, Distance(g, a.position, leg.end))
    requires forall k :: 0 <= k < |intervals| ==> intervals[k] >= least
    requires |intervals| >= 2 && (|intervals| - 1) as real * (least * leg.speed) >= Distance(g, a.position, leg.end)
    ensures Arrived(g, o, Drive(g, o, a, intervals), a.position, leg, a.charge)
  {
    TimesIsProduct(|intervals| - 1, least * leg.speed);
    ArrivesBySteps(g, o, a, leg, intervals, least);
  }

  // ---------- The vehicle, updated in place ----------

  class VirtualVehicle {
    const geometry: Geometry
    const options: Options
    var position: Vec
    var velocity: Vec
    var isDriving: bool
    var isPaused: bool
    var isCharging: bool
    var batteryCharge: real
    var traverseContext: Option<Leg>
    var traversed: nat

    function Value(): Vehicle
      reads this
    {
      Vehicle(position, velocity, isDriving, isPaused, isCharging, batteryCharge, traverseContext, traversed)
    }

    constructor (geometry: Geometry, options: Options, position: Vec, charge: real)
      ensures this.geometry == geometry && this.options == options
      ensures Value() == Vehicle(position, Vec(0.0, 0.0), false, false, false, charge, None, 0)
    {
      this.geometry, this.options, this.position := geometry, options, position;
      velocity, isDriving, isPaused, isCharging := Vec(0.0, 0.0), false, false, false;
      batteryCharge, traverseContext, traversed := charge, None, 0;
    }

    method Traverse(end: Vec, vehicleSpeed: real, maxSpeed: Option<real>)
      modifies this
      ensures Value() == old(Value()).(leg := Some(Leg(end, TargetSpeed(vehicleSpeed, maxSpeed))))
      ensures traverseContext.value.speed <= vehicleSpeed
        && (maxSpeed.Some? ==> traverseContext.value.speed <= maxSpeed.value)
      ensures traverseContext.value.speed == vehicleSpeed || Some(traverseContext.value.speed) == maxSpeed
    {
      traverseContext := Some(Leg(end, TargetSpeed(vehicleSpeed, maxSpeed)));
    }

    method Stop()
      modifies this
      ensures Value() == StopDriving(old(Value()))
    {
      isDriving := false;
      velocity := Vec(0.0, 0.0);
    }

    method UpdateBatteryState(driven: Vec)
      requires options.batteryMaxReach > 0.0
      modifies this
      ensures Value() == old(Value()).(charge := Drained(options, old(batteryCharge), geometry.norm(driven)))
    {
      var left := batteryCharge - geometry.norm(driven) * 100.0 / options.batteryMaxReach;
      batteryCharge := if left < 0.0 then 0.0 else left;
    }

    method AdvanceTraverse(realInterval: real)
      requires options.batteryMaxReach > 0.0
      modifies this
      ensures Value() == Advance(geometry, options, old(Value()), realInterval)
    {
      if traverseContext.None? || isPaused || isCharging {
        return;
      }
      var leg := traverseContext.value;
      var t := Minus(leg.end, position);
      if !isDriving {
        if batteryCharge < options.lowBatteryChargeThreshold {
          return;
        }
        velocity := Scale(leg.speed, geometry.direction(t));
        isDriving := true;
      } else {
        var d := Scale(realInterval, velocity);
        if Square(t) <= Square(d) {
          Land(t);
        } else {
          MoveOn(d);
        }
      }
    }

    /** The end is within reach. */
    method Land(t: Vec)
      requires options.batteryMaxReach > 0.0 && traverseContext.Some?
      modifies this
      ensures Value() == StopDriving(old(Value()).(position := old(traverseContext.value.end),
                                                   charge := Drained(options, old(batteryCharge), geometry.norm(t)),
                                                   leg := None, traversed := old(traversed) + 1))
    {
      position := traverseContext.value.end;
      UpdateBatteryState(t);
      Stop();
      traverseContext := None;
      traversed := traversed + 1;
    }

    /** The end is further away; with a low battery this is the last movement. */
    method MoveOn(d: Vec)
      requires options.batteryMaxReach > 0.0
      modifies this
      ensures var a := old(Value()).(position := Plus(old(position), d),
                                     charge := Drained(options, old(batteryCharge), geometry.norm(d)));
        Value() == if old(batteryCharge) < options.lowBatteryChargeThreshold then StopDriving(a) else a
    {
      var isBatteryLow := batteryCharge < options.lowBatteryChargeThreshold;
      position := Plus(position, d);
      UpdateBatteryState(d);
      if isBatteryLow {
        Stop();
      }
    }

    method StartPause()
      modifies this
      ensures options.batteryMaxReach > 0.0 ==> Value() == Step(geometry, options, old(Value()), Event.StartPause)
    {
      if isPaused {
        return;
      }
      if isDriving {
        Stop();
      }
      isPaused := true;
    }

    method StopPause()
      modifies this
      ensures options.batteryMaxReach > 0.0 ==> Value() == Step(geometry, options, old(Value()), Event.StopPause)
    {
      isPaused := false;
    }
  }
}
