/** The map panel's logic as values: the geofence monitor that logs
    boundary crossings and records the path, the click guard, and the
    fractional-step integrator that pulls the drone toward a clicked
    target. The class MapPanel.MapPanel runs the same steps in place. */
module Geofence {
  import opened Geo

  /** Radius of the circular fence around HOME, in metres. */
  const GeofenceRadius: real := 200.0

  datatype Kind = Exit | Enter

  /** A crossing event; the wall-clock timestamp is not modelled. */
  datatype LogEntry = LogEntry(kind: Kind, pos: Coord)

  /** The monitor's state: membership at the previous evaluation, the
      crossing log and the recorded path. */
  datatype Monitor = Monitor(outside: bool, logs: seq<LogEntry>, path: seq<Coord>)

  /** The panel starts inside, with nothing logged and nothing recorded. */
  const InitialMonitor: Monitor := Monitor(false, [], [])

  /** A point exactly on the fence counts as inside. */
  predicate IsOutside(p: Coord, d: Distance)
  {
    d(p, HOME) > GeofenceRadius
  }

  /** The log alternates EXIT, ENTER, EXIT, ... and the current membership
      is "outside" exactly when an odd number of crossings was logged. */
  predicate Alternating(m: Monitor)
  {
    (forall i :: 0 <= i < |m.logs| ==> m.logs[i].kind == (if i % 2 == 0 then Exit else Enter)) &&
    (m.outside <==> |m.logs| % 2 == 1)
  }

  /** One evaluation of the monitor at position `p`. */
  function Check(m: Monitor, p: Coord, d: Distance): (r: Monitor)
    ensures r.outside == IsOutside(p, d)
    ensures r.path == m.path + [p]
    ensures |r.logs| == |m.logs| + (if r.outside != m.outside then 1 else 0)
    ensures r.logs[..|m.logs|] == m.logs
    ensures r.outside != m.outside ==> r.logs[|m.logs|] == LogEntry(if r.outside then Exit else Enter, p)
    ensures Alternating(m) ==> Alternating(r)
  {
    var isOutside := IsOutside(p, d);
    var logs :=
      if isOutside && !m.outside then m.logs + [LogEntry(Exit, p)]
      else if !isOutside && m.outside then m.logs + [LogEntry(Enter, p)]
      else m.logs;
    var r := Monitor(isOutside, logs, m.path + [p]);
    assert Alternating(m) ==> Alternating(r) by {
      if Alternating(m) && logs != m.logs {
        forall i | 0 <= i < |logs|
          ensures logs[i].kind == (if i % 2 == 0 then Exit else Enter)
        {
          if i < |m.logs| { assert logs[i] == m.logs[i]; }
        }
      }
    }
    r
  }

  /** The monitor run over a sequence of positions, one evaluation each. */
  function CheckAll(m: Monitor, ps: seq<Coord>, d: Distance): Monitor
    decreases |ps|
  {
    if ps == [] then m else CheckAll(Check(m, ps[0], d), ps[1..], d)
  }

  /** The number of membership changes along `ps`, starting from `outside`. */
  function Changes(outside: bool, ps: seq<Coord>, d: Distance): nat
    decreases |ps|
  {
    if ps == [] then 0
    else (if IsOutside(ps[0], d) != outside then 1 else 0) + Changes(IsOutside(ps[0], d), ps[1..], d)
  }

  lemma {:induction false} CheckAllAppend(m: Monitor, xs: seq<Coord>, ys: seq<Coord>, d: Distance)
    ensures CheckAll(m, xs + ys, d) == CheckAll(CheckAll(m, xs, d), ys, d)
    decreases |xs|
  {
    if xs == [] {
      assert xs + ys == ys;
    } else {
      assert (xs + ys)[0] == xs[0];
      assert (xs + ys)[1..] == xs[1..] + ys;
      CheckAllAppend(Check(m, xs[0], d), xs[1..], ys, d);
    }
  }

  /** Running the monitor records every position, in order. */
  lemma {:induction false} CheckAllPath(m: Monitor, ps: seq<Coord>, d: Distance)
    ensures CheckAll(m, ps, d).path == m.path + ps
    decreases |ps|
  {
    if ps == [] {
      assert m.path + ps == m.path;
    } else {
      var m1 := Check(m, ps[0], d);
      CheckAllPath(m1, ps[1..], d);
      assert m.path + ps == m1.path + ps[1..];
    }
  }

  /** Running the monitor keeps the old log as a prefix and logs exactly
      one entry per membership change. */
  lemma {:induction false} CheckAllLogs(m: Monitor, ps: seq<Coord>, d: Distance)
    ensures |CheckAll(m, ps, d).logs| == |m.logs| + Changes(m.outside, ps, d)
    ensures CheckAll(m, ps, d).logs[..|m.logs|] == m.logs
    decreases |ps|
  {
    if ps != [] {
      var m1 := Check(m, ps[0], d);
      CheckAllLogs(m1, ps[1..], d);
      var r := CheckAll(m1, ps[1..], d);
      assert r.logs[..|m.logs|] == r.logs[..|m1.logs|][..|m.logs|];
    }
  }

  /** After a non-empty run the membership is that of the last position. */
  lemma {:induction false} CheckAllOutside(m: Monitor, ps: seq<Coord>, d: Distance)
    requires ps != []
    ensures CheckAll(m, ps, d).outside == IsOutside(ps[|ps| - 1], d)
    decreases |ps|
  {
    if |ps| > 1 {
      CheckAllOutside(Check(m, ps[0], d), ps[1..], d);
      assert ps[1..][|ps[1..]| - 1] == ps[|ps| - 1];
    }
  }

  lemma {:induction false} CheckAllAlternating(m: Monitor, ps: seq<Coord>, d: Distance)
    requires Alternating(m)
    ensures Alternating(CheckAll(m, ps, d))
    decreases |ps|
  {
    if ps != [] {
      CheckAllAlternating(Check(m, ps[0], d), ps[1..], d);
    }
  }

  /** From a fresh panel, the log alternates EXIT, ENTER, ... starting with
      EXIT, its length is the number of membership changes, and the drone
      is outside exactly when that number is odd. */
  lemma FromInitial(ps: seq<Coord>, d: Distance)
    ensures Alternating(CheckAll(InitialMonitor, ps, d))
    ensures |CheckAll(InitialMonitor, ps, d).logs| == Changes(false, ps, d)
    ensures CheckAll(InitialMonitor, ps, d).path == ps
  {
    CheckAllAlternating(InitialMonitor, ps, d);
    CheckAllLogs(InitialMonitor, ps, d);
    CheckAllPath(InitialMonitor, ps, d);
  }

  /** The panel is mounted afresh on every connect, and a disconnected
      drone rests at HOME, so the first evaluation of a session is at HOME:
      it is inside the fence and logs nothing. */
  lemma FirstCheckAtHome(d: Distance)
    requires IsDistance(d)
    ensures Check(InitialMonitor, HOME, d) == Monitor(false, [], [HOME])
  {
  }

  /** Positions that all share the monitor's membership log nothing. */
  lemma {:induction false} SteadyLogsNothing(m: Monitor, ps: seq<Coord>, d: Distance)
    requires forall i :: 0 <= i < |ps| ==> IsOutside(ps[i], d) == m.outside
    ensures CheckAll(m, ps, d).logs == m.logs
    ensures CheckAll(m, ps, d).outside == m.outside
    decreases |ps|
  {
    if ps != [] {
      SteadyLogsNothing(Check(m, ps[0], d), ps[1..], d);
    }
  }

  /** A flight that leaves the fence once and comes back once, starting
      from a fresh panel, logs exactly an EXIT at the first point outside
      and then an ENTER at the first point back inside. */
  lemma OutAndBack(inside1: seq<Coord>, out: seq<Coord>, inside2: seq<Coord>, d: Distance)
    requires out != [] && inside2 != []
    requires forall i :: 0 <= i < |inside1| ==> !IsOutside(inside1[i], d)
    requires forall i :: 0 <= i < |out| ==> IsOutside(out[i], d)
    requires forall i :: 0 <= i < |inside2| ==> !IsOutside(inside2[i], d)
    ensures CheckAll(InitialMonitor, inside1 + out + inside2, d).logs ==
      [LogEntry(Exit, out[0]), LogEntry(Enter, inside2[0])]
  {
    CheckAllAppend(InitialMonitor, inside1 + out, inside2, d);
    CheckAllAppend(InitialMonitor, inside1, out, d);
    SteadyLogsNothing(InitialMonitor, inside1, d);
    var m1 := CheckAll(InitialMonitor, inside1, d);
    var m2 := Check(m1, out[0], d);
    assert m2.logs == [LogEntry(Exit, out[0])];
    SteadyLogsNothing(m2, out[1..], d);
    var m3 := CheckAll(m2, out[1..], d);
    assert CheckAll(m1, out, d) == m3;
    var m4 := Check(m3, inside2[0], d);
    assert m4.logs == [LogEntry(Exit, out[0]), LogEntry(Enter, inside2[0])];
    SteadyLogsNothing(m4, inside2[1..], d);
  }

  /** A map click sets the target unless the drone is returning home. */
  function Click(target: Option<Coord>, p: Coord, returningHome: bool): (r: Option<Coord>)
    ensures returningHome ==> r == target
    ensures !returningHome ==> r == Some(p)
  {
    if returningHome then target else Some(p)
  }

  /** Both offsets below this many degrees count as arrived. */
  const ArriveTolerance: real := 0.00005
  /** Fraction of the remaining offset covered per step when returning home. */
  const ReturnFraction: real := 0.05
  /** Fraction of the remaining offset covered per step otherwise. */
  const CruiseFraction: real := 0.001

  function Fraction(returningHome: bool): (f: real)
    ensures 0.0 < f < 1.0
  {
    if returningHome then ReturnFraction else CruiseFraction
  }

  predicate Close(pos: Coord, t: Coord)
  {
    Abs(t.lat - pos.lat) < ArriveTolerance && Abs(t.lon - pos.lon) < ArriveTolerance
  }

  /** One fractional step toward `t`. */
  function Approach(pos: Coord, t: Coord, returningHome: bool): (r: Coord)
    ensures t.lat - r.lat == (t.lat - pos.lat) * (1.0 - Fraction(returningHome))
    ensures t.lon - r.lon == (t.lon - pos.lon) * (1.0 - Fraction(returningHome))
    ensures StrictlyBetween(pos.lat, r.lat, t.lat) && StrictlyBetween(pos.lon, r.lon, t.lon)
  {
    var f := Fraction(returningHome);
    var r := Coord(pos.lat + (t.lat - pos.lat) * f, pos.lon + (t.lon - pos.lon) * f);
    ShrinkToward(pos.lat, t.lat, f);
    ShrinkToward(pos.lon, t.lon, f);
    r
  }

  /** What the integrator does on one run of its effect. */
  datatype StepOutcome = NoTarget | TargetReached | MoveTo(pos: Coord)

  /** The fractional-step integrator: nothing without a target; within the
      tolerance on both axes the target is dropped and the drone does not
      move; otherwise it moves a fixed fraction of the way. */
  function FractionalStep(pos: Coord, target: Option<Coord>, returningHome: bool): (o: StepOutcome)
    ensures o.NoTarget? <==> target.None?
    ensures o.TargetReached? <==> target.Some? && Close(pos, target.value)
    ensures o.MoveTo? ==> o.pos == Approach(pos, target.value, returningHome)
  {
    match target
    case None => NoTarget
    case Some(t) =>
      if Close(pos, t) then TargetReached else MoveTo(Approach(pos, t, returningHome))
  }

  function Power(x: real, n: nat): real
  {
    if n == 0 then 1.0 else x * Power(x, n - 1)
  }

  /** `a` multiplied by `q`, `n` times over, one factor at a time. */
  function Scale(a: real, q: real, n: nat): real
    decreases n
  {
    if n == 0 then a else Scale(a * q, q, n - 1)
  }

  lemma {:induction false} ScaleIsPower(a: real, q: real, n: nat)
    ensures Scale(a, q, n) == a * Power(q, n)
    decreases n
  {
    if n > 0 {
      ScaleIsPower(a * q, q, n - 1);
      var rest := Power(q, n - 1);
      assert (a * q) * rest == a * (q * rest);
    }
  }

  /** `n` fractional steps toward a fixed target. */
  function ApproachN(pos: Coord, t: Coord, returningHome: bool, n: nat): Coord
    decreases n
  {
    if n == 0 then pos else ApproachN(Approach(pos, t, returningHome), t, returningHome, n - 1)
  }

  lemma {:induction false} ApproachNScale(pos: Coord, t: Coord, returningHome: bool, n: nat)
    ensures t.lat - ApproachN(pos, t, returningHome, n).lat == Scale(t.lat - pos.lat, 1.0 - Fraction(returningHome), n)
    ensures t.lon - ApproachN(pos, t, returningHome, n).lon == Scale(t.lon - pos.lon, 1.0 - Fraction(returningHome), n)
    decreases n
  {
    if n > 0 {
      ApproachNScale(Approach(pos, t, returningHome), t, returningHome, n - 1);
    }
  }

  /** After `n` steps the remaining offset on each axis is the original one
      scaled by (1 - fraction)^n: the drone closes in geometrically. */
  lemma ApproachNOffset(pos: Coord, t: Coord, returningHome: bool, n: nat)
    ensures t.lat - ApproachN(pos, t, returningHome, n).lat == (t.lat - pos.lat) * Power(1.0 - Fraction(returningHome), n)
    ensures t.lon - ApproachN(pos, t, returningHome, n).lon == (t.lon - pos.lon) * Power(1.0 - Fraction(returningHome), n)
  {
    ApproachNScale(pos, t, returningHome, n);
    ScaleIsPower(t.lat - pos.lat, 1.0 - Fraction(returningHome), n);
    ScaleIsPower(t.lon - pos.lon, 1.0 - Fraction(returningHome), n);
  }
}
