/** The session of the ground-station console as a value: connection flags,
    the navigation target and the telemetry record, with the 100 ms tick,
    the operator's buttons and the disconnect clean-up as functions on it.
    The class Console.Console runs the same transitions in place. */
module Session {
  import opened Geo

  const SpeedMetersPerSec: int := 10
  const TickMs: int := 100
  /** Ground covered in one tick at the nominal speed: 10 m/s for 100 ms. */
  const StepMeters: real := (SpeedMetersPerSec * TickMs) as real / 1000.0
  const TickSeconds: real := TickMs as real / 1000.0

  const InitialAltitude: int := 200
  /** Battery is kept in thousandths of a percent: 90 % is 90000. */
  const InitialBattery: int := 90000
  /** 0.02 % per tick while a target is set. */
  const MovingDrain: int := 20
  /** 0.005 % per tick without a target. */
  const IdleDrain: int := 5
  /** Jitter in milliseconds while the stable (VPN) link is on. */
  const StableJitter: real := 10.0
  /** Otherwise jitter is drawn from [0, JitterRange). */
  const JitterRange: real := 120.0
  /** Return-home is accepted only below this speed (m/s). */
  const ReturnSpeedLimit: real := 0.5
  /** Speed the map's integrator reports while it moves the drone (m/s). */
  const MapSpeed: real := 10.0

  datatype Telemetry = Telemetry(altitude: int, speed: real, battery: int, gps: Coord, jitter: real)

  datatype State = State(
    connected: bool,
    zeroTierEnabled: bool,
    target: Option<Coord>,
    returningHome: bool,
    pendingDisconnect: bool,
    telemetry: Telemetry)

  const InitialTelemetry: Telemetry := Telemetry(InitialAltitude, 0.0, InitialBattery, HOME, 0.0)
  const Initial: State := State(false, false, None, false, false, InitialTelemetry)

  /** What one tick of the navigation step produces. */
  datatype Motion = Motion(pos: Coord, speed: real, arrived: bool)

  /** True when the tick that starts at `cur` snaps onto the target. */
  predicate Arrives(cur: Coord, target: Option<Coord>, d: Distance)
  {
    target.Some? && d(cur, target.value) <= StepMeters
  }

  /** One coordinate of the constant-step move: the degree offset divided
      by the distance in metres, times the step. Because degrees are divided
      by metres, this is not exactly a one-metre move; what holds is that the
      remaining offset shrinks by the factor 1 - 1/dst. */
  function StepToward(p: real, t: real, dst: real): (q: real)
    requires dst > StepMeters
    ensures t - q == (t - p) * (1.0 - 1.0 / dst)
    ensures StrictlyBetween(p, q, t)
  {
    var q := p + ((t - p) / dst) * StepMeters;
    assert 0.0 < 1.0 / dst < 1.0;
    ShrinkToward(p, t, 1.0 / dst);
    q
  }

  /** The navigation step of the tick: stay put without a target, snap onto
      a target within one step, otherwise move toward it and derive the speed
      from the distance actually covered. */
  function Advance(cur: Coord, target: Option<Coord>, d: Distance): (m: Motion)
    ensures m.arrived <==> Arrives(cur, target, d)
    ensures target.None? ==> m.pos == cur && m.speed == 0.0
    ensures m.arrived ==> m.pos == target.value && m.speed == 0.0
    ensures target.Some? && !m.arrived ==>
      StrictlyBetween(cur.lat, m.pos.lat, target.value.lat) &&
      StrictlyBetween(cur.lon, m.pos.lon, target.value.lon) &&
      (m.pos.lat - cur.lat) * (target.value.lon - cur.lon) == (m.pos.lon - cur.lon) * (target.value.lat - cur.lat) &&
      m.speed == d(cur, m.pos) / TickSeconds
    ensures target.Some? && !m.arrived ==>
      target.value.lat - m.pos.lat == (target.value.lat - cur.lat) * (1.0 - 1.0 / d(cur, target.value)) &&
      target.value.lon - m.pos.lon == (target.value.lon - cur.lon) * (1.0 - 1.0 / d(cur, target.value))
    ensures IsDistance(d) ==> m.speed >= 0.0
  {
    match target
    case None => Motion(cur, 0.0, false)
    case Some(t) =>
      var dst := d(cur, t);
      if dst <= StepMeters then Motion(t, 0.0, true)
      else
        var next := Coord(StepToward(cur.lat, t.lat, dst), StepToward(cur.lon, t.lon, dst));
        Motion(next, d(cur, next) / TickSeconds, false)
  }

  /** Per-tick battery drain for the motion state. */
  function DrainPerTick(hasTarget: bool): int
  {
    if hasTarget then MovingDrain else IdleDrain
  }

  /** The battery after one tick: the drain is subtracted and the level is
      floored at zero. */
  function Drain(battery: int, hasTarget: bool): (r: int)
    ensures r >= 0
    ensures battery >= 0 ==> r <= battery
    ensures r > 0 ==> r == battery - DrainPerTick(hasTarget)
    ensures r == 0 ==> battery <= DrainPerTick(hasTarget)
  {
    var b := battery - DrainPerTick(hasTarget);
    if b < 0 then 0 else b
  }

  /** The link jitter a tick writes; `sample` stands for Math.random(). */
  function Jitter(zeroTierEnabled: bool, sample: real): (r: real)
    ensures zeroTierEnabled ==> r == StableJitter
    ensures 0.0 <= sample < 1.0 ==> 0.0 <= r < JitterRange
  {
    if zeroTierEnabled then StableJitter else sample * JitterRange
  }

  /** What every reachable session satisfies. The target is only ever HOME,
      and exactly while returning home; a pending disconnect is a return
      home; a disconnected drone rests at HOME with zero speed and with
      neither returningHome nor pendingDisconnect set. This holds where each
      button press acts on the session current when it takes effect; the
      console's delayed handler sees the connection state of the click. */
  ghost predicate Inv(s: State)
  {
    s.target == (if s.returningHome then Some(HOME) else None) &&
    (s.pendingDisconnect ==> s.returningHome) &&
    (!s.connected ==>
       !s.returningHome && !s.pendingDisconnect &&
       s.telemetry.gps == HOME && s.telemetry.speed == 0.0) &&
    0 <= s.telemetry.battery <= InitialBattery &&
    s.telemetry.altitude == InitialAltitude &&
    s.telemetry.speed >= 0.0 &&
    0.0 <= s.telemetry.jitter < JitterRange
  }

  /** One 100 ms tick. No tick runs while disconnected. */
  function Tick(s: State, d: Distance, sample: real): (r: State)
    ensures !s.connected ==> r == s
    ensures s.connected ==>
      r.zeroTierEnabled == s.zeroTierEnabled &&
      r.telemetry.altitude == s.telemetry.altitude &&
      r.telemetry.jitter == Jitter(s.zeroTierEnabled, sample) &&
      r.telemetry.battery == Drain(s.telemetry.battery, s.target.Some?)
    ensures s.connected ==>
      r.telemetry.gps == Advance(s.telemetry.gps, s.target, d).pos &&
      r.telemetry.speed == Advance(s.telemetry.gps, s.target, d).speed
    ensures s.connected && s.target.None? ==>
      r.telemetry.gps == s.telemetry.gps && r.telemetry.speed == 0.0 && r == s.(telemetry := r.telemetry)
    ensures s.connected && Arrives(s.telemetry.gps, s.target, d) ==>
      r.telemetry.gps == s.target.value && r.telemetry.speed == 0.0 &&
      r.target.None? && !r.returningHome
    ensures s.connected && !Arrives(s.telemetry.gps, s.target, d) ==>
      r.connected && r.target == s.target && r.returningHome == s.returningHome &&
      r.pendingDisconnect == s.pendingDisconnect
    ensures s.connected ==>
      (!r.connected <==>
         Arrives(s.telemetry.gps, s.target, d) && s.pendingDisconnect && s.target.value == HOME)
    ensures s.connected && !r.connected ==> !r.pendingDisconnect
    ensures s.connected && r.connected ==> r.pendingDisconnect == s.pendingDisconnect
    ensures IsDistance(d) && 0.0 <= sample < 1.0 && Inv(s) ==> Inv(r)
  {
    if !s.connected then s
    else
      var t := s.telemetry;
      var m := Advance(t.gps, s.target, d);
      var reachedHome := s.target == Some(HOME);
      var disconnect := m.arrived && s.pendingDisconnect && reachedHome;
      s.(
        connected := !disconnect,
        target := if m.arrived then None else s.target,
        returningHome := if m.arrived then false else s.returningHome,
        pendingDisconnect := if disconnect then false else s.pendingDisconnect,
        telemetry := t.(
          gps := m.pos,
          speed := m.speed,
          battery := Drain(t.battery, s.target.Some?),
          jitter := Jitter(s.zeroTierEnabled, sample)))
  }

  /** The connect button. While disconnected it starts a fresh session;
      while connected it does not disconnect but sends the drone home with
      a disconnect pending. The telemetry is untouched either way. */
  function ConnectButton(s: State): (r: State)
    ensures r.connected && r.telemetry == s.telemetry && r.zeroTierEnabled == s.zeroTierEnabled
    ensures !s.connected ==> r.target.None? && !r.returningHome && !r.pendingDisconnect
    ensures s.connected ==> r.target == Some(HOME) && r.returningHome && r.pendingDisconnect
    ensures Inv(s) ==> Inv(r)
  {
    if s.connected then s.(pendingDisconnect := true, returningHome := true, target := Some(HOME))
    else s.(connected := true, returningHome := false, pendingDisconnect := false, target := None)
  }

  /** The return-home button: accepted only while connected and nearly at
      rest; otherwise nothing changes. */
  function ReturnDrone(s: State): (r: State)
    ensures s.connected && s.telemetry.speed < ReturnSpeedLimit ==>
      r == s.(returningHome := true, target := Some(HOME))
    ensures !(s.connected && s.telemetry.speed < ReturnSpeedLimit) ==> r == s
    ensures Inv(s) ==> Inv(r)
  {
    if s.connected && s.telemetry.speed < ReturnSpeedLimit then
      s.(returningHome := true, target := Some(HOME))
    else s
  }

  /** The effect that runs when `connected` becomes false: it clears the
      target and the return-home flag. */
  function DisconnectCleanup(s: State): (r: State)
    ensures !s.connected ==> r.target.None? && !r.returningHome
    ensures r.(target := s.target, returningHome := s.returningHome) == s
    ensures s.connected ==> r == s
    ensures Inv(s) ==> r == s
  {
    if !s.connected then s.(target := None, returningHome := false) else s
  }

  /** The VPN button flips the stable-link mode. */
  function ToggleZeroTier(s: State): (r: State)
    ensures r.zeroTierEnabled != s.zeroTierEnabled && r.(zeroTierEnabled := s.zeroTierEnabled) == s
  {
    s.(zeroTierEnabled := !s.zeroTierEnabled)
  }

  /** The one-second jitter timer, running only while connected. */
  function JitterTick(s: State, sample: real): (r: State)
    ensures !s.connected ==> r == s
    ensures s.connected ==> r == s.(telemetry := s.telemetry.(jitter := Jitter(s.zeroTierEnabled, sample)))
    ensures 0.0 <= sample < 1.0 && Inv(s) ==> Inv(r)
  {
    if s.connected then s.(telemetry := s.telemetry.(jitter := Jitter(s.zeroTierEnabled, sample))) else s
  }

  /** The map's fractional-step integrator writing a new position into the
      telemetry, with the fixed speed it reports. The map is shown, and so
      writes, only while connected. */
  function MapMove(s: State, p: Coord): (r: State)
    ensures !s.connected ==> r == s
    ensures s.connected ==> r == s.(telemetry := s.telemetry.(gps := p, speed := MapSpeed))
    ensures Inv(s) ==> Inv(r)
  {
    if s.connected then s.(telemetry := s.telemetry.(gps := p, speed := MapSpeed)) else s
  }

  /** Everything that can happen to a session. */
  datatype Event =
    | TickEvent(sample: real)
    | ConnectPressed
    | ReturnPressed
    | ZeroTierToggled
    | JitterEvent(sample: real)
    | MapMoved(pos: Coord)
    | Cleanup

  /** Random samples lie in [0, 1), as Math.random() promises. */
  predicate ValidEvent(e: Event)
  {
    match e
    case TickEvent(x) => 0.0 <= x < 1.0
    case JitterEvent(x) => 0.0 <= x < 1.0
    case _ => true
  }

  function Apply(s: State, e: Event, d: Distance): (r: State)
    ensures IsDistance(d) && ValidEvent(e) && Inv(s) ==> Inv(r)
    ensures s.telemetry.battery >= 0 ==> 0 <= r.telemetry.battery <= s.telemetry.battery
    ensures s.connected && !r.connected ==> e.TickEvent? && r.telemetry.gps == HOME
    ensures !s.connected && r.connected ==> e == ConnectPressed
  {
    match e
    case TickEvent(x) => Tick(s, d, x)
    case ConnectPressed => ConnectButton(s)
    case ReturnPressed => ReturnDrone(s)
    case ZeroTierToggled => ToggleZeroTier(s)
    case JitterEvent(x) => JitterTick(s, x)
    case MapMoved(p) => MapMove(s, p)
    case Cleanup => DisconnectCleanup(s)
  }

  function Run(s: State, es: seq<Event>, d: Distance): State
    decreases |es|
  {
    if es == [] then s else Run(Apply(s, es[0], d), es[1..], d)
  }

  lemma {:induction false} RunAppend(s: State, xs: seq<Event>, ys: seq<Event>, d: Distance)
    ensures Run(s, xs + ys, d) == Run(Run(s, xs, d), ys, d)
    decreases |xs|
  {
    if xs == [] {
      assert xs + ys == ys;
    } else {
      assert (xs + ys)[0] == xs[0];
      assert (xs + ys)[1..] == xs[1..] + ys;
      RunAppend(Apply(s, xs[0], d), xs[1..], ys, d);
    }
  }

  lemma {:induction false} RunPreservesInv(s: State, es: seq<Event>, d: Distance)
    requires IsDistance(d) && Inv(s)
    requires forall i :: 0 <= i < |es| ==> ValidEvent(es[i])
    ensures Inv(Run(s, es, d))
    decreases |es|
  {
    if es != [] {
      RunPreservesInv(Apply(s, es[0], d), es[1..], d);
    }
  }

  /** Every session reached from the initial one satisfies the invariant:
      in particular a disconnected drone is at HOME and at rest, so the
      disconnect button never leaves it stranded elsewhere. Each event acts
      on the current session, so a button press delayed past a disconnect
      is not among the runs covered here. */
  lemma ReachableInv(es: seq<Event>, d: Distance)
    requires IsDistance(d)
    requires forall i :: 0 <= i < |es| ==> ValidEvent(es[i])
    ensures Inv(Run(Initial, es, d))
  {
    RunPreservesInv(Initial, es, d);
  }

  lemma {:induction false} RunBattery(s: State, es: seq<Event>, d: Distance)
    requires s.telemetry.battery >= 0
    ensures 0 <= Run(s, es, d).telemetry.battery <= s.telemetry.battery
    decreases |es|
  {
    if es != [] {
      RunBattery(Apply(s, es[0], d), es[1..], d);
    }
  }

  /** Along any sequence of events the battery never rises and never goes
      below zero: a later state holds no more than an earlier one. */
  lemma BatteryNonIncreasing(s: State, es: seq<Event>, d: Distance, i: nat, j: nat)
    requires s.telemetry.battery >= 0
    requires i <= j <= |es|
    ensures 0 <= Run(s, es[..j], d).telemetry.battery <= Run(s, es[..i], d).telemetry.battery <= s.telemetry.battery
  {
    assert es[..j] == es[..i] + es[i..j];
    RunAppend(s, es[..i], es[i..j], d);
    RunBattery(s, es[..i], d);
    RunBattery(Run(s, es[..i], d), es[i..j], d);
  }
}
