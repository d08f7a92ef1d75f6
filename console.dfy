/** The console's session held in mutable fields, as the React component
    holds it in state hooks. Every handler updates the fields in place and
    is proved to perform the transition that Session defines, so the
    invariant and the lemmas proved there apply to it. */
module Console {
  import opened Geo
  import Session

  class Console {
    var connected: bool
    var zeroTierEnabled: bool
    var target: Option<Coord>
    var returningHome: bool
    var pendingDisconnect: bool
    var telemetry: Session.Telemetry
    /** The distance function in use (haversine in the console). */
    const dist: Distance

    ghost function Snapshot(): Session.State
      reads this
    {
      Session.State(connected, zeroTierEnabled, target, returningHome, pendingDisconnect, telemetry)
    }

    ghost predicate Valid()
      reads this
    {
      IsDistance(dist) && Session.Inv(Snapshot())
    }

    constructor (d: Distance)
      requires IsDistance(d)
      ensures Valid() && dist == d
      ensures Snapshot() == Session.Initial
    {
      dist := d;
      connected := false;
      zeroTierEnabled := false;
      target := None;
      returningHome := false;
      pendingDisconnect := false;
      telemetry := Session.InitialTelemetry;
    }

    /** One 100 ms tick of the movement timer; `sample` stands for the
        Math.random() draw used for the jitter. */
    method Tick(sample: real)
      requires Valid() && 0.0 <= sample < 1.0
      modifies this
      ensures Valid()
      ensures Snapshot() == Session.Tick(old(Snapshot()), dist, sample)
      ensures 0 <= telemetry.battery <= old(telemetry.battery)
      ensures old(connected) && !connected ==> telemetry.gps == HOME && target.None?
    {
      if !connected {
        return;
      }
      var cur := telemetry.gps;
      var newPos := cur;
      var newSpeed := 0.0;
      var hadTarget := target.Some?;
      if target.Some? {
        var t := target.value;
        var dst := dist(cur, t);
        if dst <= Session.StepMeters {
          var reachedHome := t.lat == HOME.lat && t.lon == HOME.lon;
          target := None;
          newPos := t;
          newSpeed := 0.0;
          if returningHome {
            returningHome := false;
          }
          if pendingDisconnect && reachedHome {
            connected := false;
            pendingDisconnect := false;
          }
        } else {
          var dx := t.lat - cur.lat;
          var dy := t.lon - cur.lon;
          var nx := dx / dst;
          var ny := dy / dst;
          newPos := Coord(cur.lat + nx * Session.StepMeters, cur.lon + ny * Session.StepMeters);
          var moved := dist(cur, newPos);
          newSpeed := moved / Session.TickSeconds;
        }
      }
      var drain := if hadTarget then Session.MovingDrain else Session.IdleDrain;
      var newBattery := if telemetry.battery - drain < 0 then 0 else telemetry.battery - drain;
      var newJitter := if zeroTierEnabled then Session.StableJitter else sample * Session.JitterRange;
      telemetry := telemetry.(gps := newPos, speed := newSpeed, battery := newBattery, jitter := newJitter);
    }

    /** The Connect / Disconnect button. */
    method ConnectButton()
      requires Valid()
      modifies this
      ensures Valid()
      ensures Snapshot() == Session.ConnectButton(old(Snapshot()))
      ensures connected
    {
      if connected {
        pendingDisconnect := true;
        returningHome := true;
        target := Some(HOME);
      } else {
        connected := true;
        returningHome := false;
        pendingDisconnect := false;
        target := None;
      }
    }

    /** The Return Home button. */
    method ReturnDrone()
      requires Valid()
      modifies this
      ensures Valid()
      ensures Snapshot() == Session.ReturnDrone(old(Snapshot()))
    {
      if connected && telemetry.speed < Session.ReturnSpeedLimit {
        returningHome := true;
        target := Some(HOME);
      }
    }

    /** The effect that runs when `connected` changes; it also stops the
        movement timer, which in this model means Tick does nothing. */
    method OnConnectedChanged()
      requires Valid()
      modifies this
      ensures Valid()
      ensures Snapshot() == Session.DisconnectCleanup(old(Snapshot()))
      ensures unchanged(this)
    {
      if !connected {
        target := None;
        returningHome := false;
      }
    }

    /** The VPN button. */
    method ToggleZeroTier()
      requires Valid()
      modifies this
      ensures Valid()
      ensures Snapshot() == Session.ToggleZeroTier(old(Snapshot()))
    {
      zeroTierEnabled := !zeroTierEnabled;
    }

    /** One tick of the one-second jitter timer. */
    method JitterTick(sample: real)
      requires Valid() && 0.0 <= sample < 1.0
      modifies this
      ensures Valid()
      ensures Snapshot() == Session.JitterTick(old(Snapshot()), sample)
    {
      if connected {
        var newJitter := if zeroTierEnabled then Session.StableJitter else sample * Session.JitterRange;
        telemetry := telemetry.(jitter := newJitter);
      }
    }

    /** The telemetry update the map panel's integrator sends up. */
    method MapMove(p: Coord)
      requires Valid()
      modifies this
      ensures Valid()
      ensures Snapshot() == Session.MapMove(old(Snapshot()), p)
    {
      if connected {
        telemetry := telemetry.(gps := p, speed := Session.MapSpeed);
      }
    }
  }
}
