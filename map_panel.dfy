/** The map panel's state held in mutable fields, as the component holds
    it in state hooks: the path and the crossing log grow by appending, the
    membership flag and the clicked target are overwritten. Each effect and
    handler is proved to perform the step that Geofence defines. */
module MapPanel {
  import opened Geo
  import Geofence

  class MapPanel {
    var path: seq<Coord>
    var logs: seq<Geofence.LogEntry>
    var outside: bool
    /** The panel's own click target, separate from the session's. */
    var target: Option<Coord>
    /** The distance function in use (haversine in the console). */
    const dist: Distance

    ghost function Monitor(): Geofence.Monitor
      reads this
    {
      Geofence.Monitor(outside, logs, path)
    }

    ghost predicate Valid()
      reads this
    {
      Geofence.Alternating(Monitor())
    }

    constructor (d: Distance)
      ensures Valid() && dist == d
      ensures Monitor() == Geofence.InitialMonitor && target.None?
    {
      dist := d;
      path := [];
      logs := [];
      outside := false;
      target := None;
    }

    /** The geofence and path effect, run for the position (lat, lon). */
    method Check(lat: real, lon: real)
      requires Valid()
      modifies this
      ensures Valid()
      ensures Monitor() == Geofence.Check(old(Monitor()), Coord(lat, lon), dist)
      ensures target == old(target)
      ensures |logs| <= |old(logs)| + 1 && logs[..|old(logs)|] == old(logs)
      ensures path == old(path) + [Coord(lat, lon)]
    {
      var isOutside := dist(Coord(lat, lon), HOME) > Geofence.GeofenceRadius;
      if isOutside && !outside {
        logs := logs + [Geofence.LogEntry(Geofence.Exit, Coord(lat, lon))];
      }
      if !isOutside && outside {
        logs := logs + [Geofence.LogEntry(Geofence.Enter, Coord(lat, lon))];
      }
      outside := isOutside;
      path := path + [Coord(lat, lon)];
    }

    /** A click on the map at `p`. */
    method Click(p: Coord, returningHome: bool)
      modifies this`target
      ensures target == Geofence.Click(old(target), p, returningHome)
    {
      if !returningHome {
        target := Some(p);
      }
    }

    /** The fractional-step effect, run for the current position. A
        `MoveTo` outcome is the position (with speed 10) the panel writes
        into the session's telemetry. */
    method Step(pos: Coord, returningHome: bool) returns (o: Geofence.StepOutcome)
      modifies this`target
      ensures o == Geofence.FractionalStep(pos, old(target), returningHome)
      ensures target == if o.TargetReached? then None else old(target)
    {
      if target.None? {
        return Geofence.NoTarget;
      }
      var t := target.value;
      var dx := t.lat - pos.lat;
      var dy := t.lon - pos.lon;
      var step := if returningHome then Geofence.ReturnFraction else Geofence.CruiseFraction;
      if Abs(dx) < Geofence.ArriveTolerance && Abs(dy) < Geofence.ArriveTolerance {
        target := None;
        return Geofence.TargetReached;
      }
      var newLat := pos.lat + dx * step;
      var newLon := pos.lon + dy * step;
      o := Geofence.MoveTo(Coord(newLat, newLon));
    }
  }
}
