# Drone ground-station console: simulation core in Dafny

This project models the simulation logic of a React ground-station console
for one simulated drone. Rendering, timers and trigonometry are stripped
away. Two components carry the logic:

- **The session (`src/App.jsx`).** It holds the connection flags
  (`connected`, `returningHome`, `pendingDisconnect`, `zeroTierEnabled`),
  the navigation `target` and a telemetry record (altitude, speed,
  battery, GPS position, link jitter). It has:
  - a 100 ms movement tick that snaps onto a target within one step
    (10 m/s × 100 ms = 1 m) or otherwise moves toward it;
  - a battery drain floored at zero;
  - a deferred disconnect that completes only on arrival at HOME;
  - the Connect/Disconnect and Return Home buttons, the VPN toggle, the
    one-second jitter timer and the clean-up effect that runs on disconnect.
- **The map panel (`src/MapView.jsx`).** It has:
  - a geofence monitor that keeps the previous membership and logs EXIT
    and ENTER only when membership changes;
  - a path recorder that appends every position;
  - a click handler that is ignored while returning home;
  - a second integrator that moves the drone a fixed fraction (0.05 when
    returning home, 0.001 otherwise) of the remaining offset toward the
    clicked point.

Layout:

- `geo.dfy` (module `Geo`): coordinates, `HOME`, the distance function type
  and a shared lemma about moving part of the way toward a point.
- `session.dfy` (module `Session`): the session as a value. Each
  transition is a function. The invariant `Inv` is proved for every
  sequence of events from the initial state, and battery monotonicity is
  proved along any event sequence.
- `console.dfy` (module `Console`): class `Console`, the same session in
  mutable fields. Each handler is a method proved to perform the
  corresponding `Session` transition and to keep `Valid()`.
- `geofence.dfy` (module `Geofence`): the monitor, the click guard and the
  fractional-step integrator as values, with lemmas over runs of positions.
- `map_panel.dfy` (module `MapPanel`): class `MapPanel`, with `path` and
  `logs` as sequence fields that grow by appending. Its methods are proved
  equal to the `Geofence` steps.

Modelling choices:

- Positions are pairs of `real`s in degrees.
- The haversine distance is not modelled. It is the parameter
  `d: (Coord, Coord) -> real`, and the model assumes only `IsDistance(d)`:
  the distance is never negative and a point is at distance 0 from itself.
- Battery is an integer in thousandths of a percent: 90 % is 90000, the
  0.02 % moving drain is 20 and the 0.005 % idle drain is 5. All checks
  are exact.
- `Math.random()` is a parameter `sample` in [0, 1).

What the code does, in places where a reader might expect otherwise:

- **Click targets stay in the map panel.** A map click sets the panel's
  own `target` (src/MapView.jsx:17, 34), not the session's. The session's
  `target` is only ever null or HOME, and it is HOME exactly while
  `returningHome` holds. This is part of `Session.Inv`, proved for every
  reachable state. So in the tick, "reached home" is true on every arrival.
- **Reconnecting keeps the telemetry.** The connect button does not
  reinitialise the telemetry. The battery is therefore non-increasing
  across sessions too.
- **The map panel restarts with each session.** The panel is mounted
  only while connected (src/App.jsx:216-223), so its `path`, `logs`,
  `outside` flag and clicked `target` are discarded on every disconnect
  and start again from the initial state (src/MapView.jsx:14-17) on every
  connect. The log and the path therefore cover one session only, and a
  clicked target is dropped on disconnect.
- **No EXIT is logged at the start of a session.** The monitor starts
  inside (`outside == false`), with no baseline step. A first position
  outside would log an EXIT. But the first position of a session is where
  the disconnected drone rests, which is HOME (`Session.Inv`), and HOME
  is inside the fence (`Geofence.FirstCheckAtHome`). So a session never
  opens with an EXIT.
- **The tick's move is not exactly one metre.** It divides a degree offset
  by a metre distance (src/App.jsx:81-89), which covers about one metre
  only while that offset is small. The model does not claim a one-metre
  step or convergence of the speed to 10 m/s. What it proves is that the
  remaining offset on each axis is multiplied by 1 - 1/dst, so the move
  follows the straight line to the target and lands strictly between the
  current position and the target on each axis. The reported speed is the
  distance actually covered divided by 0.1 s.
- **Disconnection happens only at HOME.** In the model, each button press
  acts on the session as it stands when the press takes effect. There, in
  every reachable state, a disconnected drone is at HOME, at rest, with
  neither `returningHome` nor `pendingDisconnect` set. The code's delayed
  handler can break the last part (see "## Left out"). The stable-link flag `zeroTierEnabled` is
  independent of the connection and may be on while disconnected. The
  clean-up effect (src/App.jsx:132-138) changes nothing in a reachable
  state (`Session.DisconnectCleanup`).

## Model

| member | source | states |
|---|---|---|
| Session.StepToward | src/App.jsx:81-89 | one coordinate of the constant-step move leaves the remaining offset scaled by 1 - 1/dst and lands strictly between the current value and the target's |
| Session.Advance | src/App.jsx:52-95 | no target: position kept, speed 0; within one step: position becomes exactly the target, speed 0, arrived; otherwise not arrived, the remaining offset on each axis multiplied by 1 - 1/dst (so strictly between on both axes and collinear with the target), speed = distance moved / 0.1 s and never negative |
| Session.Drain | src/App.jsx:98-100 | the new battery is never negative and never above the old one; above zero it is exactly the old level minus 20 (moving) or 5 (idle); it is zero only when the old level was at most that drain |
| Session.Jitter | src/App.jsx:107 | jitter is 10 ms with the stable link, otherwise within [0, 120) for a sample in [0, 1) |
| Session.Tick | src/App.jsx:44-108 | no tick while disconnected; altitude kept; position and speed are those of Session.Advance (a moving tick shrinks the offset by 1 - 1/dst); no target: position kept, speed 0; arrival: snap to target, speed 0, target and returningHome cleared; the tick disconnects iff it arrives with pendingDisconnect set and the target HOME; otherwise the session stays connected with flags unchanged; the invariant is preserved |
| Session.ConnectButton | src/App.jsx:140-153 | disconnected: connected with no target, returningHome and pendingDisconnect cleared, stable-link flag kept; connected: stays connected, pendingDisconnect and returningHome set, target HOME; telemetry untouched; invariant preserved |
| Session.ReturnDrone | src/App.jsx:156-161 | when connected and speed < 0.5: returningHome set and target HOME, nothing else changes; otherwise nothing changes |
| Session.DisconnectCleanup | src/App.jsx:132-138 | when disconnected clears target and returningHome and nothing else; when connected changes nothing; on a state satisfying the invariant it changes nothing |
| Session.ToggleZeroTier | src/App.jsx:185 | flips the stable-link flag and nothing else |
| Session.JitterTick | src/App.jsx:118-129 | while connected re-samples only the jitter; nothing while disconnected; invariant preserved |
| Session.MapMove | src/MapView.jsx:56 | while connected the map panel's write sets position and speed 10 and nothing else; invariant preserved |
| Session.Apply | src/App.jsx:38-161 | any event keeps the invariant and never raises the battery; a connected session becomes disconnected only through a tick that ends at HOME; a disconnected one becomes connected only through the connect button |
| Session.RunPreservesInv | src/App.jsx:38-161 | every sequence of events keeps the invariant |
| Session.ReachableInv | src/App.jsx:8-20 | every session reached from the initial one has target HOME exactly while returning home, pendingDisconnect only while returning home, a disconnected drone at HOME at rest, battery in [0, 90 %], altitude 200, jitter in [0, 120) |
| Session.RunBattery | src/App.jsx:98-100 | after any sequence of events the battery lies between 0 and its starting level |
| Session.BatteryNonIncreasing | src/App.jsx:98-100 | along any sequence of events a later battery level is never above an earlier one and never below 0 |
| Console.Console.constructor | src/App.jsx:8-20 | starts disconnected at HOME with altitude 200, speed 0, battery 90 %, jitter 0, no target, no flags |
| Console.Console.Tick | src/App.jsx:50-108 | the in-place tick performs Session.Tick and keeps the invariant; the battery does not rise; a disconnect leaves the drone at HOME with no target |
| Console.Console.ConnectButton | src/App.jsx:140-153 | performs Session.ConnectButton; the session is connected afterwards |
| Console.Console.ReturnDrone | src/App.jsx:156-161 | performs Session.ReturnDrone |
| Console.Console.OnConnectedChanged | src/App.jsx:132-138 | performs Session.DisconnectCleanup, which leaves every field unchanged in a valid session |
| Console.Console.ToggleZeroTier | src/App.jsx:185 | performs Session.ToggleZeroTier |
| Console.Console.JitterTick | src/App.jsx:121-126 | performs Session.JitterTick |
| Console.Console.MapMove | src/MapView.jsx:56 | performs Session.MapMove |
| Geofence.Check | src/MapView.jsx:59-73 | outside is recomputed as distance to HOME > 200 (200 m is inside); the position is appended to the path; the old log is kept as a prefix; exactly one entry is appended iff membership changed, EXIT when it became outside and ENTER when it became inside, carrying the position; alternation is preserved |
| Geofence.CheckAllPath | src/MapView.jsx:72 | over a run of positions the path grows by exactly those positions, in order |
| Geofence.CheckAllLogs | src/MapView.jsx:63-68 | over a run of positions the old log stays a prefix and exactly one entry is logged per membership change |
| Geofence.CheckAllOutside | src/MapView.jsx:60-70 | after a non-empty run the stored membership is that of the last position |
| Geofence.CheckAllAlternating | src/MapView.jsx:63-70 | an alternating log (EXIT, ENTER, ... with outside iff an odd count) stays alternating over any run |
| Geofence.FromInitial | src/MapView.jsx:14-16 | from the initial panel the log alternates starting with EXIT, has one entry per membership change, and the path is exactly the positions seen |
| Geofence.FirstCheckAtHome | src/MapView.jsx:14-16 | the first evaluation of a fresh panel at HOME is inside, logs nothing and records HOME as the only path point |
| Geofence.SteadyLogsNothing | src/MapView.jsx:63-68 | positions that keep the current membership log nothing |
| Geofence.OutAndBack | src/MapView.jsx:59-73 | a flight that leaves the fence once and comes back once logs exactly EXIT at the first outside point and then ENTER at the first point back inside |
| Geofence.Click | src/MapView.jsx:31-38 | a click sets the target to the clicked point unless returning home, in which case the target is unchanged |
| Geofence.Approach | src/MapView.jsx:43-54 | one fractional step leaves the offset on each axis scaled by 1 - step and lands strictly between the position and the target |
| Geofence.FractionalStep | src/MapView.jsx:40-57 | nothing without a target; the target is reached iff both offsets are below 0.00005; otherwise the move is the fractional approach |
| Geofence.ApproachNOffset | src/MapView.jsx:40-57 | after n applications of Approach toward a fixed target (re-runs of the step that have not yet come within the arrival tolerance) the remaining offset on each axis is the original times (1 - step)^n |
| MapPanel.MapPanel.constructor | src/MapView.jsx:14-17 | starts inside, with empty log and path and no target |
| MapPanel.MapPanel.Check | src/MapView.jsx:59-73 | the in-place evaluation performs Geofence.Check, appends at most one log entry, never changes earlier entries, appends the position to the path and keeps the log alternating |
| MapPanel.MapPanel.Click | src/MapView.jsx:31-38 | performs Geofence.Click on the target field |
| MapPanel.MapPanel.Step | src/MapView.jsx:40-57 | returns the outcome of Geofence.FractionalStep and clears the target exactly when it was reached |

## Left out

- The haversine formula (src/App.jsx:24-35, src/MapView.jsx:19-29) is floating-point trigonometry. The model replaces it with an uninterpreted distance parameter that is assumed non-negative and zero from a point to itself.
- Session.Advance: does not claim that a move covers one metre or that the reported speed tends to 10 m/s. The formula divides degrees by metres, and the measured speed depends on the uninterpreted distance.
- Floating-point rounding. Coordinates and speeds are exact reals, and the battery is an exact integer, whereas JavaScript accumulates rounding error in `battery - 0.02`.
- Timers and React scheduling: `setInterval`, `clearInterval`, the 300 ms `setTimeout` on the button (but see the next line), effect re-runs triggered by dependency changes (including the extra path append that follows a change of `outside`), and the interleaving of the session tick with the map panel's integrator. Each step is modelled on its own; `Session.Run` admits any interleaving of them.
- Session.ConnectButton, Session.Inv and Session.ReachableInv: the delayed button handler (src/App.jsx:177) acts on the `connected` value seen at the click, not the value 300 ms later. The model applies a press to the current session instead. In the code, a second press in the last 300 ms before the arriving tick disconnects takes the connected branch (src/App.jsx:141-145) on a session that is already disconnected. That leaves it disconnected with `returningHome` and `pendingDisconnect` set and the target at HOME, a state the invariant excludes. The drone is still at HOME and at rest. The flags stay set until the next connect clears them (src/App.jsx:146-152).
- `Math.random()` is a parameter in [0, 1). `new Date()` timestamps on log entries are omitted.
- Rendering: JSX, Leaflet markers, icons and circles, CSS classes, `toFixed` formatting, and the low-battery warning style.
- src/GeofenceCircle.js is a rendering component imported nowhere. Its only logic, `dist <= radius`, duplicates the map panel's classification.
- src/WebRTCMock.jsx only sets the video playback rate.
- server/signaling-server.js is a WebSocket broadcast relay, network plumbing without model state. The relay fan-out property is therefore not modelled.
