/** The heartbeat tracker: every tick reclassifies each known device. */
module Liveness {
  import opened Registry

  const SECOND: int := 1_000_000_000

  /** Times in seconds since the epoch; 0 is "never heard from". */
  datatype Device = Device(status: DeviceStatus, lastHeartbeat: int)

  /** The two limits, as durations in nanoseconds. */
  datatype Limits = Limits(degraded: int, timeout: int)

  function Classify(live: bool, lastHeartbeat: int, now: int, limits: Limits): DeviceStatus {
    if live then Online
    else if lastHeartbeat == 0 then Offline
    else
      var elapsed := (now - lastHeartbeat) * SECOND;
      if elapsed >= limits.timeout then Offline else if elapsed >= limits.degraded then Degraded else Online
  }

  /** The bands: ONLINE below the first limit, DEGRADED from there, OFFLINE from the second limit on. */
  lemma Bands(lastHeartbeat: int, now: int, limits: Limits)
    requires limits.degraded <= limits.timeout
    ensures var elapsed := (now - lastHeartbeat) * 1_000_000_000;
            var status := Classify(false, lastHeartbeat, now, limits);
            && (status == Online <==> lastHeartbeat != 0 && elapsed < limits.degraded)
            && (status == Degraded <==> lastHeartbeat != 0 && limits.degraded <= elapsed < limits.timeout)
            && (status == Offline <==> lastHeartbeat == 0 || limits.timeout <= elapsed)
    ensures Classify(true, lastHeartbeat, now, limits) == Online
  {
  }

  class Tracker {
    var devices: map<string, Device>

    constructor (devices: map<string, Device>)
      ensures this.devices == devices
    {
      this.devices := devices;
    }

    /** A tick nobody disturbs: all statuses become their classification; the changed ones are announced. */
    method Tick(live: set<string>, now: int, limits: Limits) returns (announced: set<string>)
      modifies this
      ensures devices.Keys == old(devices).Keys
      ensures forall d | d in devices ::
                devices[d] ==
                  old(devices)[d].(status := Classify(d in live, old(devices)[d].lastHeartbeat, now, limits))
      ensures forall d :: d in announced <==> d in old(devices) && devices[d].status != old(devices)[d].status
    {
      var rest := devices.Keys;
      announced := {};
      while rest != {}
        invariant rest <= devices.Keys == old(devices).Keys
        invariant forall d | d in devices :: devices[d] == if d in rest then old(devices)[d]
                    else old(devices)[d].(status := Classify(d in live, old(devices)[d].lastHeartbeat, now, limits))
        invariant forall d :: d in announced <==> d in old(devices) && devices[d].status != old(devices)[d].status
        decreases |rest|
      {
        var d :| d in rest;
        var status := Classify(d in live, devices[d].lastHeartbeat, now, limits);
        if status != devices[d].status {
          devices := devices[d := devices[d].(status := status)];
          announced := announced + {d};
        }
        rest := rest - {d};
      }
    }
  }

  // ---- A silent, disconnected device ----

  function Rank(s: DeviceStatus): nat {
    match s case Online => 0 case Degraded => 1 case Offline => 2
  }

  /** The statuses the ticks at the given times leave behind. */
  function Ticks(lastHeartbeat: int, times: seq<int>, limits: Limits): seq<DeviceStatus> {
    seq(|times|, i requires 0 <= i < |times| => Classify(false, lastHeartbeat, times[i], limits))
  }

  predicate InOrder(times: seq<int>) {
    forall i, j | 0 <= i < j < |times| :: times[i] <= times[j]
  }

  predicate Downhill(ss: seq<DeviceStatus>) {
    forall i, j | 0 <= i < j < |ss| :: Rank(ss[i]) <= Rank(ss[j])
  }

  function Changes(ss: seq<DeviceStatus>): nat {
    if |ss| < 2 then 0 else (if ss[0] != ss[1] then 1 else 0) + Changes(ss[1..])
  }

  /** ONLINE, then DEGRADED, then OFFLINE, never back, whatever the limits are. */
  lemma TicksGoDownhill(lastHeartbeat: int, times: seq<int>, limits: Limits)
    requires InOrder(times)
    ensures Downhill(Ticks(lastHeartbeat, times, limits))
  {
  }

  lemma {:induction false} DownhillChanges(ss: seq<DeviceStatus>)
    requires Downhill(ss) && ss != []
    ensures Changes(ss) + Rank(ss[0]) <= Rank(ss[|ss| - 1])
  {
    if |ss| >= 2 {
      assert Downhill(ss[1..]) by {
        forall i, j | 0 <= i < j < |ss| - 1 ensures Rank(ss[1..][i]) <= Rank(ss[1..][j]) {}
      }
      DownhillChanges(ss[1..]);
    }
  }

  /** At most three changes from any stored status; OFFLINE for good once the timeout has passed. */
  lemma SilentDevice(prior: DeviceStatus, lastHeartbeat: int, times: seq<int>, limits: Limits)
    requires InOrder(times)
    ensures Changes([prior] + Ticks(lastHeartbeat, times, limits)) <= 3
    ensures forall i, j | 0 <= i <= j < |times| && (times[i] - lastHeartbeat) * SECOND >= limits.timeout ::
              Ticks(lastHeartbeat, times, limits)[j] == Offline
  {
    var ss := Ticks(lastHeartbeat, times, limits);
    TicksGoDownhill(lastHeartbeat, times, limits);
    if ss != [] {
      DownhillChanges(ss);
      assert ([prior] + ss)[1..] == ss;
    }
  }

  /**
   The bound is met: an unregistered device is stored OFFLINE, the next tick puts it back to
   ONLINE because its heartbeat is recent, and it then fades again.
   */
  lemma ThreeChangesHappen(lastHeartbeat: int, limits: Limits)
    requires lastHeartbeat > 0 && limits == Limits(20 * SECOND, 45 * SECOND)
    ensures var times := [lastHeartbeat + 5, lastHeartbeat + 25, lastHeartbeat + 50];
            && InOrder(times)
            && Ticks(lastHeartbeat, times, limits) == [Online, Degraded, Offline]
            && Changes([Offline] + Ticks(lastHeartbeat, times, limits)) == 3
  {
    var ss := [Online, Degraded, Offline];
    assert Ticks(lastHeartbeat, [lastHeartbeat + 5, lastHeartbeat + 25, lastHeartbeat + 50], limits) == ss;
    assert ([Offline] + ss)[1..] == ss && ss[1..] == [Degraded, Offline] && ss[1..][1..] == [Offline];
    assert Changes([Degraded, Offline]) == 1;
    assert Changes(ss) == 2;
  }

  /**
   Exactly when a device stored OFFLINE by its unregister stays OFFLINE over any run of ticks: it
   was never heard from, or its timeout has passed by the first tick.
   */
  lemma StaysOfflineIff(lastHeartbeat: int, times: seq<int>, limits: Limits)
    requires InOrder(times)
    ensures Changes([Offline] + Ticks(lastHeartbeat, times, limits)) == 0
       <==> times == [] || lastHeartbeat == 0 || (times[0] - lastHeartbeat) * SECOND >= limits.timeout
  {
    var ss := Ticks(lastHeartbeat, times, limits);
    if ss != [] {
      assert ([Offline] + ss)[1..] == ss;
      TicksGoDownhill(lastHeartbeat, times, limits);
      DownhillChanges(ss);
    }
  }

  // ---- A tick that others disturb ----

  /** Where the tracker is with a device: it lists, looks the connection up, then writes. */
  datatype Turn =
    | Waiting
    | Snapshot(seen: Device, now: int)
    | Decided(was: DeviceStatus, verdict: DeviceStatus)

  /** One device: its row, whether an agent is registered for it, and the tracker's progress with it. */
  datatype Monitor = Monitor(device: Device, live: bool, turn: Turn)

  datatype Move = ListDevices(now: int) | LookUp | Write | Auth(now: int) | Leave | Heartbeat(now: int)

  function Moved(m: Monitor, a: Move, limits: Limits): Monitor {
    match a
    case ListDevices(now) => if m.turn.Waiting? then m.(turn := Snapshot(m.device, now)) else m
    case LookUp =>
      if !m.turn.Snapshot? then m
      else m.(turn := Decided(m.turn.seen.status, Classify(m.live, m.turn.seen.lastHeartbeat, m.turn.now, limits)))
    case Write =>
      if !m.turn.Decided? then m
      else m.(turn := Waiting,
              device := if m.turn.verdict != m.turn.was then m.device.(status := m.turn.verdict) else m.device)
    case Auth(now) => m.(live := true, device := Device(Online, now))
    case Leave => if m.live then m.(live := false, device := m.device.(status := Offline)) else m
    case Heartbeat(now) => m.(device := Device(Online, now))
  }

  function Moves(m: Monitor, moves: seq<Move>, limits: Limits): Monitor {
    if moves == [] then m else Moved(Moves(m, moves[..|moves| - 1], limits), moves[|moves| - 1], limits)
  }

  /** Connected, and stored as anything but ONLINE. */
  predicate Misstated(m: Monitor) {
    m.live && m.device.status != Online
  }

  /** What others do: the tracker is the only one to list, look up and write. */
  predicate Environment(moves: seq<Move>) {
    forall a | a in moves :: a.Auth? || a.Leave? || a.Heartbeat?
  }

  /** Others keep the status of a connected device right, and leave the tracker's turn alone. */
  lemma {:induction false} EnvironmentKeeps(m: Monitor, moves: seq<Move>, limits: Limits)
    requires Environment(moves) && !Misstated(m)
    ensures !Misstated(Moves(m, moves, limits)) && Moves(m, moves, limits).turn == m.turn
  {
    if moves != [] {
      var n := |moves| - 1;
      assert moves[n] in moves && forall a | a in moves[..n] :: a in moves;
      EnvironmentKeeps(m, moves[..n], limits);
    }
  }

  /**
   One tick, with anything happening before its lookup and before its write: it leaves a connected
   device stored as not ONLINE exactly if the lookup, by the row as listed, gives another status
   than the listed one and not ONLINE, and the device is connected by the time of the write.
   */
  lemma TickMisstatesIff(m: Monitor, now: int, before: seq<Move>, between: seq<Move>, limits: Limits)
    requires m.turn.Waiting? && !Misstated(m) && Environment(before) && Environment(between)
    ensures var looked := Moves(Moved(m, ListDevices(now), limits), before, limits);
            var writing := Moves(Moved(looked, LookUp, limits), between, limits);
            var verdict := Classify(looked.live, m.device.lastHeartbeat, now, limits);
            Misstated(Moved(writing, Write, limits)) <==>
              writing.live && verdict != Online && verdict != m.device.status
  {
    var listed := Moved(m, ListDevices(now), limits);
    EnvironmentKeeps(listed, before, limits);
    var looked := Moves(listed, before, limits);
    EnvironmentKeeps(Moved(looked, LookUp, limits), between, limits);
  }

  /** With nothing in between, the three steps are a tick of the tracker. */
  lemma UndisturbedTick(m: Monitor, now: int, limits: Limits)
    requires m.turn.Waiting?
    ensures Moved(Moved(Moved(m, ListDevices(now), limits), LookUp, limits), Write, limits)
         == m.(device := m.device.(status := Classify(m.live, m.device.lastHeartbeat, now, limits)))
  {
  }

  /** A heartbeat counts whether or not a connection is registered: a tick soon after it finds the device ONLINE. */
  lemma HeardIsOnline(m: Monitor, at: int, now: int, limits: Limits)
    requires m.turn.Waiting? && at != 0 && (now - at) * SECOND < limits.degraded <= limits.timeout
    ensures Moved(m, Heartbeat(at), limits).device == Device(Online, at)
    ensures var heard := Moved(m, Heartbeat(at), limits);
            Moved(Moved(Moved(heard, ListDevices(now), limits), LookUp, limits), Write, limits) == heard
  {
  }

  /** It happens: a silent device comes back between the lookup and the write. */
  lemma ReturnIsMissed(lastHeartbeat: int, now: int, limits: Limits)
    requires lastHeartbeat != 0 && (now - lastHeartbeat) * SECOND >= limits.timeout
    ensures var m := Monitor(Device(Degraded, lastHeartbeat), false, Waiting);
            var tick := Moves(m, [ListDevices(now), LookUp, Auth(now), Write], limits);
            tick.live && tick.device == Device(Offline, now)
  {
    var m := Monitor(Device(Degraded, lastHeartbeat), false, Waiting);
    var all := [ListDevices(now), LookUp, Auth(now), Write];
    assert all[..3] == [ListDevices(now), LookUp, Auth(now)] && all[..3][..2] == [ListDevices(now), LookUp];
    assert all[..3][..2][..1] == [ListDevices(now)] && [ListDevices(now)][..0] == [];
    assert Moves(m, [ListDevices(now)], limits) == Moved(m, ListDevices(now), limits);
    assert Moves(m, all[..3][..2], limits).turn == Decided(Degraded, Offline);
  }

  /** The row of a connected device will be ONLINE when the turn is over. */
  predicate Corrects(m: Monitor) {
    && m.live
    && match m.turn
       case Waiting => m.device.status == Online
       case Snapshot(seen, _) => seen.status == Online ==> m.device.status == Online
       case Decided(was, verdict) => verdict == Online && (was == Online ==> m.device.status == Online)
  }

  /**
   But not for longer than the next tick: whatever the row said, a device that stays connected from
   a listing on is stored as ONLINE once that tick is through, and after every later one.
   */
  lemma {:induction false} ConnectedTickCorrects(m: Monitor, now: int, moves: seq<Move>, limits: Limits)
    requires m.live && m.turn.Waiting? && Leave !in moves
    ensures var after := Moves(Moved(m, ListDevices(now), limits), moves, limits);
            Corrects(after) && (after.turn.Waiting? ==> after.device.status == Online)
  {
    if moves != [] {
      var n := |moves| - 1;
      assert moves[n] in moves && forall a | a in moves[..n] :: a in moves;
      ConnectedTickCorrects(m, now, moves[..n], limits);
    }
  }
}
