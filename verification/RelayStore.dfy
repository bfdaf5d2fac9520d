/** The relay's open database, and the hub handlers that work on it alone. */
module RelayStore {
  import opened Ordering
  import opened RelayDb

  class Store {
    var devices: set<string>
    var commands: map<string, Command>
    var results: map<string, ResultRow>
    var audit: map<string, AuditRecord>

    function Value(): Db
      reads this
    {
      Db(devices, commands, results, audit)
    }

    constructor ()
      ensures Value() == Db({}, map[], map[], map[])
    {
      devices, commands, results, audit := {}, map[], map[], map[];
    }

    method EnqueueCommand(id: string, deviceId: string, command: string, timeoutSec: int, createdAt: int, now: int)
      returns (ok: bool)
      modifies this
      ensures (Value(), ok) == RelayDb.EnqueueCommand(old(Value()), id, deviceId, command, timeoutSec, createdAt, now)
    {
      devices := devices + {deviceId};
      ok := id !in commands;
      if ok {
        var at := if createdAt == 0 then now else createdAt;
        commands := commands[id := Command(deviceId, command, timeoutSec, Pending, at, 0, 0)];
      }
    }

    method GetPendingCommands(deviceId: string) returns (keys: seq<Key>)
      ensures keys == Sorted(PendingKeys(Value(), deviceId))
    {
      keys := List(PendingKeys(Value(), deviceId));
    }

    method CancelPendingCommands(deviceId: string, now: int)
      modifies this
      ensures Value() == CancelPending(old(Value()), deviceId, now)
    {
      var rest := commands.Keys;
      while rest != {}
        invariant rest <= commands.Keys == old(commands).Keys
        invariant devices == old(devices) && results == old(results) && audit == old(audit)
        invariant forall id | id in commands ::
          commands[id] == if id in rest then old(commands)[id] else CancelledRow(old(commands)[id], deviceId, now)
        decreases |rest|
      {
        var id :| id in rest;
        if commands[id].deviceId == deviceId && commands[id].status.Pending? {
          commands := commands[id := commands[id].(status := Failed, completedAt := now)];
        }
        rest := rest - {id};
      }
      assert commands == CancelPending(old(Value()), deviceId, now).commands;
    }

    method MarkCommandDispatched(id: string, now: int)
      modifies this
      ensures Value() == MarkDispatched(old(Value()), id, now)
    {
      if id in commands && commands[id].status.Pending? {
        commands := commands[id := commands[id].(status := Dispatched, dispatchedAt := now)];
      }
    }

    method MarkCommandCompleted(id: string, status: Status, now: int)
      modifies this
      ensures Value() == MarkCompleted(old(Value()), id, status, now)
    {
      if id in commands {
        commands := commands[id := commands[id].(status := status, completedAt := now)];
      }
    }

    method SaveSandboxResult(r: Report, now: int)
      modifies this
      ensures Value() == RelayDb.SaveSandboxResult(old(Value()), r, now)
    {
      var e := if r.resultId == "" then r.commandId else r.resultId;
      var at := if r.executedAt == 0 then now else r.executedAt;
      if e in results {
        results := results[e := results[e].(stdout := r.stdout, stderr := r.stderr, exitCode := r.exitCode,
                                            executedAt := at, receivedAt := now)];
      } else {
        results := results[e := ResultRow(r.commandId, r.deviceId, r.stdout, r.stderr, r.exitCode, at, now)];
      }
    }

    method SaveResult(r: Report, now: int)
      modifies this
      ensures Value() == RelayDb.SaveResult(old(Value()), r, now)
    {
      SaveSandboxResult(r, now);
      MarkCommandCompleted(r.commandId, if r.exitCode != 0 || r.timedOut then Failed else Completed, now);
    }

    method RecordAuditLog(logId: string, rec: AuditRecord, now: int)
      modifies this
      ensures Value() == RelayDb.RecordAuditLog(old(Value()), logId, rec, now)
    {
      if logId !in audit {
        audit := audit[logId := if rec.timestamp == 0 then rec.(timestamp := now) else rec];
      }
    }

    /** Saves results in order; the saves at the positions `failed` end in an error and are not acknowledged. */
    method SaveResults(reports: seq<Report>, failed: set<nat>, clock: nat -> int) returns (acked: seq<string>)
      modifies this
      ensures acked == CommandIds(Kept(reports, failed, clock))
      ensures Value() == SaveAll(old(Value()), Kept(reports, failed, clock))
    {
      acked := [];
      ghost var start := Value();
      for i := 0 to |reports|
        invariant Value() == SaveAll(start, Kept(reports[..i], failed, clock))
        invariant acked == CommandIds(Kept(reports[..i], failed, clock))
      {
        KeptNext(start, reports, i, failed, clock);
        if i !in failed {
          SaveResult(reports[i], clock(i));
          acked := acked + [reports[i].commandId];
        }
      }
      assert reports[..|reports|] == reports;
    }

    /** Reads the device's pending commands and marks each DISPATCHED. */
    method HandOut(deviceId: string, clock: nat -> int) returns (pending: seq<Key>)
      modifies this
      ensures pending == Sorted(PendingKeys(old(Value()), deviceId))
      ensures Value() == MarkAll(old(Value()), pending, clock)
      ensures forall id :: !PendingFor(Value(), deviceId, id)
    {
      ghost var start := Value();
      pending := GetPendingCommands(deviceId);
      for i := 0 to |pending|
        invariant Value() == MarkAll(start, pending[..i], clock)
      {
        assert pending[..i + 1][..i] == pending[..i];
        MarkCommandDispatched(pending[i].id, clock(i));
      }
      assert pending[..|pending|] == pending;
      forall id ensures !PendingFor(Value(), deviceId, id) {
        HandOutClears(start, deviceId, clock, id);
      }
    }

    /**
     A SYNC_REQ: save the results, acknowledge those whose save succeeded, hand out what is
     pending. Every store call reads the clock for itself.
     */
    method HandleSyncReq(deviceId: string, reports: seq<Report>, failed: set<nat>,
                         saveClock: nat -> int, markClock: nat -> int)
      returns (acked: seq<string>, pending: seq<Key>)
      modifies this
      ensures acked == CommandIds(Kept(reports, failed, saveClock))
      ensures pending == Sorted(PendingKeys(SaveAll(old(Value()), Kept(reports, failed, saveClock)), deviceId))
      ensures Value() == MarkAll(SaveAll(old(Value()), Kept(reports, failed, saveClock)), pending, markClock)
      ensures forall id :: !PendingFor(Value(), deviceId, id)
    {
      acked := SaveResults(reports, failed, saveClock);
      pending := HandOut(deviceId, markClock);
    }
  }
}
