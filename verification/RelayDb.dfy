/**
 The relay's SQLite tables (CloudCommandQueue, CloudResultQueue, AuditLogs) and the effect of each
 store call on them. `now` is the clock reading of the call.
 */
module RelayDb {
  import opened Ordering

  datatype Status = Pending | Dispatched | Completed | Failed {
    function Rank(): nat {
      match this case Pending => 0 case Dispatched => 1 case _ => 2
    }
  }

  datatype Command = Command(deviceId: string, command: string, timeoutSec: int, status: Status,
                             createdAt: int, dispatchedAt: int, completedAt: int)

  /** A result as it arrives from an agent or from the cloud executor. */
  datatype Report = Report(resultId: string, commandId: string, deviceId: string, stdout: string, stderr: string,
                           exitCode: int, executedAt: int, timedOut: bool)

  datatype ResultRow = ResultRow(commandId: string, deviceId: string, stdout: string, stderr: string,
                                 exitCode: int, executedAt: int, receivedAt: int)

  datatype AuditRecord = AuditRecord(deviceId: string, timestamp: int, actionType: string, commandText: string,
                                     exitCode: int, details: string)

  datatype Db = Db(devices: set<string>, commands: map<string, Command>, results: map<string, ResultRow>,
                   audit: map<string, AuditRecord>)

  // ---- The command queue ----

  /** A duplicate id is refused by the primary key; the device row is there either way. */
  function EnqueueCommand(db: Db, id: string, deviceId: string, command: string, timeoutSec: int,
                          createdAt: int, now: int)
    : (Db, bool)
  {
    var known := db.(devices := db.devices + {deviceId});
    if id in db.commands then (known, false)
    else
      var row := Command(deviceId, command, timeoutSec, Pending, if createdAt == 0 then now else createdAt, 0, 0);
      (known.(commands := known.commands[id := row]), true)
  }

  predicate PendingFor(db: Db, deviceId: string, id: string) {
    id in db.commands && db.commands[id].deviceId == deviceId && db.commands[id].status.Pending?
  }

  function PendingKeys(db: Db, deviceId: string): set<Key> {
    set id | id in db.commands && PendingFor(db, deviceId, id) :: Key(db.commands[id].createdAt, id)
  }

  lemma PendingKeyIff(db: Db, deviceId: string, k: Key)
    ensures k in PendingKeys(db, deviceId)
        <==> PendingFor(db, deviceId, k.id) && k.createdAt == db.commands[k.id].createdAt
  {
  }

  function MarkDispatched(db: Db, id: string, now: int): Db {
    if id in db.commands && db.commands[id].status.Pending?
    then db.(commands := db.commands[id := db.commands[id].(status := Dispatched, dispatchedAt := now)])
    else db
  }

  /** No guard on the previous status. */
  function MarkCompleted(db: Db, id: string, status: Status, now: int): Db {
    if id in db.commands
    then db.(commands := db.commands[id := db.commands[id].(status := status, completedAt := now)])
    else db
  }

  function CancelledRow(c: Command, deviceId: string, now: int): Command {
    if c.deviceId == deviceId && c.status.Pending? then c.(status := Failed, completedAt := now) else c
  }

  function CancelPending(db: Db, deviceId: string, now: int): Db {
    db.(commands := map id | id in db.commands :: CancelledRow(db.commands[id], deviceId, now))
  }

  // ---- Results ----

  /** The primary key a report is stored under. */
  function ResultKey(r: Report): string {
    if r.resultId == "" then r.commandId else r.resultId
  }

  function Outcome(r: Report): Status {
    if r.exitCode != 0 || r.timedOut then Failed else Completed
  }

  /** The upsert: a conflicting row keeps its CommandId and DeviceId and takes the other columns. */
  function ResultRowFor(db: Db, r: Report, now: int): ResultRow {
    var e := ResultKey(r);
    var owner := if e in db.results then (db.results[e].commandId, db.results[e].deviceId)
                 else (r.commandId, r.deviceId);
    ResultRow(owner.0, owner.1, r.stdout, r.stderr, r.exitCode, if r.executedAt == 0 then now else r.executedAt, now)
  }

  function SaveSandboxResult(db: Db, r: Report, now: int): Db {
    db.(results := db.results[ResultKey(r) := ResultRowFor(db, r, now)])
  }

  function SaveResult(db: Db, r: Report, now: int): Db {
    MarkCompleted(SaveSandboxResult(db, r, now), r.commandId, Outcome(r), now)
  }

  /** A repeated LogId is refused by the primary key. */
  function RecordAuditLog(db: Db, logId: string, rec: AuditRecord, now: int): Db {
    if logId in db.audit then db
    else db.(audit := db.audit[logId := if rec.timestamp == 0 then rec.(timestamp := now) else rec])
  }

  ghost predicate HasResultFor(db: Db, commandId: string) {
    exists e | e in db.results :: db.results[e].commandId == commandId
  }

  /**
   Where a report goes and what it decides: a row under its own id, or under the command's id if it
   has none, with its content; no other row changes; the command is COMPLETED on exit 0 within the
   time limit and FAILED otherwise.
   */
  lemma SavedWhere(db: Db, r: Report, now: int)
    ensures var after := SaveResult(db, r, now);
            var key := if r.resultId != "" then r.resultId else r.commandId;
            && after.results.Keys == db.results.Keys + {key}
            && (forall e | e in db.results && e != key :: after.results[e] == db.results[e])
            && after.results[key].stdout == r.stdout && after.results[key].stderr == r.stderr
            && after.results[key].exitCode == r.exitCode && after.results[key].receivedAt == now
            && after.results[key].executedAt == (if r.executedAt != 0 then r.executedAt else now)
            && (key !in db.results ==>
                  after.results[key].commandId == r.commandId && after.results[key].deviceId == r.deviceId)
            && (r.commandId in db.commands ==>
                  && after.commands[r.commandId].completedAt == now
                  && (after.commands[r.commandId].status == Completed <==> r.exitCode == 0 && !r.timedOut)
                  && (after.commands[r.commandId].status == Failed <==> r.exitCode != 0 || r.timedOut))
            && SaveSandboxResult(db, r, now) == db.(results := after.results)
  {
  }

  /** Whether saving a report leaves a row for its command: not when its key belongs to another command. */
  lemma SaveLeavesRow(db: Db, r: Report, now: int)
    ensures HasResultFor(SaveResult(db, r, now), r.commandId)
       <==> HasResultFor(db, r.commandId) || ResultKey(r) !in db.results
  {
    var after := SaveResult(db, r, now);
    var e := ResultKey(r);
    assert after.results == db.results[e := ResultRowFor(db, r, now)];
    if HasResultFor(db, r.commandId) {
      var x :| x in db.results && db.results[x].commandId == r.commandId;
      assert x in after.results && after.results[x].commandId == r.commandId;
    } else if e !in db.results {
      assert after.results[e].commandId == r.commandId;
    } else {
      forall x | x in after.results ensures after.results[x].commandId != r.commandId {
        assert x in db.results;
      }
    }
  }

  // ---- Monotonicity over every sequence of store calls ----

  datatype Op =
    | Enqueue(id: string, deviceId: string, command: string, timeoutSec: int, createdAt: int, now: int)
    | Dispatch(id: string, now: int)
    | Cancel(deviceId: string, now: int)
    | Complete(id: string, failed: bool, now: int)
    | Save(report: Report, now: int)
    | SaveSandbox(report: Report, now: int)
    | Audit(logId: string, rec: AuditRecord, now: int)

  function Apply(db: Db, op: Op): Db {
    match op
    case Enqueue(id, d, c, t, at, now) => EnqueueCommand(db, id, d, c, t, at, now).0
    case Dispatch(id, now) => MarkDispatched(db, id, now)
    case Cancel(d, now) => CancelPending(db, d, now)
    case Complete(id, failed, now) => MarkCompleted(db, id, if failed then Failed else Completed, now)
    case Save(r, now) => SaveResult(db, r, now)
    case SaveSandbox(r, now) => SaveSandboxResult(db, r, now)
    case Audit(id, rec, now) => RecordAuditLog(db, id, rec, now)
  }

  function ApplyAll(db: Db, ops: seq<Op>): Db
    decreases ops
  {
    if ops == [] then db else ApplyAll(Apply(db, ops[0]), ops[1..])
  }

  /** `b` is a possible later content of `a`. */
  ghost predicate Grows(a: Db, b: Db) {
    && a.devices <= b.devices
    && (forall id | id in a.commands ::
          && id in b.commands
          && a.commands[id].status.Rank() <= b.commands[id].status.Rank()
          && b.commands[id].(status := Pending, dispatchedAt := 0, completedAt := 0)
             == a.commands[id].(status := Pending, dispatchedAt := 0, completedAt := 0))
    && (forall e | e in a.results ::
          e in b.results && b.results[e].commandId == a.results[e].commandId
          && b.results[e].deviceId == a.results[e].deviceId)
    && (forall l | l in a.audit :: l in b.audit && b.audit[l] == a.audit[l])
  }

  lemma CompleteGrows(db: Db, id: string, status: Status, now: int)
    requires status.Completed? || status.Failed?
    ensures Grows(db, MarkCompleted(db, id, status, now))
  {
  }

  lemma UpsertGrows(db: Db, r: Report, now: int)
    ensures Grows(db, SaveSandboxResult(db, r, now))
  {
  }

  lemma GrowsTransitive(a: Db, b: Db, c: Db)
    requires Grows(a, b) && Grows(b, c)
    ensures Grows(a, c)
  {
  }

  lemma StepGrows(db: Db, op: Op)
    ensures Grows(db, Apply(db, op))
  {
    match op
    case Complete(id, failed, now) =>
      CompleteGrows(db, id, if failed then Failed else Completed, now);
    case Save(r, now) =>
      var upserted := SaveSandboxResult(db, r, now);
      UpsertGrows(db, r, now);
      CompleteGrows(upserted, r.commandId, Outcome(r), now);
      GrowsTransitive(db, upserted, Apply(db, op));
    case SaveSandbox(r, now) =>
      UpsertGrows(db, r, now);
    case _ =>
  }

  lemma {:induction false} RunGrows(db: Db, ops: seq<Op>)
    ensures Grows(db, ApplyAll(db, ops))
    decreases ops
  {
    if ops != [] {
      StepGrows(db, ops[0]);
      RunGrows(Apply(db, ops[0]), ops[1..]);
      GrowsTransitive(db, Apply(db, ops[0]), ApplyAll(db, ops));
    }
  }

  /** The audit table holds the first record written under each id, and nothing else. */
  function FirstAudit(ops: seq<Op>, logId: string): Option<AuditRecord> {
    if ops == [] then None
    else if ops[0].Audit? && ops[0].logId == logId
    then Some(if ops[0].rec.timestamp == 0 then ops[0].rec.(timestamp := ops[0].now) else ops[0].rec)
    else FirstAudit(ops[1..], logId)
  }

  lemma {:induction false} AuditKeepsFirst(db: Db, ops: seq<Op>, logId: string)
    ensures var after := ApplyAll(db, ops).audit;
            if logId in db.audit then logId in after && after[logId] == db.audit[logId]
            else match FirstAudit(ops, logId)
                 case None => logId !in after
                 case Some(rec) => logId in after && after[logId] == rec
    decreases ops
  {
    if ops != [] {
      AuditKeepsFirst(Apply(db, ops[0]), ops[1..], logId);
    }
  }

  /** The row the first Enqueue under an id makes, before anything happens to it. */
  function FirstEnqueue(ops: seq<Op>, id: string): Option<Op> {
    if ops == [] then None
    else if ops[0].Enqueue? && ops[0].id == id then Some(ops[0])
    else FirstEnqueue(ops[1..], id)
  }

  /** Over every sequence of calls, a command is what the first Enqueue under its id asked for. */
  lemma {:induction false} EnqueuedFirst(db: Db, ops: seq<Op>, id: string)
    requires id !in db.commands
    ensures var after := ApplyAll(db, ops);
            match FirstEnqueue(ops, id)
            case None => id !in after.commands
            case Some(op) =>
              && op.Enqueue? && id in after.commands && op.deviceId in after.devices
              && after.commands[id].deviceId == op.deviceId && after.commands[id].command == op.command
              && after.commands[id].timeoutSec == op.timeoutSec
              && after.commands[id].createdAt == (if op.createdAt != 0 then op.createdAt else op.now)
    decreases ops
  {
    if ops != [] {
      var next := Apply(db, ops[0]);
      if ops[0].Enqueue? && ops[0].id == id {
        RunGrows(next, ops[1..]);
      } else {
        EnqueuedFirst(next, ops[1..], id);
      }
    }
  }

  /** Cancelling fails exactly the PENDING commands of the device and leaves it none. */
  lemma CancelClears(db: Db, deviceId: string, now: int, id: string)
    requires id in db.commands
    ensures var after := CancelPending(db, deviceId, now);
            && id in after.commands && !PendingFor(after, deviceId, id)
            && (after.commands[id] != db.commands[id] <==> PendingFor(db, deviceId, id))
            && (PendingFor(db, deviceId, id) ==>
                  after.commands[id] == db.commands[id].(status := Failed, completedAt := now))
  {
  }

  /** Only the operations that name a command's fate change a status. */
  lemma QuietOps(db: Db, op: Op)
    requires op.SaveSandbox? || op.Audit? || (op.Enqueue? && op.id in db.commands)
    ensures Apply(db, op).commands == db.commands
  {
  }

  // ---- Replaying a synchronisation ----

  /** A report and the clock reading of the call that saves it. */
  datatype Stamped = Stamped(report: Report, at: int)

  /** Saving results in order, one store call each. */
  function SaveAll(db: Db, saves: seq<Stamped>): Db {
    if saves == [] then db
    else SaveResult(SaveAll(db, saves[..|saves| - 1]), saves[|saves| - 1].report, saves[|saves| - 1].at)
  }

  function FirstUnder(saves: seq<Stamped>, key: string): Option<Stamped> {
    if saves == [] then None
    else if ResultKey(saves[0].report) == key then Some(saves[0])
    else FirstUnder(saves[1..], key)
  }

  function LastUnder(saves: seq<Stamped>, key: string): Option<Stamped> {
    if saves == [] then None
    else if ResultKey(saves[|saves| - 1].report) == key then Some(saves[|saves| - 1])
    else LastUnder(saves[..|saves| - 1], key)
  }

  function LastFor(saves: seq<Stamped>, commandId: string): Option<Stamped> {
    if saves == [] then None
    else if saves[|saves| - 1].report.commandId == commandId then Some(saves[|saves| - 1])
    else LastFor(saves[..|saves| - 1], commandId)
  }

  /** The last report about a command decides its status; nothing else about it but the completion time moves. */
  lemma {:induction false} SaveAllCommand(db: Db, saves: seq<Stamped>, id: string)
    ensures var after := SaveAll(db, saves);
            && (id in after.commands <==> id in db.commands)
            && (id in db.commands ==>
                  match LastFor(saves, id)
                  case None => after.commands[id] == db.commands[id]
                  case Some(s) =>
                    after.commands[id] == db.commands[id].(status := Outcome(s.report), completedAt := s.at))
            && after.devices == db.devices && after.audit == db.audit
  {
    if saves != [] {
      SaveAllCommand(db, saves[..|saves| - 1], id);
    }
  }

  /** Owner columns come from the first writer of a key, the others from the last. */
  function FinalRow(db: Db, saves: seq<Stamped>, key: string): Option<ResultRow> {
    match (FirstUnder(saves, key), LastUnder(saves, key))
    case (Some(first), Some(last)) =>
      var owner := if key in db.results then (db.results[key].commandId, db.results[key].deviceId)
                   else (first.report.commandId, first.report.deviceId);
      Some(ResultRow(owner.0, owner.1, last.report.stdout, last.report.stderr, last.report.exitCode,
                     if last.report.executedAt == 0 then last.at else last.report.executedAt, last.at))
    case (_, _) => if key in db.results then Some(db.results[key]) else None
  }

  lemma {:induction false} FirstAppend(saves: seq<Stamped>, s: Stamped, key: string)
    ensures FirstUnder(saves + [s], key)
         == if FirstUnder(saves, key).Some? then FirstUnder(saves, key)
            else if ResultKey(s.report) == key then Some(s) else None
  {
    if saves != [] {
      FirstAppend(saves[1..], s, key);
      assert (saves + [s])[1..] == saves[1..] + [s];
    }
  }

  lemma {:induction false} FirstIffLast(saves: seq<Stamped>, key: string)
    ensures FirstUnder(saves, key).Some? <==> LastUnder(saves, key).Some?
    ensures LastUnder(saves, key).Some? ==> ResultKey(LastUnder(saves, key).value.report) == key
  {
    if saves != [] {
      var n := |saves| - 1;
      FirstIffLast(saves[..n], key);
      FirstAppend(saves[..n], saves[n], key);
      assert saves == saves[..n] + [saves[n]];
    }
  }

  lemma FinalRowAppend(db: Db, saves: seq<Stamped>, s: Stamped, key: string)
    ensures var before := FinalRow(db, saves, key);
            FinalRow(db, saves + [s], key) ==
            if ResultKey(s.report) != key then before
            else Some(ResultRow(if before.Some? then before.value.commandId else s.report.commandId,
                                if before.Some? then before.value.deviceId else s.report.deviceId,
                                s.report.stdout, s.report.stderr, s.report.exitCode,
                                if s.report.executedAt == 0 then s.at else s.report.executedAt, s.at))
  {
    FirstIffLast(saves, key);
    FirstAppend(saves, s, key);
    assert (saves + [s])[..|saves|] == saves;
  }

  lemma {:induction false} SaveAllResult(db: Db, saves: seq<Stamped>, key: string)
    ensures var after := SaveAll(db, saves);
            match FinalRow(db, saves, key)
            case None => key !in after.results
            case Some(row) => key in after.results && after.results[key] == row
  {
    if saves != [] {
      var n := |saves| - 1;
      SaveAllResult(db, saves[..n], key);
      FinalRowAppend(db, saves[..n], saves[n], key);
      assert saves == saves[..n] + [saves[n]];
    }
  }

  /** New ids, all different. */
  ghost predicate NewIds(db: Db, saves: seq<Stamped>) {
    && (forall i | 0 <= i < |saves| :: saves[i].report.resultId != "" && saves[i].report.resultId !in db.results)
    && (forall i, j | 0 <= i < j < |saves| :: saves[i].report.resultId != saves[j].report.resultId)
  }

  /** All old rows are as they were, each of the reports has one of its own, and there are no others. */
  ghost predicate AllKept(rows: map<string, ResultRow>, saves: seq<Stamped>, after: map<string, ResultRow>) {
    && |after| == |rows| + |saves|
    && (forall e | e in rows :: e in after && after[e] == rows[e])
    && (forall i | 0 <= i < |saves| :: HasRow(after, saves[i]))
  }

  /** The attempts of a retried command, and any other reports with ids of their own, all keep their rows. */
  lemma {:induction false} DistinctReportsKept(db: Db, saves: seq<Stamped>)
    requires NewIds(db, saves)
    ensures AllKept(db.results, saves, SaveAll(db, saves).results)
  {
    if saves != [] {
      var n := |saves| - 1;
      var before := SaveAll(db, saves[..n]);
      assert forall i | 0 <= i < n :: saves[..n][i] == saves[i];
      DistinctReportsKept(db, saves[..n]);
      NoRowYet(db, saves[..n], saves[n].report.resultId);
      OneMoreKept(before, saves[n]);
      AllKeptStep(db.results, saves, before.results, SaveAll(db, saves).results);
    }
  }

  lemma AllKeptStep(rows: map<string, ResultRow>, saves: seq<Stamped>, before: map<string, ResultRow>,
                    after: map<string, ResultRow>)
    requires saves != [] && AllKept(rows, saves[..|saves| - 1], before)
    requires var s := saves[|saves| - 1];
             && s.report.resultId !in before && HasRow(after, s) && |after| == |before| + 1
             && after == before[s.report.resultId := after[s.report.resultId]]
    ensures AllKept(rows, saves, after)
  {
    var n := |saves| - 1;
    forall i | 0 <= i < n ensures HasRow(after, saves[i]) {
      assert HasRow(before, saves[..n][i]);
    }
  }

  lemma {:induction false} NoRowYet(db: Db, saves: seq<Stamped>, e: string)
    requires e !in db.results
    requires forall i | 0 <= i < |saves| :: saves[i].report.resultId != "" && saves[i].report.resultId != e
    ensures e !in SaveAll(db, saves).results
  {
    if saves != [] {
      NoRowYet(db, saves[..|saves| - 1], e);
      SavedWhere(SaveAll(db, saves[..|saves| - 1]), saves[|saves| - 1].report, saves[|saves| - 1].at);
    }
  }

  /** The report has a row under its own id. */
  predicate HasRow(results: map<string, ResultRow>, s: Stamped) {
    s.report.resultId in results && Shows(results[s.report.resultId], s)
  }

  /** The row is the saved report. */
  predicate Shows(row: ResultRow, s: Stamped) {
    && row.commandId == s.report.commandId && row.deviceId == s.report.deviceId
    && row.stdout == s.report.stdout && row.stderr == s.report.stderr && row.exitCode == s.report.exitCode
    && row.executedAt == (if s.report.executedAt != 0 then s.report.executedAt else s.at) && row.receivedAt == s.at
  }

  lemma OneMoreKept(db: Db, s: Stamped)
    requires s.report.resultId != "" && s.report.resultId !in db.results
    ensures var after := SaveResult(db, s.report, s.at).results;
            && |after| == |db.results| + 1 && s.report.resultId in after && Shows(after[s.report.resultId], s)
            && after == db.results[s.report.resultId := after[s.report.resultId]]
  {
    var after := SaveResult(db, s.report, s.at).results;
    assert after.Keys == db.results.Keys + {s.report.resultId};
    assert |after.Keys| == |db.results.Keys| + 1;
  }

  /** Equal up to the times of reception and completion. */
  ghost predicate SameContent(a: Db, b: Db) {
    && a.devices == b.devices && a.audit == b.audit
    && a.commands.Keys == b.commands.Keys && a.results.Keys == b.results.Keys
    && (forall id | id in a.commands :: a.commands[id].(completedAt := 0) == b.commands[id].(completedAt := 0))
    && (forall e | e in a.results :: a.results[e].(receivedAt := 0) == b.results[e].(receivedAt := 0))
  }

  /** The same reports, each saved at a time of its own. */
  ghost predicate Replays(again: seq<Stamped>, saves: seq<Stamped>) {
    |again| == |saves| && forall i | 0 <= i < |saves| :: again[i].report == saves[i].report
  }

  /** The report that decides the row says when it was executed, or the clock read the same both times. */
  predicate SameDate(saves: seq<Stamped>, again: seq<Stamped>, key: string) {
    match (LastUnder(saves, key), LastUnder(again, key))
    case (Some(s), Some(t)) => s.report.executedAt != 0 || s.at == t.at
    case (_, _) => true
  }

  lemma {:induction false} ReplayedLast(saves: seq<Stamped>, again: seq<Stamped>, key: string, id: string)
    requires Replays(again, saves)
    ensures LastUnder(saves, key).Some? <==> LastUnder(again, key).Some?
    ensures LastUnder(saves, key).Some? ==> LastUnder(saves, key).value.report == LastUnder(again, key).value.report
    ensures LastFor(saves, id).Some? <==> LastFor(again, id).Some?
    ensures LastFor(saves, id).Some? ==> LastFor(saves, id).value.report == LastFor(again, id).value.report
  {
    if saves != [] {
      var n := |saves| - 1;
      assert forall i | 0 <= i < n :: again[..n][i] == again[i] && saves[..n][i] == saves[i];
      ReplayedLast(saves[..n], again[..n], key, id);
    }
  }

  lemma ReplayedRow(db: Db, saves: seq<Stamped>, again: seq<Stamped>, key: string)
    requires Replays(again, saves)
    ensures var once := SaveAll(db, saves);
            var twice := SaveAll(once, again);
            && (key in twice.results <==> key in once.results)
            && (LastUnder(saves, key).Some? ==> key in once.results)
            && (key in once.results ==>
                  (twice.results[key].(receivedAt := 0) == once.results[key].(receivedAt := 0)
                   <==> SameDate(saves, again, key)))
  {
    SaveAllResult(db, saves, key);
    SaveAllResult(SaveAll(db, saves), again, key);
    FirstIffLast(saves, key);
    FirstIffLast(again, key);
    ReplayedLast(saves, again, key, "");
  }

  lemma ReplayedCommand(db: Db, saves: seq<Stamped>, again: seq<Stamped>, id: string)
    requires Replays(again, saves)
    ensures var once := SaveAll(db, saves);
            var twice := SaveAll(once, again);
            && (id in twice.commands <==> id in once.commands)
            && (id in once.commands ==> twice.commands[id].(completedAt := 0) == once.commands[id].(completedAt := 0))
            && twice.devices == once.devices && twice.audit == once.audit
  {
    SaveAllCommand(db, saves, id);
    SaveAllCommand(SaveAll(db, saves), again, id);
    ReplayedLast(saves, again, "", id);
  }

  /**
   Replaying a SYNC_REQ, with any clock readings, is idempotent exactly when each report that
   decides a row carries its execution time or is stamped with the same time again.
   */
  lemma ReplayIdempotent(db: Db, saves: seq<Stamped>, again: seq<Stamped>)
    requires Replays(again, saves)
    ensures SameContent(SaveAll(SaveAll(db, saves), again), SaveAll(db, saves))
       <==> forall key :: SameDate(saves, again, key)
  {
    var once := SaveAll(db, saves);
    var twice := SaveAll(once, again);
    forall id ensures (id in twice.commands <==> id in once.commands)
                   && (id in once.commands ==>
                        twice.commands[id].(completedAt := 0) == once.commands[id].(completedAt := 0))
                   && twice.devices == once.devices && twice.audit == once.audit
    {
      ReplayedCommand(db, saves, again, id);
    }
    assert twice.devices == once.devices && twice.audit == once.audit by { ReplayedCommand(db, saves, again, ""); }
    forall key ensures (key in twice.results <==> key in once.results)
                    && (LastUnder(saves, key).Some? ==> key in once.results)
                    && (key in once.results ==>
                          (twice.results[key].(receivedAt := 0) == once.results[key].(receivedAt := 0)
                           <==> SameDate(saves, again, key)))
    {
      ReplayedRow(db, saves, again, key);
    }
  }

  /** A single undated report saved twice at different times is enough to break it. */
  lemma UndatedReplayDiffers(db: Db, r: Report, t1: int, t2: int)
    requires r.executedAt == 0 && t1 != t2
    ensures var once := SaveAll(db, [Stamped(r, t1)]);
            !SameContent(SaveAll(once, [Stamped(r, t2)]), once)
  {
    ReplayIdempotent(db, [Stamped(r, t1)], [Stamped(r, t2)]);
    assert !SameDate([Stamped(r, t1)], [Stamped(r, t2)], ResultKey(r));
  }

  // ---- Handing out pending commands ----

  /** Marking the listed commands DISPATCHED, one store call each; `clock` gives each call's time. */
  function MarkAll(db: Db, keys: seq<Key>, clock: nat -> int): Db {
    if keys == [] then db
    else MarkDispatched(MarkAll(db, keys[..|keys| - 1], clock), keys[|keys| - 1].id, clock(|keys| - 1))
  }

  ghost predicate Lists(keys: seq<Key>, id: string) {
    exists i | 0 <= i < |keys| :: keys[i].id == id
  }

  /** The first place in a list that names a command. */
  ghost function FirstAt(keys: seq<Key>, id: string): (i: nat)
    requires Lists(keys, id)
    ensures i < |keys| && keys[i].id == id && forall j | 0 <= j < i :: keys[j].id != id
  {
    var n := |keys| - 1;
    assert forall i | 0 <= i < n :: keys[..n][i] == keys[i];
    if Lists(keys[..n], id) then FirstAt(keys[..n], id) else n
  }

  lemma {:induction false} MarkAllCommand(db: Db, keys: seq<Key>, clock: nat -> int, id: string)
    ensures var after := MarkAll(db, keys, clock);
            && (id in after.commands <==> id in db.commands)
            && (id in db.commands ==>
                  after.commands[id] == if Lists(keys, id) && db.commands[id].status.Pending?
                                        then db.commands[id].(status := Dispatched,
                                                              dispatchedAt := clock(FirstAt(keys, id)))
                                        else db.commands[id])
  {
    if keys != [] {
      var n := |keys| - 1;
      MarkAllCommand(db, keys[..n], clock, id);
      ListsInit(keys, id);
    }
  }

  lemma ListsInit(keys: seq<Key>, id: string)
    requires keys != []
    ensures var n := |keys| - 1;
            && (Lists(keys, id) <==> Lists(keys[..n], id) || keys[n].id == id)
            && (Lists(keys, id) ==> FirstAt(keys, id) == if Lists(keys[..n], id) then FirstAt(keys[..n], id) else n)
  {
  }

  /** After the pending commands of a device have been handed out, none is left PENDING. */
  lemma HandOutClears(db: Db, deviceId: string, clock: nat -> int, id: string)
    ensures !PendingFor(MarkAll(db, Sorted(PendingKeys(db, deviceId)), clock), deviceId, id)
  {
    var keys := PendingKeys(db, deviceId);
    SortedLists(keys);
    MarkAllCommand(db, Sorted(keys), clock, id);
    if PendingFor(db, deviceId, id) {
      var k := Key(db.commands[id].createdAt, id);
      PendingKeyIff(db, deviceId, k);
      assert k in Sorted(keys);
      assert Lists(Sorted(keys), id);
    }
  }

  // ---- The saves of a SYNC_REQ ----

  /** The saves that succeed, each with its own clock reading; those at the positions `failed` do not. */
  function Kept(reports: seq<Report>, failed: set<nat>, clock: nat -> int): seq<Stamped> {
    if reports == [] then [] else
      var n := |reports| - 1;
      Kept(reports[..n], failed, clock) + (if n in failed then [] else [Stamped(reports[n], clock(n))])
  }

  lemma {:induction false} KeptIff(reports: seq<Report>, failed: set<nat>, clock: nat -> int, s: Stamped)
    ensures s in Kept(reports, failed, clock)
       <==> exists i | 0 <= i < |reports| :: i !in failed && s == Stamped(reports[i], clock(i))
  {
    if reports != [] {
      var n := |reports| - 1;
      KeptIff(reports[..n], failed, clock, s);
      assert forall i | 0 <= i < n :: reports[..n][i] == reports[i];
    }
  }

  /** One more save at the end of a list. */
  lemma KeptNext(db: Db, reports: seq<Report>, i: nat, failed: set<nat>, clock: nat -> int)
    requires i < |reports|
    ensures var kept := Kept(reports[..i], failed, clock);
            var more := Kept(reports[..i + 1], failed, clock);
            && SaveAll(db, more)
               == (if i in failed then SaveAll(db, kept) else SaveResult(SaveAll(db, kept), reports[i], clock(i)))
            && CommandIds(more) == CommandIds(kept) + (if i in failed then [] else [reports[i].commandId])
  {
    var kept := Kept(reports[..i], failed, clock);
    var one := [Stamped(reports[i], clock(i))];
    assert reports[..i + 1][..i] == reports[..i];
    if i in failed {
      assert kept + [] == kept;
    } else {
      assert Kept(reports[..i + 1], failed, clock) == kept + one;
      assert (kept + one)[..|kept|] == kept;
    }
  }

  /** The ids a SYNC_RESP acknowledges. */
  function CommandIds(saves: seq<Stamped>): seq<string> {
    seq(|saves|, i requires 0 <= i < |saves| => saves[i].report.commandId)
  }
}
