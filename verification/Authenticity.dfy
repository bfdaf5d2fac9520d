/** Everything the relay shows of a command goes back to the agent, or to a decision of its own. */
module Authenticity {
  import AgentDb
  import A = AgentRuns
  import R = RelayDb
  import opened NetClient
  import opened Protocol

  function ContentOf(r: R.Report): Content {
    Content(r.stdout, r.stderr, r.exitCode)
  }

  function RowContent(row: R.ResultRow): Content {
    Content(row.stdout, row.stderr, row.exitCode)
  }

  /** The report is this saved result, sent with or without its id. */
  predicate Reports(r: AgentDb.Result, report: R.Report) {
    && report.commandId == r.commandId && ContentOf(report) == Content(r.stdout, r.stderr, r.exitCode)
    && report.executedAt == r.executedAt && (report.resultId == "" || report.resultId == r.resultId)
  }

  /** The relay's row is this saved result, under its own id or under the command's; a missing time is filled in. */
  predicate Keeps(r: AgentDb.Result, key: string, row: R.ResultRow) {
    && row.commandId == r.commandId && RowContent(row) == Content(r.stdout, r.stderr, r.exitCode)
    && row.executedAt == (if r.executedAt != 0 then r.executedAt else row.receivedAt)
    && (key == r.commandId || key == r.resultId)
  }

  /** The complaint about a payload that cannot be decoded. */
  predicate Complaint(s: A.State, c: string, content: Content) {
    Undecodable(s, c) && content.stdout == "" && content.exitCode == -1 && "invalid payload: " <= content.stderr
  }

  ghost predicate Reported(s: A.State, r: R.Report) {
    exists i | 0 <= i < |s.db.results| :: Reports(s.db.results[i], r)
  }

  /** A report comes from the device, with a saved result, or the complaint about an undecodable payload. */
  ghost predicate Backed(s: A.State, r: R.Report) {
    && !r.timedOut && r.deviceId == DEVICE
    && (Reported(s, r) || (r.resultId == "" && Complaint(s, r.commandId, ContentOf(r))))
  }

  ghost predicate AllBacked(s: A.State, rs: seq<R.Report>) {
    forall i | 0 <= i < |rs| :: Backed(s, rs[i])
  }

  ghost predicate WireBacked(s: State) {
    && (forall r | CmdResult(r) in s.toRelay :: Backed(s.agent, r))
    && (forall rs | SyncReq(rs) in s.toRelay :: AllBacked(s.agent, rs))
    && (forall k | k in s.jobs && s.jobs[k].Saving? :: AllBacked(s.agent, s.jobs[k].todo))
  }

  ghost predicate Made(s: A.State, key: string, row: R.ResultRow) {
    exists i | 0 <= i < |s.db.results| :: Keeps(s.db.results[i], key, row)
  }

  /**
   A result row is the device's, with the content of a result the agent saved for the command, of
   the complaint about its payload, or of a result the cloud gave itself. Under an agent's result
   id it is that result.
   */
  ghost predicate RowBacked(s: State, key: string, row: R.ResultRow) {
    && row.deviceId == DEVICE
    && (|| Made(s.agent, key, row)
        || (key == row.commandId && Complaint(s.agent, row.commandId, RowContent(row)))
        || (key == row.commandId && Gave(row.commandId, RowContent(row)) in s.cloud))
  }

  ghost predicate SavedExit(s: A.State, c: string, zero: bool) {
    exists i | 0 <= i < |s.db.results| :: s.db.results[i].commandId == c && (s.db.results[i].exitCode == 0 <==> zero)
  }

  /** COMPLETED has a saved exit 0 or a predefined answer behind it, FAILED a saved failure or a cancellation. */
  ghost predicate StatusBacked(s: State, id: string, status: R.Status) {
    match status
    case Completed => SavedExit(s.agent, id, true) || Answered(id) in s.cloud
    case Failed => SavedExit(s.agent, id, false) || Undecodable(s.agent, id) || Cancelled(id) in s.cloud
    case _ => true
  }

  ghost predicate TablesBacked(s: State) {
    && (forall e | e in s.relay.results :: RowBacked(s, e, s.relay.results[e]))
    && (forall id | id in s.relay.commands :: StatusBacked(s, id, s.relay.commands[id].status))
  }

  ghost predicate Authentic(s: State) {
    WireBacked(s) && TablesBacked(s)
  }

  // ---- Agent steps take nothing back ----

  ghost predicate Continues(s: A.State, t: A.State) {
    && |s.db.results| <= |t.db.results|
    && (forall i | 0 <= i < |s.db.results| ::
          var r := s.db.results[i];
          t.db.results[i] == r.(synced := t.db.results[i].synced))
    && (forall id | Undecodable(s, id) :: Undecodable(t, id))
  }

  lemma StepContinues(s: A.State, a: A.Action, max: nat)
    ensures Continues(s, A.Step(s, a, max))
  {
    var t := A.Step(s, a, max);
    forall i | 0 <= i < |s.db.results|
      ensures i < |t.db.results| && t.db.results[i] == s.db.results[i].(synced := t.db.results[i].synced)
    {
      A.SyncedStep(s, a, max, i);
    }
    if |s.db.results| > 0 { assert |s.db.results| - 1 < |t.db.results|; }
    forall id | Undecodable(s, id) ensures Undecodable(t, id) {
      A.StepKeepsRow(s, a, max, id);
    }
  }

  /** What was there carries over; a step has to show what it adds to the wire and to the tables. */
  lemma WireCarries(s: State, t: State)
    requires WireBacked(s) && Continues(s.agent, t.agent)
    requires forall r | CmdResult(r) in t.toRelay :: CmdResult(r) in s.toRelay || Backed(t.agent, r)
    requires forall rs | SyncReq(rs) in t.toRelay :: SyncReq(rs) in s.toRelay || AllBacked(t.agent, rs)
    requires forall k | k in t.jobs && t.jobs[k].Saving? ::
               (k in s.jobs && t.jobs[k] == s.jobs[k]) || AllBacked(t.agent, t.jobs[k].todo)
    ensures WireBacked(t)
  {
  }

  lemma TablesCarry(s: State, t: State)
    requires TablesBacked(s) && Continues(s.agent, t.agent) && s.cloud <= t.cloud
    requires forall e | e in t.relay.results ::
               (e in s.relay.results && t.relay.results[e] == s.relay.results[e]) || RowBacked(t, e, t.relay.results[e])
    requires forall id | id in t.relay.commands ::
               || (id in s.relay.commands && t.relay.commands[id].status == s.relay.commands[id].status)
               || StatusBacked(t, id, t.relay.commands[id].status)
    ensures TablesBacked(t)
  {
  }

  // ---- Steps ----

  /** Storing a report backed by the agent, or by the cloud's answer. */
  lemma SaveBacked(s: State, r: R.Report, now: int, t: State)
    requires Inv(s) && TablesBacked(s) && Genuine(s, R.ResultKey(r), r.commandId)
    requires t.agent == s.agent && s.cloud <= t.cloud
    requires t.relay == R.SaveResult(s.relay, r, now)
    requires || Backed(s.agent, r)
             || (Answered(r.commandId) in t.cloud && R.Outcome(r).Completed? && r.resultId == r.commandId
                 && r.deviceId == DEVICE && Gave(r.commandId, ContentOf(r)) in t.cloud)
    ensures TablesBacked(t)
  {
    var e := R.ResultKey(r);
    var row := R.ResultRowFor(s.relay, r, now);
    assert t.relay.results == s.relay.results[e := row];
    if e in s.relay.results { GenuineUnique(s, e, r.commandId, s.relay.results[e].commandId); }
    assert row.commandId == r.commandId;
    assert RowBacked(t, e, row) by {
      if Reported(s.agent, r) {
        var i :| 0 <= i < |s.agent.db.results| && Reports(s.agent.db.results[i], r);
        assert Keeps(s.agent.db.results[i], e, row);
      }
    }
    assert StatusBacked(t, r.commandId, R.Outcome(r)) by {
      if Reported(s.agent, r) {
        var i :| 0 <= i < |s.agent.db.results| && Reports(s.agent.db.results[i], r);
        assert s.agent.db.results[i].commandId == r.commandId;
      }
    }
    TablesCarry(s, t);
  }

  lemma SandboxBacked(s: State, r: R.Report, now: int, t: State)
    requires Inv(s) && TablesBacked(s) && Genuine(s, R.ResultKey(r), r.commandId)
    requires t.agent == s.agent && s.cloud <= t.cloud
    requires r.resultId == r.commandId && r.deviceId == DEVICE && Gave(r.commandId, ContentOf(r)) in t.cloud
    requires t.relay == R.SaveSandboxResult(s.relay, r, now)
    ensures TablesBacked(t)
  {
    var e := R.ResultKey(r);
    var row := R.ResultRowFor(s.relay, r, now);
    if e in s.relay.results { GenuineUnique(s, e, r.commandId, s.relay.results[e].commandId); }
    assert RowBacked(t, e, row);
    TablesCarry(s, t);
  }

  lemma AgentAuthentic(s: State, a: Action, max: nat)
    requires Authentic(s) && !RelaySide(a)
    ensures Authentic(Step(s, a, max))
  {
    var t := Step(s, a, max);
    if t.agent != s.agent {
      assert t == s.(agent := A.Step(s.agent, AgentAction(a), max));
      StepContinues(s.agent, AgentAction(a), max);
      WireCarries(s, t);
      TablesCarry(s, t);
    }
  }

  /** Both ways of reporting a saved result, with and without its id. */
  lemma SavedIsBacked(s: A.State, i: nat)
    requires i < |s.db.results|
    ensures Backed(s, ReportOf(s.db.results[i], DEVICE))
            && Backed(s, ReportOf(s.db.results[i].(resultId := ""), DEVICE))
  {
    var r := s.db.results[i];
    assert Reports(r, ReportOf(r, DEVICE)) && Reports(r, ReportOf(r.(resultId := ""), DEVICE));
  }

  lemma ReportAuthentic(s: State, a: Action, max: nat)
    requires Authentic(s) && (a.ReportResult? || a.ReportUndecodable?)
    ensures Authentic(Step(s, a, max))
  {
    var t := Step(s, a, max);
    if a.ReportResult? && a.i < |s.agent.db.results| { SavedIsBacked(s.agent, a.i); }
    WireCarries(s, t);
    TablesCarry(s, t);
  }

  lemma BatchBacked(s: A.State, picks: seq<nat>)
    requires forall i | 0 <= i < |picks| :: picks[i] < |s.db.results|
    ensures AllBacked(s, ReportsOf(s.db.results, picks, DEVICE))
  {
    forall i | 0 <= i < |picks| ensures Backed(s, ReportOf(s.db.results[picks[i]], DEVICE)) {
      SavedIsBacked(s, picks[i]);
    }
  }

  lemma ReconnectAuthentic(s: State, picks: seq<nat>, max: nat)
    requires Authentic(s)
    ensures Authentic(Step(s, Reconnect(picks), max))
  {
    var t := Step(s, Reconnect(picks), max);
    if AgentDb.UnsyncedBatch(s.agent.db.results, BATCH, picks) {
      BatchBacked(s.agent, picks);
      WireCarries(s, t);
      TablesCarry(s, t);
    }
  }

  /** Steps on the command table alone. */
  lemma CommandsAuthentic(s: State, t: State)
    requires Authentic(s) && t == s.(relay := t.relay, toAgent := t.toAgent, cloud := t.cloud) && s.cloud <= t.cloud
    requires t.relay.results == s.relay.results
    requires forall id | id in t.relay.commands ::
               || (id in s.relay.commands && t.relay.commands[id].status == s.relay.commands[id].status)
               || StatusBacked(t, id, t.relay.commands[id].status)
    ensures Authentic(t)
  {
  }

  lemma EnqueueAuthentic(s: State, a: Action, max: nat)
    requires Authentic(s) && a.Enqueue?
    ensures Authentic(Step(s, a, max))
  {
    CommandsAuthentic(s, Step(s, a, max));
  }

  lemma HandAuthentic(s: State, a: Action, max: nat)
    requires Authentic(s) && a.Hand?
    ensures Authentic(Step(s, a, max))
  {
    CommandsAuthentic(s, Step(s, a, max));
  }

  lemma CloudAuthentic(s: State, a: Action, max: nat)
    requires Authentic(s) && (a.Conclude? || a.CancelQueue?)
    ensures Authentic(Step(s, a, max))
  {
    CommandsAuthentic(s, Step(s, a, max));
  }

  lemma SyncReqAuthentic(s: State, a: Action, max: nat)
    requires Authentic(s) && a.OnSyncReq?
    ensures Authentic(Step(s, a, max))
  {
  }

  lemma AnswerAuthentic(s: State, a: Action, max: nat)
    requires Inv(s) && Authentic(s) && a.Answer?
    ensures Authentic(Step(s, a, max))
  {
    var t := Step(s, a, max);
    if a.id in s.relay.commands {
      var r := CloudReport(a.id, a.report);
      if a.predefined {
        SaveBacked(s, r.(exitCode := 0, timedOut := false), a.now, t);
      } else {
        SandboxBacked(s, r, a.now, t);
      }
      WireCarries(s, t);
    }
  }

  lemma CmdResultAuthentic(s: State, a: Action, max: nat)
    requires Inv(s) && Authentic(s) && a.OnCmdResult?
    ensures Authentic(Step(s, a, max))
  {
    var t := Step(s, a, max);
    if CmdResult(a.report) in s.toRelay && a.k !in s.jobs {
      assert RequestOk(s, CmdResult(a.report));
      if a.saved { SaveBacked(s, a.report, a.now, t); } else { TablesCarry(s, t); }
      WireCarries(s, t);
    }
  }

  lemma JobAuthentic(s: State, k: nat, now: int, fault: bool)
    requires Inv(s) && Authentic(s) && k in s.jobs
    ensures Authentic(Advanced(s, k, now, fault))
  {
    var t := Advanced(s, k, now, fault);
    assert JobOk(s, s.jobs[k]);
    if s.jobs[k].Saving? && s.jobs[k].todo != [] {
      var todo := s.jobs[k].todo;
      assert AllBacked(s.agent, todo[1..]) by {
        forall i | 0 <= i < |todo| - 1 ensures Backed(s.agent, todo[1..][i]) { assert Backed(s.agent, todo[i + 1]); }
      }
      if !fault { SaveBacked(s, todo[0], now, t); } else { TablesCarry(s, t); }
    } else {
      TablesCarry(s, t);
    }
    WireCarries(s, t);
  }

  lemma StepAuthentic(s: State, a: Action, max: nat)
    requires Inv(s) && Authentic(s)
    ensures Authentic(Step(s, a, max))
  {
    match a
    case ReportResult(_) => ReportAuthentic(s, a, max);
    case ReportUndecodable(_, _) => ReportAuthentic(s, a, max);
    case Reconnect(picks) => ReconnectAuthentic(s, picks, max);
    case Answer(_, _, _, _) => AnswerAuthentic(s, a, max);
    case OnCmdResult(_, _, _, _) => CmdResultAuthentic(s, a, max);
    case Advance(k, now, fault) =>
      if k in s.jobs { JobAuthentic(s, k, now, fault); }
    case Enqueue(_, _, _, _, _) => EnqueueAuthentic(s, a, max);
    case Hand(_, _) => HandAuthentic(s, a, max);
    case Conclude(_, _) => CloudAuthentic(s, a, max);
    case CancelQueue(_) => CloudAuthentic(s, a, max);
    case OnSyncReq(_, _) => SyncReqAuthentic(s, a, max);
    case _ => AgentAuthentic(s, a, max);
  }

  lemma {:induction false} RunAuthentic(s: State, actions: seq<Action>, max: nat)
    requires Inv(s) && Authentic(s)
    ensures Authentic(Run(s, actions, max))
  {
    if actions != [] {
      var n := |actions| - 1;
      RunAuthentic(s, actions[..n], max);
      RunInv(s, actions[..n], max);
      StepAuthentic(Run(s, actions[..n], max), actions[n], max);
    }
  }

  /**
   In every run of the lossy protocol: COMPLETED at the relay means that the agent saved an exit-0
   result of the command or the relay answered it itself; FAILED means a saved failure, an
   undecodable payload or a cancellation.
   */
  lemma StatusIsAuthentic(db: AgentDb.Db, actions: seq<Action>, max: nat, s: State, id: string)
    requires A.Untouched(db) && s == Run(Start(db), actions, max) && id in s.relay.commands
    ensures s.relay.commands[id].status.Completed? ==> A.Succeeded(s.agent.db.results, id) || Answered(id) in s.cloud
    ensures s.relay.commands[id].status.Failed? ==>
              || (exists i | 0 <= i < |s.agent.db.results| ::
                    s.agent.db.results[i].commandId == id && s.agent.db.results[i].exitCode != 0)
              || Undecodable(s.agent, id) || Cancelled(id) in s.cloud
  {
    RunAuthentic(Start(db), actions, max);
    assert StatusBacked(s, id, s.relay.commands[id].status);
  }

  /**
   And every result row there has the content of a result the agent saved for that command, of the
   complaint about its payload, or of a result the cloud gave. A row under the id of a saved result
   is that result, whatever the cloud did meanwhile.
   */
  lemma ResultsAreAuthentic(db: AgentDb.Db, actions: seq<Action>, max: nat, s: State, e: string)
    requires A.Untouched(db) && s == Run(Start(db), actions, max) && e in s.relay.results
    ensures RowBacked(s, e, s.relay.results[e])
    ensures forall i | 0 <= i < |s.agent.db.results| && s.agent.db.results[i].resultId == e ::
              && s.relay.results[e].commandId == s.agent.db.results[i].commandId
              && s.relay.results[e].stdout == s.agent.db.results[i].stdout
              && s.relay.results[e].stderr == s.agent.db.results[i].stderr
              && s.relay.results[e].exitCode == s.agent.db.results[i].exitCode
              && (s.agent.db.results[i].executedAt != 0 ==>
                    s.relay.results[e].executedAt == s.agent.db.results[i].executedAt)
    ensures s.relay.results[e].deviceId == DEVICE
  {
    RunAuthentic(Start(db), actions, max);
    RunInv(Start(db), actions, max);
    forall i | 0 <= i < |s.agent.db.results| && s.agent.db.results[i].resultId == e
      ensures Keeps(s.agent.db.results[i], e, s.relay.results[e])
    {
      UnderResultId(s, e, i);
    }
  }

  lemma UnderResultId(s: State, e: string, i: nat)
    requires Inv(s) && e in s.relay.results && RowBacked(s, e, s.relay.results[e])
    requires i < |s.agent.db.results| && s.agent.db.results[i].resultId == e
    ensures Keeps(s.agent.db.results[i], e, s.relay.results[e])
  {
    assert Genuine(s, e, s.relay.results[e].commandId);
  }
}
