/**
 Two runs after which the agent has completed a command, all its results count as synced, and the
 relay says FAILED. Both are runs of the protocol from an empty start with two attempts allowed,
 for any command and any failing first and successful second attempt.
 */
module Disagreement {
  import opened Ordering
  import opened AgentDb
  import opened AgentWorker
  import A = AgentRuns
  import R = RelayDb
  import opened NetClient
  import opened Protocol

  const START := Start(Db(map[], []))

  const MAX: nat := 2

  /** The relay takes no CMD_RESULT. */
  predicate NoneTaken(actions: seq<Action>) {
    forall a | a in actions :: !a.OnCmdResult?
  }

  lemma More(actions: seq<Action>, s: State, a: Action) returns (more: seq<Action>, t: State)
    requires s == Run(START, actions, MAX)
    ensures more == actions + [a] && t == Run(START, more, MAX) == Step(s, a, MAX)
    ensures NoneTaken(actions) && !a.OnCmdResult? ==> NoneTaken(more)
  {
    more := actions + [a];
    t := Run(START, more, MAX);
    RunMore(START, actions, a, MAX);
  }

  /** An agent that is draining and has one command, stored at time 1. */
  function Working(id: string, command: string, status: Status, attempts: nat, results: seq<Result>,
                   phase: A.Phase, claims: seq<Claimed>): A.State
  {
    A.State(Db(map[id := Command(Json(command, 0), status, 1, attempts)], results), phase, true, map[], claims, true,
            {}, {id})
  }

  /** The relay knows that one command of the device, with this status. */
  predicate Knows(db: R.Db, id: string, status: R.Status) {
    db.commands.Keys == {id} && db.commands[id].status == status && db.commands[id].deviceId == DEVICE
  }

  /** Nothing is under way at the relay. */
  predicate Quiet(s: State) {
    s.jobs == map[]
  }

  // ---- The command reaches the agent ----

  lemma HandedOver(id: string, command: string) returns (actions: seq<Action>, s: State)
    requires id != ""
    ensures s == Run(START, actions, MAX) && NoneTaken(actions)
    ensures s.agent == START.agent && Knows(s.relay, id, R.Dispatched) && Quiet(s) && s.toRelay == {}
    ensures s.relay.results == map[]
    ensures Dispatch(id, Json(command, 0)) in s.toAgent
  {
    actions, s := [], START;
    assert !IsResultId(s, id);
    actions, s := More(actions, s, Enqueue(id, command, 0, 1, 1));
    assert Knows(s.relay, id, R.Pending) && PayloadOf(s.relay.commands[id]) == Json(command, 0);
    actions, s := More(actions, s, Hand(id, 1));
  }

  lemma Delivered(id: string, command: string) returns (actions: seq<Action>, s: State)
    requires id != ""
    ensures s == Run(START, actions, MAX) && NoneTaken(actions)
    ensures s.agent == Working(id, command, Pending, 0, [], A.Draining, [])
    ensures Knows(s.relay, id, R.Dispatched) && Quiet(s) && s.toRelay == {} && s.relay.results == map[]
  {
    actions, s := HandedOver(id, command);
    var todo := [(id, Json(command, 0))];
    ghost var relay := s.relay;
    actions, s := More(actions, s, Internal(A.Restart(false)));
    assert s.agent == A.State(Db(map[], []), A.Draining, false, map[], [], true, {}, {});
    actions, s := More(actions, s, TakeDispatch(0, id, Json(command, 0)));
    assert s.agent == A.State(Db(map[], []), A.Draining, false, map[0 := A.Handler(todo, {}, {})], [], true, {}, {});
    actions, s := More(actions, s, Internal(A.Insert(0, 1, false)));
    var nothing: set<string> := {};
    assert todo[1..] == [] && nothing + {id} == {id};
    assert s.agent.handlers == map[0 := A.Handler(todo[1..], nothing + {id}, nothing + {id})];
    assert s.agent.db == Db(map[id := Command(Json(command, 0), Pending, 1, 0)], []);
    actions, s := More(actions, s, Internal(A.Signal(0)));
    assert s.agent.handlers == map[] && s.agent.announced == {id};
  }

  // ---- One attempt ----

  /** Claim, save and finish, with nothing in between. */
  lemma Attempted(actions: seq<Action>, s: State, id: string, command: string, n: nat, results: seq<Result>,
                  claims: seq<Claimed>,
                  o: Attempt, results': seq<Result>, claims': seq<Claimed>) returns (more: seq<Action>, t: State)
    requires s == Run(START, actions, MAX) && n < MAX
    requires s.agent == Working(id, command, Pending, n, results, A.Draining, claims)
    requires id in s.relay.commands && Knows(s.relay, id, s.relay.commands[id].status) && o.uuid != "" && o.uuid != id
    requires forall i | 0 <= i < |results| :: results[i].resultId != o.uuid
    requires results' == results + [SavedRow(id, Json(command, 0), o)] && claims' == claims + [Claimed(id, n + 1)]
    ensures t == Run(START, more, MAX) && (NoneTaken(actions) ==> NoneTaken(more))
    ensures var status := if o.exitCode == 0 then Completed else if n + 1 < MAX then Pending else Failed;
            t == s.(agent := Working(id, command, status, n + 1, results', A.Draining, claims'))
  {
    var more1, t1 := More(actions, s, Internal(A.ClaimOne(false)));
    Claiming(s.agent, id, command, n, results, claims);
    assert t1.agent == Working(id, command, Executing, n + 1, results, A.Holding(id, n + 1), claims');
    var more2, t2 := More(more1, t1, Internal(A.SaveOne(o, false)));
    var c := Command(Json(command, 0), Executing, 1, n + 1);
    assert t1.agent.db.commands[id] == c && FreshAction(t1, A.SaveOne(o, false));
    assert !HasResultId(t1.agent.db, o.uuid);
    var verdict := Verdict(c, o.exitCode, MAX);
    assert t2.agent == Working(id, command, Executing, n + 1, results', A.Deciding(id, n + 1, verdict), claims');
    more, t := More(more2, t2, Internal(A.Finish(false)));
    assert t.agent.db.commands == map[id := Command(Json(command, 0), verdict, 1, n + 1)];
  }

  lemma Claiming(a: A.State, id: string, command: string, n: nat, results: seq<Result>, claims: seq<Claimed>)
    requires a == Working(id, command, Pending, n, results, A.Draining, claims) && n < MAX
    ensures A.Step(a, A.ClaimOne(false), MAX)
         == Working(id, command, Executing, n + 1, results, A.Holding(id, n + 1), claims + [Claimed(id, n + 1)])
  {
    assert Claimable(a.db, MAX, id);
    var (db, next) := ClaimNext(a.db, MAX);
    assert next == Some(id);
    assert db.commands == map[id := Command(Json(command, 0), Executing, 1, n + 1)];
  }

  // ---- A sync request at the relay ----

  lemma Reconnected(actions: seq<Action>, s: State, picks: seq<nat>) returns (more: seq<Action>, t: State)
    requires s == Run(START, actions, MAX) && Quiet(s) && UnsyncedBatch(s.agent.db.results, BATCH, picks)
    ensures t == Run(START, more, MAX) && (NoneTaken(actions) ==> NoneTaken(more))
    ensures t.agent == s.agent && t.relay == s.relay && s.toRelay <= t.toRelay && s.toAgent <= t.toAgent
    ensures t.jobs == map[0 := Saving(ReportsOf(s.agent.db.results, picks, DEVICE), [])]
  {
    var more1, t1 := More(actions, s, Reconnect(picks));
    more, t := More(more1, t1, OnSyncReq(0, ReportsOf(s.agent.db.results, picks, DEVICE)));
  }

  /** The next report of a sync request is saved. */
  lemma ReportSaved(actions: seq<Action>, s: State, id: string, r: R.Report, rest: seq<R.Report>, acked: seq<string>)
    returns (more: seq<Action>, t: State)
    requires s == Run(START, actions, MAX) && s.jobs == map[0 := Saving([r] + rest, acked)]
    requires r.commandId == id && id in s.relay.commands && Knows(s.relay, id, s.relay.commands[id].status)
    ensures t == Run(START, more, MAX) && (NoneTaken(actions) ==> NoneTaken(more))
    ensures t.agent == s.agent && t.toRelay == s.toRelay
    ensures Knows(t.relay, id, R.Outcome(r)) && t.jobs == map[0 := Saving(rest, acked + [id])]
  {
    assert ([r] + rest)[1..] == rest && ([r] + rest)[0] == r;
    more, t := More(actions, s, Advance(0, 9, false));
    assert t.relay == R.SaveResult(s.relay, r, 9);
  }

  /** All are saved; nothing is pending; the reply goes out and acknowledges the command. */
  lemma Acknowledged(actions: seq<Action>, s: State, id: string, status: R.Status, acked: seq<string>)
    returns (more: seq<Action>, t: State)
    requires s == Run(START, actions, MAX) && s.jobs == map[0 := Saving([], acked)]
    requires Knows(s.relay, id, status) && !status.Pending?
    ensures t == Run(START, more, MAX) && (NoneTaken(actions) ==> NoneTaken(more))
    ensures t.agent == s.agent && t.toRelay == s.toRelay && t.relay == s.relay
    ensures Quiet(t) && SyncResp(acked, []) in t.toAgent
  {
    assert R.PendingKeys(s.relay, DEVICE) == {};
    var keys: seq<Key> := Sorted(R.PendingKeys(s.relay, DEVICE));
    SortedLists(R.PendingKeys(s.relay, DEVICE));
    assert forall k :: k !in keys;
    assert SyncPending(s.relay) == [];
    var more1, t1 := More(actions, s, Advance(0, 9, false));
    assert t1.jobs == map[0 := Marking(acked, [], [])];
    more, t := More(more1, t1, Advance(0, 9, false));
  }

  // ---- The two runs ----

  lemma {:induction false} AllMarked(results: seq<Result>, id: string)
    requires forall i | 0 <= i < |results| :: results[i].commandId == id
    ensures Unsynced(MarkSynced(results, id)) == 0
  {
    if results != [] {
      var n := |results| - 1;
      AllMarked(results[..n], id);
      assert MarkSynced(results, id)[..n] == MarkSynced(results[..n], id);
    }
  }

  lemma Taken(actions: seq<Action>, s: State, id: string, acked: seq<string>) returns (more: seq<Action>, t: State)
    requires s == Run(START, actions, MAX) && SyncResp(acked, []) in s.toAgent && id in acked && !s.agent.phase.Down?
    requires forall i | 0 <= i < |s.agent.db.results| :: s.agent.db.results[i].commandId == id
    ensures t == Run(START, more, MAX) && (NoneTaken(actions) ==> NoneTaken(more))
    ensures t == s.(agent := t.agent) && t.agent.db.commands == s.agent.db.commands
    ensures Unsynced(t.agent.db.results) == 0
  {
    more, t := More(actions, s, TakeSyncAck(id, acked, []));
    AllMarked(s.agent.db.results, id);
  }

  /** The agent is done and has nothing left to send; the relay believes the opposite. */
  predicate Disagree(s: State, id: string) {
    && id in s.agent.db.commands && s.agent.db.commands[id].status.Completed?
    && Unsynced(s.agent.db.results) == 0
    && id in s.relay.commands && s.relay.commands[id].status.Failed?
  }

  predicate Usable(id: string, first: Attempt, second: Attempt) {
    && id != "" && first.exitCode != 0 && second.exitCode == 0
    && first.uuid != "" && second.uuid != "" && first.uuid != second.uuid && first.uuid != id && second.uuid != id
  }

  /** Up to the end of the first attempt, whatever its exit code. */
  lemma AttemptedFirst(id: string, command: string, o: Attempt) returns (actions: seq<Action>, s: State)
    requires id != "" && o.uuid != "" && o.uuid != id
    ensures s == Run(START, actions, MAX) && NoneTaken(actions)
    ensures s.agent == Working(id, command, if o.exitCode == 0 then Completed else Pending, 1,
                               [SavedRow(id, Json(command, 0), o)], A.Draining, [Claimed(id, 1)])
    ensures Knows(s.relay, id, R.Dispatched) && Quiet(s) && s.toRelay == {} && s.relay.results == map[]
  {
    actions, s := Delivered(id, command);
    var rows, claims := [SavedRow(id, Json(command, 0), o)], [Claimed(id, 1)];
    assert rows == [] + rows && claims == [] + claims;
    actions, s := Attempted(actions, s, id, command, 0, [], [], o, rows, claims);
  }

  lemma OneUnsynced(row: Result)
    requires !row.synced
    ensures UnsyncedBatch([row], BATCH, [0])
  {
  }

  /** A reconnection between the attempts reports the failure; its reply is still on its way. */
  lemma FailureSynced(id: string, command: string, first: Attempt, second: Attempt)
    returns (actions: seq<Action>, s: State)
    requires Usable(id, first, second)
    ensures s == Run(START, actions, MAX) && NoneTaken(actions)
    ensures s.agent == Working(id, command, Pending, 1, [SavedRow(id, Json(command, 0), first)],
                               A.Draining, [Claimed(id, 1)])
    ensures Knows(s.relay, id, R.Failed) && Quiet(s) && SyncResp([id], []) in s.toAgent
  {
    actions, s := AttemptedFirst(id, command, first);
    var row := SavedRow(id, Json(command, 0), first);
    OneUnsynced(row);
    actions, s := Reconnected(actions, s, [0]);
    var r := ReportOf(row, DEVICE);
    assert ReportsOf([row], [0], DEVICE) == [r] + [];
    actions, s := ReportSaved(actions, s, id, r, [], []);
    assert [] + [id] == [id];
    actions, s := Acknowledged(actions, s, id, R.Failed, [id]);
  }

  function Rows(id: string, command: string, first: Attempt, second: Attempt): seq<Result> {
    [SavedRow(id, Json(command, 0), first), SavedRow(id, Json(command, 0), second)]
  }

  function Done(id: string, command: string, first: Attempt, second: Attempt): A.State {
    Working(id, command, Completed, 2, Rows(id, command, first, second), A.Draining, [Claimed(id, 1), Claimed(id, 2)])
  }

  function Live(id: string, command: string, second: Attempt): R.Report {
    ReportOf(SavedRow(id, Json(command, 0), second).(resultId := ""), DEVICE)
  }

  /** The successful retry, and the CMD_RESULT the worker sends for it. */
  lemma Retried(actions: seq<Action>, s: State, id: string, command: string, first: Attempt, second: Attempt)
    returns (more: seq<Action>, t: State)
    requires Usable(id, first, second) && s == Run(START, actions, MAX)
    requires s.agent == Working(id, command, Pending, 1, [SavedRow(id, Json(command, 0), first)],
                                A.Draining, [Claimed(id, 1)])
    requires id in s.relay.commands && Knows(s.relay, id, s.relay.commands[id].status)
    ensures t == Run(START, more, MAX) && (NoneTaken(actions) ==> NoneTaken(more))
    ensures t == s.(agent := Done(id, command, first, second),
                    toRelay := s.toRelay + {CmdResult(Live(id, command, second))})
  {
    var row1, row2 := SavedRow(id, Json(command, 0), first), SavedRow(id, Json(command, 0), second);
    assert [row1] + [row2] == Rows(id, command, first, second);
    assert [Claimed(id, 1)] + [Claimed(id, 2)] == [Claimed(id, 1), Claimed(id, 2)];
    more, t := Attempted(actions, s, id, command, 1, [row1], [Claimed(id, 1)], second,
                         Rows(id, command, first, second), [Claimed(id, 1), Claimed(id, 2)]);
    more, t := More(more, t, ReportResult(1));
  }

  lemma NothingToPick(results: seq<Result>, picks: seq<nat>)
    requires Unsynced(results) == 0 && UnsyncedBatch(results, BATCH, picks)
    ensures picks == []
  {
  }

  /**
   An acknowledgement covers every result of the command. The reply about the failed first attempt
   arrives after the successful retry: the success counts as synced and no later sync carries it.
   Its CMD_RESULT, `live`, is the only message that does. The relay has not taken it and says
   FAILED; if it does arrive, the relay says COMPLETED.
   */
  lemma EarlyAckHidesSuccess(id: string, command: string, first: Attempt, second: Attempt)
    returns (actions: seq<Action>, s: State, live: R.Report)
    requires Usable(id, first, second)
    ensures s == Run(START, actions, MAX) && Disagree(s, id) && Quiet(s)
    ensures CmdResult(live) in s.toRelay && NoneTaken(actions)
    ensures forall picks | UnsyncedBatch(s.agent.db.results, BATCH, picks) :: picks == []
    ensures var late := Step(s, OnCmdResult(0, live, 9, true), MAX);
            id in late.relay.commands && late.relay.commands[id].status.Completed?
  {
    live := Live(id, command, second);
    actions, s := FailureSynced(id, command, first, second);
    actions, s := Retried(actions, s, id, command, first, second);
    actions, s := Taken(actions, s, id, [id]);
    forall picks | UnsyncedBatch(s.agent.db.results, BATCH, picks) ensures picks == [] {
      NothingToPick(s.agent.db.results, picks);
    }
    LateReport(s, id, live);
  }

  lemma LateReport(s: State, id: string, live: R.Report)
    requires CmdResult(live) in s.toRelay && Quiet(s) && id in s.relay.commands
    requires live.commandId == id && live.exitCode == 0 && !live.timedOut
    ensures var late := Step(s, OnCmdResult(0, live, 9, true), MAX);
            id in late.relay.commands && late.relay.commands[id].status.Completed?
  {
  }

  /** The relay takes a CMD_RESULT, stores it or fails to, and acknowledges it. */
  lemma ReportTaken(actions: seq<Action>, s: State, live: R.Report, saved: bool) returns (more: seq<Action>, t: State)
    requires s == Run(START, actions, MAX) && CmdResult(live) in s.toRelay && Quiet(s)
    ensures t == Run(START, more, MAX) && t.agent == s.agent && Quiet(t) && ResultAck(live.commandId) in t.toAgent
    ensures t.relay == if saved then R.SaveResult(s.relay, live, 9) else s.relay
  {
    more, t := More(actions, s, OnCmdResult(0, live, 9, saved));
    assert t.jobs == map[0 := Acking(live.commandId)];
    more, t := More(more, t, Advance(0, 9, false));
  }

  lemma EitherOrder(r1: Result, r2: Result)
    requires !r1.synced && !r2.synced && r1.executedAt == r2.executedAt
    ensures UnsyncedBatch([r1, r2], BATCH, [0, 1]) && UnsyncedBatch([r1, r2], BATCH, [1, 0])
  {
    var results := [r1, r2];
    assert UnsyncedAt(results) == {0, 1};
    UnsyncedIsCount(results);
  }

  /** Both attempts are made and the relay has taken, stored and acknowledged the CMD_RESULT of the success. */
  lemma SuccessReported(id: string, command: string, first: Attempt, second: Attempt)
    returns (actions: seq<Action>, s: State)
    requires Usable(id, first, second)
    ensures s == Run(START, actions, MAX)
    ensures s.agent == Done(id, command, first, second)
    ensures Knows(s.relay, id, R.Completed) && Quiet(s) && ResultAck(id) in s.toAgent
  {
    var live := Live(id, command, second);
    actions, s := AttemptedFirst(id, command, first);
    actions, s := Retried(actions, s, id, command, first, second);
    actions, s := ReportTaken(actions, s, live, true);
  }

  /**
   Two attempts within one second have no order in a batch. The relay has the success already, by
   the CMD_RESULT; the agent reconnects before the acknowledgement reaches it, the batch lists the
   retry before the failure, and the relay goes from COMPLETED to FAILED.
   */
  lemma SameSecondMayDisagree(id: string, command: string, first: Attempt, second: Attempt)
    returns (actions: seq<Action>, s: State)
    requires Usable(id, first, second) && first.executedAt == second.executedAt
    ensures s == Run(START, actions, MAX) && Disagree(s, id) && Quiet(s)
  {
    actions, s := SuccessReported(id, command, first, second);
    var rows := Rows(id, command, first, second);
    EitherOrder(rows[0], rows[1]);
    actions, s := Reconnected(actions, s, [1, 0]);
    var r1, r2 := ReportOf(rows[0], DEVICE), ReportOf(rows[1], DEVICE);
    assert ReportsOf(rows, [1, 0], DEVICE) == [r2] + [r1];
    actions, s := ReportSaved(actions, s, id, r2, [r1], []);
    assert [r1] == [r1] + [] && [] + [id] == [id];
    actions, s := ReportSaved(actions, s, id, r1, [], [id]);
    actions, s := Acknowledged(actions, s, id, R.Failed, [id] + [id]);
    actions, s := Taken(actions, s, id, [id] + [id]);
  }

  // ---- An acknowledgement of nothing ----

  /**
   The relay fails to store the CMD_RESULT of a success, acknowledges it all the same, and the
   agent's result counts as synced: it is held nowhere but at the agent and never sent again.
   */
  lemma FailedSaveIsAcknowledged(id: string, command: string, o: Attempt) returns (actions: seq<Action>, s: State)
    requires id != "" && o.exitCode == 0 && o.uuid != "" && o.uuid != id
    ensures s == Run(START, actions, MAX) && Quiet(s)
    ensures |s.agent.db.results| == 1 && s.agent.db.results[0].commandId == id && s.agent.db.results[0].synced
    ensures id in s.agent.db.commands && s.agent.db.commands[id].status.Completed?
    ensures s.relay.results == map[] && !R.HasResultFor(s.relay, id) && Knows(s.relay, id, R.Dispatched)
  {
    actions, s := AttemptedFirst(id, command, o);
    actions, s := More(actions, s, ReportResult(0));
    actions, s := ReportTaken(actions, s, Live(id, command, o), false);
    actions, s := More(actions, s, TakeAck(id));
  }
}
