/**
 One agent and the relay over a link that loses, repeats and reorders messages.

 The two message sets hold everything ever put on the wire: a message that is never taken is lost,
 one taken twice is duplicated. Reconnection is the step that sends a SYNC_REQ.
 */
module Protocol {
  import opened Ordering
  import AgentDb
  import AgentWorker
  import A = AgentRuns
  import R = RelayDb
  import opened NetClient

  datatype ToRelay = CmdResult(report: R.Report) | SyncReq(reports: seq<R.Report>)

  datatype ToAgent =
    | Dispatch(id: string, payload: AgentDb.Payload)
    | SyncResp(acked: seq<string>, pending: seq<(string, AgentDb.Payload)>)
    | ResultAck(commandId: string)

  /** A relay handler at work, between two of its store calls. */
  datatype Job =
    | Acking(commandId: string)                                            // CMD_RESULT: about to acknowledge
    | Saving(todo: seq<R.Report>, acked: seq<string>)                      // SYNC_REQ: saving the results
    | Marking(acked: seq<string>, pending: seq<(string, AgentDb.Payload)>, // SYNC_REQ: marking what it hands out
              keys: seq<Key>)

  /** What the relay decided about a command on its own while the agent was offline. */
  datatype CloudAct =
    | Gave(id: string, content: Content) // a result of its own, predefined or from the sandbox
    | Answered(id: string)               // the result was a predefined answer, which completes the command
    | Cancelled(id: string)

  datatype Content = Content(stdout: string, stderr: string, exitCode: int)

  /** `unsaved` remembers the commands whose CMD_RESULT the relay failed to store, `cloud` its own decisions. */
  datatype State = State(agent: A.State, relay: R.Db, toRelay: set<ToRelay>, toAgent: set<ToAgent>,
                         jobs: map<nat, Job>, unsaved: set<string>, cloud: set<CloudAct>)

  datatype Action =
    | Internal(a: A.Action)                            // worker, command line, crash, restart, local handler steps
    | TakeDispatch(h: nat, id: string, payload: AgentDb.Payload)
    | TakeSyncResp(h: nat, acked: seq<string>, pending: seq<(string, AgentDb.Payload)>)
    | TakeAck(commandId: string)
    | TakeSyncAck(commandId: string, acked: seq<string>, pending: seq<(string, AgentDb.Payload)>)
    | ReportResult(i: nat)                             // CMD_RESULT of a saved result
    | ReportUndecodable(id: string, outcome: AgentWorker.Attempt) // CMD_RESULT of an undecodable payload, saved or not
    | Reconnect(picks: seq<nat>)
    | Enqueue(id: string, command: string, timeoutSec: int, createdAt: int, now: int)
    | Hand(id: string, now: int)
    | Answer(id: string, report: R.Report, now: int, predefined: bool)
    | Conclude(id: string, now: int)                   // the second store call of a predefined answer
    | CancelQueue(now: int)
    | OnCmdResult(k: nat, report: R.Report, now: int, saved: bool)
    | OnSyncReq(k: nat, reports: seq<R.Report>)
    | Advance(k: nat, now: int, fault: bool)

  const DEVICE := "device"

  /** Ids of commands and ids of results are told apart: generated ids collide with nothing. */
  predicate IsCommandId(s: State, id: string) {
    id in s.agent.db.commands || id in s.relay.commands
  }

  ghost predicate IsResultId(s: State, id: string) {
    exists i | 0 <= i < |s.agent.db.results| :: s.agent.db.results[i].resultId == id
  }

  ghost predicate FreshAction(s: State, a: A.Action) {
    match a
    case SaveOne(o, _) => o.uuid != "" && !IsCommandId(s, o.uuid)
    case EnqueueLocally(id, _, _) => !IsResultId(s, id)
    case _ => true
  }

  /** Agent steps that a message has to trigger. */
  predicate NeedsMessage(a: A.Action) {
    a.Receive? || a.Acknowledge?
  }

  function PayloadOf(c: R.Command): AgentDb.Payload {
    AgentDb.Json(c.command, c.timeoutSec)
  }

  ghost function PendingList(db: R.Db, keys: seq<Key>): seq<(string, AgentDb.Payload)>
    requires forall k | k in keys :: k.id in db.commands
  {
    seq(|keys|, i requires 0 <= i < |keys| => (keys[i].id, PayloadOf(db.commands[keys[i].id])))
  }

  ghost function SyncPending(db: R.Db): seq<(string, AgentDb.Payload)> {
    SortedLists(R.PendingKeys(db, DEVICE));
    assert forall k | k in Sorted(R.PendingKeys(db, DEVICE)) :: k in R.PendingKeys(db, DEVICE);
    PendingList(db, Sorted(R.PendingKeys(db, DEVICE)))
  }

  predicate Undecodable(s: A.State, id: string) {
    id in s.db.commands && s.db.commands[id].payload.Malformed?
  }

  /** The worker reports an undecodable payload whether or not its result could be saved. */
  function UndecodableReport(s: A.State, id: string, o: AgentWorker.Attempt): R.Report
    requires Undecodable(s, id)
  {
    ReportOf(AgentWorker.ResultFor(id, s.db.commands[id].payload, o), DEVICE)
  }

  function CloudReport(id: string, answer: R.Report): R.Report {
    answer.(resultId := id, commandId := id, deviceId := DEVICE)
  }

  ghost function Step(s: State, a: Action, max: nat): State {
    match a
    case Internal(x) =>
      if NeedsMessage(x) || !FreshAction(s, x) then s else s.(agent := A.Step(s.agent, x, max))
    case TakeDispatch(h, id, p) =>
      if Dispatch(id, p) !in s.toAgent then s else s.(agent := A.Step(s.agent, A.Receive(h, [(id, p)]), max))
    case TakeSyncResp(h, acked, pending) =>
      if SyncResp(acked, pending) !in s.toAgent then s else s.(agent := A.Step(s.agent, A.Receive(h, pending), max))
    case TakeAck(c) =>
      if ResultAck(c) !in s.toAgent then s else s.(agent := A.Step(s.agent, A.Acknowledge(c), max))
    case TakeSyncAck(c, acked, pending) =>
      if SyncResp(acked, pending) !in s.toAgent || c !in acked then s
      else s.(agent := A.Step(s.agent, A.Acknowledge(c), max))
    case ReportResult(i) =>
      if i >= |s.agent.db.results| then s
      else s.(toRelay := s.toRelay + {CmdResult(ReportOf(s.agent.db.results[i].(resultId := ""), DEVICE))})
    case ReportUndecodable(id, o) =>
      if !Undecodable(s.agent, id) then s
      else s.(toRelay := s.toRelay + {CmdResult(UndecodableReport(s.agent, id, o))})
    case Reconnect(picks) =>
      if !AgentDb.UnsyncedBatch(s.agent.db.results, BATCH, picks) then s
      else s.(toRelay := s.toRelay + {SyncReq(ReportsOf(s.agent.db.results, picks, DEVICE))})
    case Enqueue(id, c, t, at, now) =>
      if id == "" || IsResultId(s, id) then s else s.(relay := R.EnqueueCommand(s.relay, id, DEVICE, c, t, at, now).0)
    case Hand(id, now) =>
      if id !in s.relay.commands then s
      else s.(relay := R.MarkDispatched(s.relay, id, now),
              toAgent := s.toAgent + {Dispatch(id, PayloadOf(s.relay.commands[id]))})
    case Answer(id, r, now, predefined) =>
      if id !in s.relay.commands then s
      else if predefined then
        s.(relay := R.SaveResult(s.relay, CloudReport(id, r).(exitCode := 0, timedOut := false), now),
           cloud := s.cloud + {Answered(id), Gave(id, Content(r.stdout, r.stderr, 0))})
      else
        s.(relay := R.SaveSandboxResult(s.relay, CloudReport(id, r), now),
           cloud := s.cloud + {Gave(id, Content(r.stdout, r.stderr, r.exitCode))})
    case Conclude(id, now) =>
      if Answered(id) !in s.cloud then s else s.(relay := R.MarkCompleted(s.relay, id, R.Completed, now))
    case CancelQueue(now) =>
      s.(relay := R.CancelPending(s.relay, DEVICE, now),
         cloud := s.cloud + set id | id in s.relay.commands && R.PendingFor(s.relay, DEVICE, id) :: Cancelled(id))
    case OnCmdResult(k, r, now, saved) =>
      if CmdResult(r) !in s.toRelay || k in s.jobs then s
      else s.(relay := if saved then R.SaveResult(s.relay, r, now) else s.relay,
              unsaved := if saved then s.unsaved else s.unsaved + {r.commandId},
              jobs := s.jobs[k := Acking(r.commandId)])
    case OnSyncReq(k, rs) =>
      if SyncReq(rs) !in s.toRelay || k in s.jobs then s else s.(jobs := s.jobs[k := Saving(rs, [])])
    case Advance(k, now, fault) =>
      if k in s.jobs then Advanced(s, k, now, fault) else s
  }

  /** The next store call or send of a relay handler; a result that cannot be stored is not acknowledged by a sync. */
  ghost function Advanced(s: State, k: nat, now: int, fault: bool): State
    requires k in s.jobs
  {
    match s.jobs[k]
    case Acking(c) => s.(toAgent := s.toAgent + {ResultAck(c)}, jobs := s.jobs - {k})
    case Saving(todo, acked) =>
      if todo == [] then
        s.(jobs := s.jobs[k := Marking(acked, SyncPending(s.relay), Sorted(R.PendingKeys(s.relay, DEVICE)))])
      else if fault then s.(jobs := s.jobs[k := Saving(todo[1..], acked)])
      else s.(relay := R.SaveResult(s.relay, todo[0], now),
              jobs := s.jobs[k := Saving(todo[1..], acked + [todo[0].commandId])])
    case Marking(acked, pending, todo) =>
      if todo == [] then s.(toAgent := s.toAgent + {SyncResp(acked, pending)}, jobs := s.jobs - {k})
      else s.(relay := R.MarkDispatched(s.relay, todo[0].id, now),
              jobs := s.jobs[k := Marking(acked, pending, todo[1..])])
  }

  ghost function Run(s: State, actions: seq<Action>, max: nat): State {
    if actions == [] then s
    else Step(Run(s, actions[..|actions| - 1], max), actions[|actions| - 1], max)
  }

  function Start(db: AgentDb.Db): State {
    State(A.Start(db), R.Db({}, map[], map[], map[]), {}, {}, map[], {}, {})
  }

  lemma RunMore(s: State, actions: seq<Action>, a: Action, max: nat)
    ensures Run(s, actions + [a], max) == Step(Run(s, actions, max), a, max)
  {
  }

  // ---- Every protocol step is an agent step ----

  /** The agent cannot tell the link from an arbitrary environment, so its theorems carry over. */
  lemma StepProjects(s: State, a: Action, max: nat)
    requires A.Inv(s.agent, max) && max >= 1
    ensures A.Inv(Step(s, a, max).agent, max)
  {
    var t := Step(s, a, max);
    if t.agent != s.agent {
      var x := AgentAction(a);
      assert t.agent == A.Step(s.agent, x, max);
      A.StepKeepsStore(s.agent, x, max);
      A.StepKeepsWake(s.agent, x, max);
    }
  }

  function AgentAction(a: Action): A.Action {
    match a
    case Internal(x) => x
    case TakeDispatch(h, id, p) => A.Receive(h, [(id, p)])
    case TakeSyncResp(h, _, pending) => A.Receive(h, pending)
    case TakeAck(c) => A.Acknowledge(c)
    case TakeSyncAck(c, _, _) => A.Acknowledge(c)
    case _ => A.Tick
  }

  lemma {:induction false} RunProjects(s: State, actions: seq<Action>, max: nat)
    requires A.Inv(s.agent, max) && max >= 1
    ensures A.Inv(Run(s, actions, max).agent, max)
  {
    if actions != [] {
      var n := |actions| - 1;
      RunProjects(s, actions[..n], max);
      StepProjects(Run(s, actions[..n], max), actions[n], max);
    }
  }

  lemma {:induction false} RunVerdicts(s: State, actions: seq<Action>, max: nat)
    requires A.Inv(s.agent, max) && A.VerdictOk(s.agent) && max >= 1
    ensures A.Inv(Run(s, actions, max).agent, max) && A.VerdictOk(Run(s, actions, max).agent)
  {
    RunProjects(s, actions, max);
    if actions != [] {
      var n := |actions| - 1;
      RunVerdicts(s, actions[..n], max);
      StepVerdict(Run(s, actions[..n], max), actions[n], max);
    }
  }

  lemma StepVerdict(s: State, a: Action, max: nat)
    requires A.Inv(s.agent, max) && A.VerdictOk(s.agent)
    ensures A.VerdictOk(Step(s, a, max).agent)
  {
    if Step(s, a, max).agent != s.agent {
      assert Step(s, a, max).agent == A.Step(s.agent, AgentAction(a), max);
      A.VerdictStep(s.agent, AgentAction(a), max);
    }
  }

  /** However messages are lost, repeated or reordered: at most max executions of any command. */
  lemma AtMostMaxExecutions(db: AgentDb.Db, actions: seq<Action>, max: nat, s: State, id: string)
    requires A.Untouched(db) && max >= 1 && s == Run(Start(db), actions, max)
    ensures A.ClaimsOf(s.agent.claims, id) <= max
  {
    A.StartOk(db, max);
    RunProjects(Start(db), actions, max);
    if id in s.agent.db.commands { assert A.RowOk(s.agent, max, id); }
  }

  // ---- Ack soundness ----

  /** The result key e belongs to command c. */
  ghost predicate Genuine(s: State, e: string, c: string) {
    (e == c && IsCommandId(s, c)) ||
    exists i | 0 <= i < |s.agent.db.results| ::
      s.agent.db.results[i].resultId == e && s.agent.db.results[i].commandId == c
  }

  ghost predicate IdsOk(s: State) {
    && (forall i, j | 0 <= i < j < |s.agent.db.results| ::
          s.agent.db.results[i].resultId != s.agent.db.results[j].resultId)
    && (forall i | 0 <= i < |s.agent.db.results| ::
          var r := s.agent.db.results[i];
          r.resultId != "" && !IsCommandId(s, r.resultId) && r.commandId in s.agent.db.commands)
  }

  lemma GenuineUnique(s: State, e: string, c: string, c': string)
    requires IdsOk(s) && Genuine(s, e, c) && Genuine(s, e, c')
    ensures c == c'
  {
  }

  /** The relay holds a result of the command, or failed to store one it acknowledged. */
  ghost predicate Accounted(s: State, c: string) {
    R.HasResultFor(s.relay, c) || c in s.unsaved
  }

  /** Reports on the wire name the command their key belongs to. */
  ghost predicate RequestOk(s: State, m: ToRelay) {
    match m
    case CmdResult(r) => Genuine(s, R.ResultKey(r), r.commandId)
    case SyncReq(rs) => forall i | 0 <= i < |rs| :: Genuine(s, R.ResultKey(rs[i]), rs[i].commandId)
  }

  /** Commands on the wire are in the relay's queue; what is acknowledged is accounted for. */
  ghost predicate ReplyOk(s: State, m: ToAgent) {
    match m
    case Dispatch(id, _) => id in s.relay.commands
    case ResultAck(c) => Accounted(s, c)
    case SyncResp(acked, pending) =>
      && (forall i | 0 <= i < |acked| :: Accounted(s, acked[i]))
      && (forall i | 0 <= i < |pending| :: pending[i].0 in s.relay.commands)
  }

  ghost predicate WireOk(s: State) {
    && (forall m | m in s.toRelay :: RequestOk(s, m))
    && (forall m | m in s.toAgent :: ReplyOk(s, m))
    && (forall k | k in s.jobs :: JobOk(s, s.jobs[k]))
  }

  ghost predicate JobOk(s: State, j: Job) {
    match j
    case Acking(c) => Accounted(s, c)
    case Saving(todo, acked) => RequestOk(s, SyncReq(todo)) && forall i | 0 <= i < |acked| :: Accounted(s, acked[i])
    case Marking(acked, pending, _) => ReplyOk(s, SyncResp(acked, pending))
  }

  ghost predicate HandlersOk(s: State) {
    forall h, i | h in s.agent.handlers && 0 <= i < |s.agent.handlers[h].todo| ::
      s.agent.handlers[h].todo[i].0 in s.relay.commands
  }

  ghost predicate RelayRowsOk(s: State) {
    forall e | e in s.relay.results :: Genuine(s, e, s.relay.results[e].commandId)
  }

  ghost predicate SyncedOk(s: State) {
    forall i | 0 <= i < |s.agent.db.results| && s.agent.db.results[i].synced ::
      Accounted(s, s.agent.db.results[i].commandId)
  }

  ghost predicate Inv(s: State) {
    IdsOk(s) && WireOk(s) && HandlersOk(s) && RelayRowsOk(s) && SyncedOk(s)
  }

  /** Ids and stored results are never taken back. */
  ghost predicate Grown(s: State, t: State) {
    && |s.agent.db.results| <= |t.agent.db.results|
    && (forall i | 0 <= i < |s.agent.db.results| ::
          && t.agent.db.results[i].resultId == s.agent.db.results[i].resultId
          && t.agent.db.results[i].commandId == s.agent.db.results[i].commandId)
    && s.agent.db.commands.Keys <= t.agent.db.commands.Keys
    && s.relay.commands.Keys <= t.relay.commands.Keys
    && (forall e | e in s.relay.results ::
          e in t.relay.results && t.relay.results[e].commandId == s.relay.results[e].commandId)
    && s.unsaved <= t.unsaved
  }

  lemma GrownGenuine(s: State, t: State, e: string, c: string)
    requires Grown(s, t) && Genuine(s, e, c)
    ensures Genuine(t, e, c)
  {
  }

  /** What is old carries over; a step has to show only what it adds. */
  lemma Carry(s: State, t: State)
    requires Inv(s) && Grown(s, t)
    requires IdsOk(t) && HandlersOk(t)
    requires forall m | m in t.toRelay && m !in s.toRelay :: RequestOk(t, m)
    requires forall m | m in t.toAgent && m !in s.toAgent :: ReplyOk(t, m)
    requires forall k | k in t.jobs && !(k in s.jobs && t.jobs[k] == s.jobs[k]) :: JobOk(t, t.jobs[k])
    requires forall e | e in t.relay.results && e !in s.relay.results :: Genuine(t, e, t.relay.results[e].commandId)
    requires forall i | 0 <= i < |t.agent.db.results| && t.agent.db.results[i].synced ::
               (i < |s.agent.db.results| && s.agent.db.results[i].synced)
               || Accounted(t, t.agent.db.results[i].commandId)
    ensures Inv(t)
  {
  }

  // ---- Agent steps ----

  /** The result rows after an agent action: one more, some flags set, or the same. */
  ghost predicate ResultsMove(s: A.State, a: A.Action, t: A.State) {
    || t.db.results == s.db.results
    || (a.Acknowledge? && t.db.results == AgentDb.MarkSynced(s.db.results, a.commandId))
    || (a.SaveOne? && |t.db.results| == |s.db.results| + 1 && t.db.results[..|s.db.results|] == s.db.results
        && var row := t.db.results[|s.db.results|];
           row.resultId == a.outcome.uuid && row.commandId in s.db.commands && !row.synced
           && !AgentDb.HasResultId(s.db, row.resultId))
  }

  lemma AgentResults(s: A.State, a: A.Action, max: nat)
    ensures ResultsMove(s, a, A.Step(s, a, max))
  {
  }

  lemma AgentCommands(s: A.State, a: A.Action, max: nat)
    ensures var t := A.Step(s, a, max);
            && s.db.commands.Keys <= t.db.commands.Keys
            && forall id | id in t.db.commands && id !in s.db.commands ::
                 || (a.EnqueueLocally? && id == a.id)
                 || (a.Insert? && a.h in s.handlers && s.handlers[a.h].todo != [] && id == s.handlers[a.h].todo[0].0)
  {
  }

  lemma AgentGrown(s: State, x: A.Action, max: nat, t: State)
    requires t == s.(agent := A.Step(s.agent, x, max))
    ensures Grown(s, t)
  {
    AgentResults(s.agent, x, max);
    AgentCommands(s.agent, x, max);
  }

  lemma AgentCommandIds(s: State, x: A.Action, max: nat, t: State, id: string)
    requires HandlersOk(s) && FreshAction(s, x) && t == s.(agent := A.Step(s.agent, x, max))
    requires IsResultId(s, id) && !IsCommandId(s, id)
    ensures !IsCommandId(t, id)
  {
  }

  lemma AgentIds(s: State, x: A.Action, max: nat, t: State)
    requires IdsOk(s) && HandlersOk(s) && FreshAction(s, x) && t == s.(agent := A.Step(s.agent, x, max))
    ensures IdsOk(t)
  {
    AgentGrown(s, x, max, t);
    AgentResults(s.agent, x, max);
    var n := |s.agent.db.results|;
    forall i | 0 <= i < n ensures !IsCommandId(t, t.agent.db.results[i].resultId) {
      assert s.agent.db.results[i].resultId == t.agent.db.results[i].resultId;
      AgentCommandIds(s, x, max, t, s.agent.db.results[i].resultId);
    }
    if |t.agent.db.results| > n {
      assert t.agent.db.commands.Keys == s.agent.db.commands.Keys;
      assert forall i | 0 <= i < n :: t.agent.db.results[..n][i] == t.agent.db.results[i];
    }
  }

  lemma AgentTodo(s: State, x: A.Action, max: nat, t: State)
    requires HandlersOk(s) && t == s.(agent := A.Step(s.agent, x, max))
    requires x.Receive? ==> forall i | 0 <= i < |x.commands| :: x.commands[i].0 in s.relay.commands
    ensures HandlersOk(t)
  {
  }

  /** An agent step; an acknowledgement must be for something accounted for. */
  lemma AgentStep(s: State, x: A.Action, max: nat, t: State)
    requires Inv(s) && FreshAction(s, x) && t == s.(agent := A.Step(s.agent, x, max))
    requires x.Receive? ==> forall i | 0 <= i < |x.commands| :: x.commands[i].0 in s.relay.commands
    requires x.Acknowledge? ==> Accounted(s, x.commandId)
    ensures Inv(t)
  {
    AgentGrown(s, x, max, t);
    AgentIds(s, x, max, t);
    AgentTodo(s, x, max, t);
    AgentResults(s.agent, x, max);
    Carry(s, t);
  }

  // ---- Relay steps ----

  /** Storing a genuine report leaves a row for its command: the upsert cannot hit another command's row. */
  lemma SaveStep(s: State, r: R.Report, now: int, t: State)
    requires Inv(s) && Genuine(s, R.ResultKey(r), r.commandId)
    requires t == s.(relay := R.SaveResult(s.relay, r, now), cloud := t.cloud)
          || t == s.(relay := R.SaveSandboxResult(s.relay, r, now), cloud := t.cloud)
    ensures Inv(t) && Grown(s, t) && R.HasResultFor(t.relay, r.commandId)
  {
    var e := R.ResultKey(r);
    assert t.relay.results == s.relay.results[e := R.ResultRowFor(s.relay, r, now)];
    if e in s.relay.results { GenuineUnique(s, e, r.commandId, s.relay.results[e].commandId); }
    assert t.relay.results[e].commandId == r.commandId;
    assert Grown(s, t);
    GrownGenuine(s, t, e, r.commandId);
    Carry(s, t);
  }

  lemma SyncPendingKnown(db: R.Db)
    ensures forall i | 0 <= i < |SyncPending(db)| :: SyncPending(db)[i].0 in db.commands
  {
    var keys := Sorted(R.PendingKeys(db, DEVICE));
    SortedLists(R.PendingKeys(db, DEVICE));
    forall i | 0 <= i < |keys| ensures keys[i].id in db.commands {
      assert keys[i] in R.PendingKeys(db, DEVICE);
    }
  }

  lemma JobReplies(s: State, k: nat, m: ToAgent, t: State)
    requires Inv(s) && ReplyOk(s, m) && t == s.(toAgent := s.toAgent + {m}, jobs := s.jobs - {k})
    ensures Inv(t)
  {
    Carry(s, t);
  }

  lemma JobMoves(s: State, k: nat, j: Job, t: State)
    requires Inv(s) && JobOk(s, j)
    requires t == s.(relay := t.relay, jobs := s.jobs[k := j])
    requires t.relay.results == s.relay.results && t.relay.commands.Keys == s.relay.commands.Keys
    ensures Inv(t)
  {
    assert Grown(s, t);
    Carry(s, t);
  }

  lemma JobStep(s: State, k: nat, now: int, fault: bool)
    requires Inv(s) && k in s.jobs
    ensures Inv(Advanced(s, k, now, fault))
  {
    var t := Advanced(s, k, now, fault);
    assert JobOk(s, s.jobs[k]);
    match s.jobs[k]
    case Acking(c) => JobReplies(s, k, ResultAck(c), t);
    case Saving(todo, acked) =>
      if todo != [] && !fault {
        SaveNext(s, k, todo, acked, now, t);
      } else {
        if todo == [] { SyncPendingKnown(s.relay); }
        JobMoves(s, k, t.jobs[k], t);
      }
    case Marking(acked, pending, keys) =>
      if keys == [] { JobReplies(s, k, SyncResp(acked, pending), t); } else { JobMoves(s, k, t.jobs[k], t); }
  }

  lemma SaveNext(s: State, k: nat, todo: seq<R.Report>, acked: seq<string>, now: int, t: State)
    requires Inv(s) && k in s.jobs && s.jobs[k] == Saving(todo, acked) && todo != []
    requires t == s.(relay := R.SaveResult(s.relay, todo[0], now),
                     jobs := s.jobs[k := Saving(todo[1..], acked + [todo[0].commandId])])
    ensures Inv(t)
  {
    var m := s.(relay := R.SaveResult(s.relay, todo[0], now));
    assert JobOk(s, s.jobs[k]);
    SaveStep(s, todo[0], now, m);
    assert JobOk(m, m.jobs[k]);
    assert forall i | 0 <= i < |todo| - 1 :: todo[1..][i] == todo[i + 1];
    assert Accounted(t, todo[0].commandId);
    var more := acked + [todo[0].commandId];
    forall i | 0 <= i < |more| ensures Accounted(t, more[i]) {
      if i < |acked| { assert Accounted(m, acked[i]); }
    }
    Carry(m, t);
  }

  lemma StepInv(s: State, a: Action, max: nat)
    requires Inv(s)
    ensures Inv(Step(s, a, max))
  {
    var t := Step(s, a, max);
    match a
    case Internal(x) =>
      if !NeedsMessage(x) && FreshAction(s, x) { AgentStep(s, x, max, t); }
    case TakeDispatch(h, id, p) =>
      if Dispatch(id, p) in s.toAgent {
        assert ReplyOk(s, Dispatch(id, p));
        AgentStep(s, A.Receive(h, [(id, p)]), max, t);
      }
    case TakeSyncResp(h, acked, pending) =>
      if SyncResp(acked, pending) in s.toAgent {
        assert ReplyOk(s, SyncResp(acked, pending));
        AgentStep(s, A.Receive(h, pending), max, t);
      }
    case TakeAck(c) =>
      if ResultAck(c) in s.toAgent {
        assert ReplyOk(s, ResultAck(c));
        AgentStep(s, A.Acknowledge(c), max, t);
      }
    case TakeSyncAck(c, acked, pending) =>
      if SyncResp(acked, pending) in s.toAgent && c in acked {
        assert ReplyOk(s, SyncResp(acked, pending));
        AgentStep(s, A.Acknowledge(c), max, t);
      }
    case _ => RelayStepInv(s, a, max);
  }

  predicate RelaySide(a: Action) {
    || a.ReportResult? || a.ReportUndecodable? || a.Reconnect? || a.Conclude? || a.CancelQueue?
    || a.Enqueue? || a.Hand? || a.Answer? || a.OnCmdResult? || a.OnSyncReq? || a.Advance?
  }

  lemma RelayStepInv(s: State, a: Action, max: nat)
    requires Inv(s) && RelaySide(a)
    ensures Inv(Step(s, a, max))
  {
    var t := Step(s, a, max);
    match a
    case ReportResult(i) => ReportStep(s, i, t);
    case ReportUndecodable(id, o) => UndecodableStep(s, id, o, t);
    case Reconnect(picks) => ReconnectStep(s, picks, t);
    case Enqueue(_, _, _, _, _) => QueueStep(s, a, max);
    case Hand(_, _) => QueueStep(s, a, max);
    case Answer(_, _, _, _) => AnswerStep(s, a, max);
    case Conclude(_, _) => CloudStep(s, t);
    case CancelQueue(_) => CloudStep(s, t);
    case OnCmdResult(k, r, now, saved) =>
      if CmdResult(r) in s.toRelay && k !in s.jobs { CmdResultStep(s, k, r, now, saved, max); }
    case OnSyncReq(k, rs) => SyncReqStep(s, k, rs, max);
    case Advance(k, now, fault) =>
      if k in s.jobs { JobStep(s, k, now, fault); }
  }

  lemma AnswerStep(s: State, a: Action, max: nat)
    requires Inv(s) && a.Answer?
    ensures Inv(Step(s, a, max))
  {
    if a.id in s.relay.commands {
      var r := CloudReport(a.id, a.report);
      SaveStep(s, if a.predefined then r.(exitCode := 0, timedOut := false) else r, a.now, Step(s, a, max));
    }
  }

  lemma ReportStep(s: State, i: nat, t: State)
    requires Inv(s)
    requires t == s || (i < |s.agent.db.results|
             && t == s.(toRelay := s.toRelay + {CmdResult(ReportOf(s.agent.db.results[i].(resultId := ""), DEVICE))}))
    ensures Inv(t)
  {
  }

  lemma UndecodableStep(s: State, id: string, o: AgentWorker.Attempt, t: State)
    requires Inv(s)
    requires t == s || (Undecodable(s.agent, id)
             && t == s.(toRelay := s.toRelay + {CmdResult(UndecodableReport(s.agent, id, o))}))
    ensures Inv(t)
  {
  }

  /** Steps on the command table that neither add a command nor touch a result. */
  lemma CloudStep(s: State, t: State)
    requires Inv(s) && t == s.(relay := t.relay, cloud := t.cloud)
    requires t.relay.results == s.relay.results && t.relay.commands.Keys == s.relay.commands.Keys
    ensures Inv(t)
  {
  }

  lemma ReconnectStep(s: State, picks: seq<nat>, t: State)
    requires Inv(s)
    requires t == s || ((forall i | 0 <= i < |picks| :: picks[i] < |s.agent.db.results|)
             && t == s.(toRelay := s.toRelay + {SyncReq(ReportsOf(s.agent.db.results, picks, DEVICE))}))
    ensures Inv(t)
  {
  }

  lemma QueueStep(s: State, a: Action, max: nat)
    requires Inv(s) && (a.Enqueue? || a.Hand?)
    ensures Inv(Step(s, a, max))
  {
    var t := Step(s, a, max);
    EnqueueIds(s, a.id, t);
    assert Grown(s, t);
    Carry(s, t);
  }

  lemma EnqueueIds(s: State, id: string, t: State)
    requires IdsOk(s) && t.agent == s.agent
    requires || t.relay.commands.Keys <= s.relay.commands.Keys
             || (!IsResultId(s, id) && t.relay.commands.Keys <= s.relay.commands.Keys + {id})
    ensures IdsOk(t)
  {
  }

  lemma SyncReqStep(s: State, k: nat, rs: seq<R.Report>, max: nat)
    requires Inv(s)
    ensures Inv(Step(s, OnSyncReq(k, rs), max))
  {
    if SyncReq(rs) in s.toRelay && k !in s.jobs {
      assert RequestOk(s, SyncReq(rs));
      Carry(s, Step(s, OnSyncReq(k, rs), max));
    }
  }

  lemma CmdResultStep(s: State, k: nat, r: R.Report, now: int, saved: bool, max: nat)
    requires Inv(s) && CmdResult(r) in s.toRelay && k !in s.jobs
    ensures Inv(Step(s, OnCmdResult(k, r, now, saved), max))
  {
    var t := Step(s, OnCmdResult(k, r, now, saved), max);
    assert RequestOk(s, CmdResult(r));
    if saved {
      var m := s.(relay := R.SaveResult(s.relay, r, now));
      SaveStep(s, r, now, m);
      assert Accounted(t, r.commandId);
      Carry(m, t);
    } else {
      Carry(s, t);
    }
  }

  lemma {:induction false} RunInv(s: State, actions: seq<Action>, max: nat)
    requires Inv(s)
    ensures Inv(Run(s, actions, max))
  {
    if actions != [] {
      var n := |actions| - 1;
      RunInv(s, actions[..n], max);
      StepInv(Run(s, actions[..n], max), actions[n], max);
    }
  }

  /**
   Ack soundness, in every run of the lossy protocol: a result marked Synced means that the relay
   holds a result of its command, or acknowledged one whose storing had failed.
   */
  lemma AckSoundness(db: AgentDb.Db, actions: seq<Action>, max: nat, s: State, i: nat)
    requires A.Untouched(db) && s == Run(Start(db), actions, max)
    requires i < |s.agent.db.results| && s.agent.db.results[i].synced
    ensures Accounted(s, s.agent.db.results[i].commandId)
  {
    RunInv(Start(db), actions, max);
  }

  /** When every save on the CMD_RESULT path succeeds, the relay holds the result. */
  lemma {:induction false} NothingUnsaved(s: State, actions: seq<Action>, max: nat)
    requires s.unsaved == {} && forall a | a in actions :: a.OnCmdResult? ==> a.saved
    ensures Run(s, actions, max).unsaved == {}
  {
    if actions != [] {
      NothingUnsaved(s, actions[..|actions| - 1], max);
      assert actions[|actions| - 1] in actions;
    }
  }

  lemma AckSoundnessWithoutFaults(db: AgentDb.Db, actions: seq<Action>, max: nat, s: State, i: nat)
    requires A.Untouched(db) && s == Run(Start(db), actions, max)
    requires forall a | a in actions :: a.OnCmdResult? ==> a.saved
    requires i < |s.agent.db.results| && s.agent.db.results[i].synced
    ensures R.HasResultFor(s.relay, s.agent.db.results[i].commandId)
  {
    AckSoundness(db, actions, max, s, i);
    NothingUnsaved(Start(db), actions, max);
  }

  /**
   A CMD_RESULT for a command the relay holds nothing of, taken in any state that satisfies the
   invariant: it is acknowledged in any case, and the relay holds a result exactly if it was saved.
   */
  lemma AcknowledgedMeansStoredIff(s: State, k: nat, r: R.Report, now: int, saved: bool, max: nat, i: nat)
    requires Inv(s) && CmdResult(r) in s.toRelay && k !in s.jobs && !s.agent.phase.Down?
    requires i < |s.agent.db.results| && s.agent.db.results[i].commandId == r.commandId
    requires !R.HasResultFor(s.relay, r.commandId)
    ensures var s1 := Step(s, OnCmdResult(k, r, now, saved), max);
            var t := Step(Step(s1, Advance(k, now, false), max), TakeAck(r.commandId), max);
            && i < |t.agent.db.results| && t.agent.db.results[i].synced
            && (R.HasResultFor(t.relay, r.commandId) <==> saved)
  {
    Acknowledging(s, k, r, now, saved, max);
    if saved {
      assert RequestOk(s, CmdResult(r));
      SaveStep(s, r, now, s.(relay := R.SaveResult(s.relay, r, now)));
    }
  }

  lemma Acknowledging(s: State, k: nat, r: R.Report, now: int, saved: bool, max: nat)
    requires CmdResult(r) in s.toRelay && k !in s.jobs
    ensures var t := Step(Step(s, OnCmdResult(k, r, now, saved), max), Advance(k, now, false), max);
            && t.agent == s.agent && ResultAck(r.commandId) in t.toAgent
            && t.relay == if saved then R.SaveResult(s.relay, r, now) else s.relay
  {
  }
}
