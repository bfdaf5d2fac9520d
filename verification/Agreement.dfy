/** When a synchronisation makes the relay's status of a command equal to the agent's. */
module Agreement {
  import opened Ordering
  import opened AgentDb
  import A = AgentRuns
  import R = RelayDb
  import opened NetClient
  import P = Protocol
  import Auth = Authenticity

  function AsRelay(s: Status): R.Status {
    match s case Completed => R.Completed
    case Failed => R.Failed case Pending => R.Pending case Executing => R.Dispatched
  }

  /** The saves of the results at `picks`, in that order, each at its own time. */
  ghost predicate Carries(saves: seq<R.Stamped>, results: seq<Result>, picks: seq<nat>, deviceId: string) {
    && |saves| == |picks|
    && forall i | 0 <= i < |picks| :: picks[i] < |results| && saves[i].report == ReportOf(results[picks[i]], deviceId)
  }

  /** Position f holds the command's last result. */
  predicate IsFinal(results: seq<Result>, f: nat, id: string) {
    f < |results| && results[f].commandId == id && forall i | f < i < |results| :: results[i].commandId != id
  }

  lemma {:induction false} FinalIsLast(results: seq<Result>, f: nat, id: string)
    requires IsFinal(results, f, id)
    ensures A.LastExit(results, id) == Some(results[f].exitCode)
  {
    var n := |results| - 1;
    if f < n {
      FinalIsLast(results[..n], f, id);
    }
  }

  lemma {:induction false} LastForAt(saves: seq<R.Stamped>, p: nat, id: string)
    requires p < |saves| && saves[p].report.commandId == id
    && forall q | p < q < |saves| :: saves[q].report.commandId != id
    ensures R.LastFor(saves, id) == Some(saves[p])
  {
    var n := |saves| - 1;
    if p < n {
      LastForAt(saves[..n], p, id);
    }
  }

  /**
   In every run of the agent, for a finished command the relay knows: a batch with results of it
   brings the relay to the agent's status exactly when the last of them has the same kind of exit
   code as the command's final attempt, a disowned success counting as a failure.
   */
  lemma StatusAgreesIff(db: Db, actions: seq<A.Action>, max: nat, s: A.State, relay: R.Db, picks: seq<nat>,
                        saves: seq<R.Stamped>, deviceId: string, id: string)
    requires A.Untouched(db) && max >= 1 && s == A.Run(A.Start(db), actions, max)
    requires id in s.db.commands && s.db.commands[id].status.Terminal() && id in relay.commands
    requires Carries(saves, s.db.results, picks, deviceId) && R.LastFor(saves, id).Some?
    ensures var last := R.LastFor(saves, id).value.report;
            var after := R.SaveAll(relay, saves);
            && id in after.commands
            && (after.commands[id].status == AsRelay(s.db.commands[id].status)
                <==> (last.exitCode == 0 <==> A.LastExit(s.db.results, id) == Some(0) && !A.Disowned(s, id)))
  {
    A.StartOk(db, max);
    A.RunVerdict(A.Start(db), actions, max);
    R.SaveAllCommand(relay, saves, id);
    LastForIn(saves, id);
  }

  lemma {:induction false} LastForIn(saves: seq<R.Stamped>, id: string)
    requires R.LastFor(saves, id).Some?
    ensures R.LastFor(saves, id).value in saves
  {
    var n := |saves| - 1;
    if saves[n].report.commandId != id {
      LastForIn(saves[..n], id);
    }
  }

  /** In particular when the batch holds the final attempt after the earlier ones. */
  lemma StatusAgreement(db: Db, actions: seq<A.Action>, max: nat, s: A.State, relay: R.Db, picks: seq<nat>,
                        saves: seq<R.Stamped>, deviceId: string, id: string, p: nat)
    requires A.Untouched(db) && max >= 1 && s == A.Run(A.Start(db), actions, max) && !A.Disowned(s, id)
    requires id in s.db.commands && s.db.commands[id].status.Terminal() && id in relay.commands
    requires Carries(saves, s.db.results, picks, deviceId)
    requires p < |picks| && IsFinal(s.db.results, picks[p], id)
    requires forall q | p < q < |picks| :: s.db.results[picks[q]].commandId != id
    ensures var after := R.SaveAll(relay, saves);
            id in after.commands && after.commands[id].status == AsRelay(s.db.commands[id].status)
  {
    FinalIsLast(s.db.results, picks[p], id);
    LastForAt(saves, p, id);
    StatusAgreesIff(db, actions, max, s, relay, picks, saves, deviceId, id);
  }

  // ---- Over whole runs of the protocol ----

  /** The report about a known command that a step stores, on either path. */
  ghost function SavedBy(s: P.State, a: P.Action, id: string): Option<R.Report> {
    if id !in s.relay.commands then None else
      match a
      case OnCmdResult(k, r, _, saved) =>
        if P.CmdResult(r) in s.toRelay && k !in s.jobs && saved && r.commandId == id then Some(r) else None
      case Advance(k, _, fault) =>
        if k in s.jobs && s.jobs[k].Saving? && s.jobs[k].todo != [] && !fault && s.jobs[k].todo[0].commandId == id
        then Some(s.jobs[k].todo[0]) else None
      case _ => None
  }

  /** The last such report of a run. */
  ghost function LastSaved(s: P.State, actions: seq<P.Action>, max: nat, id: string): Option<R.Report> {
    if actions == [] then None else
      var n := |actions| - 1;
      var last := SavedBy(P.Run(s, actions[..n], max), actions[n], id);
      if last.Some? then last else LastSaved(s, actions[..n], max, id)
  }

  /** Neither a predefined answer nor a cancellation of the relay itself. */
  predicate LeftToAgent(s: P.State, id: string) {
    P.Answered(id) !in s.cloud && P.Cancelled(id) !in s.cloud
  }

  ghost predicate Shows(s: P.State, id: string, last: Option<R.Report>) {
    id in s.relay.commands && LeftToAgent(s, id) ==>
      match last
      case None => s.relay.commands[id].status.Rank() < 2
      case Some(r) => s.relay.commands[id].status == R.Outcome(r)
  }

  lemma JobShows(s: P.State, a: P.Action, max: nat, id: string, last: Option<R.Report>)
    requires Shows(s, id, last) && (id !in s.relay.commands ==> last == None)
    requires a.Advance?
    ensures Shows(P.Step(s, a, max), id, if SavedBy(s, a, id).Some? then SavedBy(s, a, id) else last)
    ensures id in P.Step(s, a, max).relay.commands <==> id in s.relay.commands
  {
  }

  lemma RequestShows(s: P.State, a: P.Action, max: nat, id: string, last: Option<R.Report>)
    requires Shows(s, id, last) && (id !in s.relay.commands ==> last == None)
    requires a.OnCmdResult? || a.OnSyncReq?
    ensures Shows(P.Step(s, a, max), id, if SavedBy(s, a, id).Some? then SavedBy(s, a, id) else last)
    ensures id in P.Step(s, a, max).relay.commands <==> id in s.relay.commands
  {
  }

  lemma QueueShows(s: P.State, a: P.Action, max: nat, id: string, last: Option<R.Report>)
    requires Shows(s, id, last) && (id !in s.relay.commands ==> last == None)
    requires a.Enqueue? || a.Hand?
    ensures Shows(P.Step(s, a, max), id, last)
    ensures id in s.relay.commands ==> id in P.Step(s, a, max).relay.commands
  {
  }

  lemma CloudShows(s: P.State, a: P.Action, max: nat, id: string, last: Option<R.Report>)
    requires Shows(s, id, last) && (id !in s.relay.commands ==> last == None)
    requires a.Answer? || a.Conclude? || a.CancelQueue?
    ensures Shows(P.Step(s, a, max), id, last)
    ensures id in s.relay.commands ==> id in P.Step(s, a, max).relay.commands
  {
  }

  /** In every run the relay shows of a command what the last report it stored about it says. */
  lemma {:induction false} ShowsLastSaved(s: P.State, actions: seq<P.Action>, max: nat, id: string)
    requires s.relay.commands == map[]
    ensures Shows(P.Run(s, actions, max), id, LastSaved(s, actions, max, id))
    ensures id !in P.Run(s, actions, max).relay.commands ==> LastSaved(s, actions, max, id) == None
  {
    if actions != [] {
      var n := |actions| - 1;
      var m, a := P.Run(s, actions[..n], max), actions[n];
      var last := LastSaved(s, actions[..n], max, id);
      ShowsLastSaved(s, actions[..n], max, id);
      if a.Advance? {
        JobShows(m, a, max, id, last);
      } else if a.OnCmdResult? || a.OnSyncReq? {
        RequestShows(m, a, max, id, last);
      } else if a.Enqueue? || a.Hand? {
        QueueShows(m, a, max, id, last);
      } else if a.Answer? || a.Conclude? || a.CancelQueue? {
        CloudShows(m, a, max, id, last);
      }
    }
  }

  /** A finished command is COMPLETED just when its last result is a success that no recovery disowned. */
  lemma FinishedIff(db: Db, actions: seq<P.Action>, max: nat, s: P.State, id: string)
    requires A.Untouched(db) && max >= 1 && s == P.Run(P.Start(db), actions, max)
    requires id in s.agent.db.commands && s.agent.db.commands[id].status.Terminal()
    ensures s.agent.db.commands[id].status.Completed?
       <==> A.LastExit(s.agent.db.results, id) == Some(0) && !A.Disowned(s.agent, id)
    ensures P.Undecodable(s.agent, id) ==> A.LastExit(s.agent.db.results, id) != Some(0)
  {
    A.StartOk(db, max);
    P.RunVerdicts(P.Start(db), actions, max);
  }

  /**
   In every run of the lossy protocol, crashes and store errors included, for a command the agent
   has finished and the relay has not answered or cancelled itself: the two agree on its status
   exactly when the last report the relay has stored about it has the same kind of exit code as the
   final attempt, a success that a recovery disowned counting as a failure.
   */
  lemma RunAgreesIff(db: Db, actions: seq<P.Action>, max: nat, s: P.State, id: string)
    requires A.Untouched(db) && max >= 1 && s == P.Run(P.Start(db), actions, max)
    requires id in s.agent.db.commands && s.agent.db.commands[id].status.Terminal()
    requires id in s.relay.commands && LeftToAgent(s, id)
    ensures s.relay.commands[id].status == AsRelay(s.agent.db.commands[id].status)
       <==> match LastSaved(P.Start(db), actions, max, id)
            case None => false
            case Some(r) =>
              R.Outcome(r).Completed? <==> A.LastExit(s.agent.db.results, id) == Some(0) && !A.Disowned(s.agent, id)
  {
    FinishedIff(db, actions, max, s, id);
    ShowsLastSaved(P.Start(db), actions, max, id);
  }

  // ---- In terms of the attempts alone ----

  /** The saved attempts of the command do not include both successes and failures. */
  ghost predicate Unmixed(results: seq<Result>, id: string) {
    forall i, j | 0 <= i < |results| && 0 <= j < |results|
    && results[i].commandId == id && results[j].commandId == id ::
      results[i].exitCode == 0 <==> results[j].exitCode == 0
  }

  lemma {:induction false} LastExitIsOne(results: seq<Result>, id: string) returns (i: nat)
    requires exists k | 0 <= k < |results| :: results[k].commandId == id
    ensures i < |results| && results[i].commandId == id && A.LastExit(results, id) == Some(results[i].exitCode)
  {
    i := |results| - 1;
    if results[i].commandId != id {
      var k :| 0 <= k < |results| && results[k].commandId == id;
      assert results[..i][k].commandId == id;
      i := LastExitIsOne(results[..i], id);
    }
  }

  /** Any saved attempt then stands for the last one. */
  lemma UnmixedLast(results: seq<Result>, id: string, i: nat)
    requires Unmixed(results, id) && i < |results| && results[i].commandId == id
    ensures A.LastExit(results, id) == Some(0) <==> results[i].exitCode == 0
  {
    var k := LastExitIsOne(results, id);
  }

  /**
   In every run: for a finished command, left to the agent, whose saved attempts all succeeded or
   all failed, the two agree exactly when the relay has heard of any outcome at all and no recovery
   disowned a success. Only a retry that turns a failure into a success can make the order matter.
   */
  lemma UnmixedAgreesIff(db: Db, actions: seq<P.Action>, max: nat, s: P.State, id: string)
    requires A.Untouched(db) && max >= 1 && s == P.Run(P.Start(db), actions, max)
    requires id in s.agent.db.commands && s.agent.db.commands[id].status.Terminal()
    requires id in s.relay.commands && LeftToAgent(s, id) && Unmixed(s.agent.db.results, id)
    ensures s.relay.commands[id].status == AsRelay(s.agent.db.commands[id].status)
       <==> s.relay.commands[id].status.Rank() == 2 && !A.Disowned(s.agent, id)
  {
    var results := s.agent.db.results;
    FinishedIff(db, actions, max, s, id);
    Auth.StatusIsAuthentic(db, actions, max, s, id);
    if s.relay.commands[id].status.Completed? {
      var i :| 0 <= i < |results| && results[i].commandId == id && results[i].exitCode == 0;
      UnmixedLast(results, id, i);
    } else if s.relay.commands[id].status.Failed? && !P.Undecodable(s.agent, id) {
      var i :| 0 <= i < |results| && results[i].commandId == id && results[i].exitCode != 0;
      UnmixedLast(results, id, i);
    }
  }
}
