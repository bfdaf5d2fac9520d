/** What an acknowledgement by a SYNC_RESP stands for: a result with a row of its own at the relay. */
module Receipts {
  import AgentDb
  import A = AgentRuns
  import R = RelayDb
  import opened NetClient
  import opened Protocol
  import opened Authenticity
  import opened Delivery

  /** The saved result has a row under its own id. */
  predicate OwnRow(s: State, j: nat) {
    j < |s.agent.db.results| && s.agent.db.results[j].resultId in s.relay.results
  }

  ghost predicate Receipt(s: State, c: string) {
    exists j | 0 <= j < |s.agent.db.results| :: s.agent.db.results[j].commandId == c && OwnRow(s, j)
  }

  ghost predicate AllReceipts(s: State, acked: seq<string>) {
    forall i | 0 <= i < |acked| :: Receipt(s, acked[i])
  }

  /** The report is sent under the id of a saved result. */
  ghost predicate UnderItsId(s: State, r: R.Report) {
    && r.resultId != ""
    && exists j | 0 <= j < |s.agent.db.results| ::
         s.agent.db.results[j].resultId == r.resultId && s.agent.db.results[j].commandId == r.commandId
  }

  ghost predicate AllUnderIds(s: State, rs: seq<R.Report>) {
    forall i | 0 <= i < |rs| :: UnderItsId(s, rs[i])
  }

  ghost predicate JobReceipts(s: State, job: Job) {
    match job
    case Acking(_) => true
    case Saving(todo, acked) => AllUnderIds(s, todo) && AllReceipts(s, acked)
    case Marking(acked, _, _) => AllReceipts(s, acked)
  }

  ghost predicate ReceiptsOk(s: State) {
    && (forall rs | SyncReq(rs) in s.toRelay :: AllUnderIds(s, rs))
    && (forall acked, pending | SyncResp(acked, pending) in s.toAgent :: AllReceipts(s, acked))
    && (forall k | k in s.jobs :: JobReceipts(s, s.jobs[k]))
  }

  /** Results and rows stay, so what was acknowledged stays acknowledged rightly. */
  lemma Stays(s: State, t: State)
    requires ReceiptsOk(s) && Grown(s, t)
    requires forall rs | SyncReq(rs) in t.toRelay :: SyncReq(rs) in s.toRelay || AllUnderIds(t, rs)
    requires forall acked, pending | SyncResp(acked, pending) in t.toAgent ::
               SyncResp(acked, pending) in s.toAgent || AllReceipts(t, acked)
    requires forall k | k in t.jobs :: (k in s.jobs && t.jobs[k] == s.jobs[k]) || JobReceipts(t, t.jobs[k])
    ensures ReceiptsOk(t)
  {
    forall c | Receipt(s, c) ensures Receipt(t, c) { ReceiptStays(s, t, c); }
    forall r | UnderItsId(s, r) ensures UnderItsId(t, r) { UnderIdStays(s, t, r); }
  }

  lemma ReceiptStays(s: State, t: State, c: string)
    requires Grown(s, t) && Receipt(s, c)
    ensures Receipt(t, c)
  {
    var j :| 0 <= j < |s.agent.db.results| && s.agent.db.results[j].commandId == c && OwnRow(s, j);
    assert t.agent.db.results[j].commandId == c && OwnRow(t, j);
  }

  lemma UnderIdStays(s: State, t: State, r: R.Report)
    requires Grown(s, t) && UnderItsId(s, r)
    ensures UnderItsId(t, r)
  {
  }

  /** A saved report that carries an id leaves its receipt. */
  lemma SavedReceipt(s: State, r: R.Report, now: int, t: State)
    requires UnderItsId(s, r) && t.agent == s.agent && t.relay == R.SaveResult(s.relay, r, now)
    ensures Receipt(t, r.commandId)
  {
    R.SavedWhere(s.relay, r, now);
    var j :| 0 <= j < |s.agent.db.results|
             && s.agent.db.results[j].resultId == r.resultId && s.agent.db.results[j].commandId == r.commandId;
    assert OwnRow(t, j);
  }

  lemma JobStepReceipts(s: State, k: nat, now: int, fault: bool)
    requires ReceiptsOk(s) && k in s.jobs && Grown(s, Advanced(s, k, now, fault))
    ensures ReceiptsOk(Advanced(s, k, now, fault))
  {
    var t := Advanced(s, k, now, fault);
    assert JobReceipts(s, s.jobs[k]);
    if s.jobs[k].Saving? && s.jobs[k].todo != [] {
      NextReceipt(s, k, s.jobs[k].todo, s.jobs[k].acked, now, fault, t);
    } else if s.jobs[k].Saving? || s.jobs[k].Marking? {
      forall c | Receipt(s, c) ensures Receipt(t, c) { ReceiptStays(s, t, c); }
    }
    Stays(s, t);
  }

  lemma NextReceipt(s: State, k: nat, todo: seq<R.Report>, acked: seq<string>, now: int, fault: bool, t: State)
    requires k in s.jobs && s.jobs[k] == Saving(todo, acked) && todo != [] && JobReceipts(s, s.jobs[k])
    requires t == Advanced(s, k, now, fault) && Grown(s, t)
    ensures JobReceipts(t, t.jobs[k])
  {
    assert UnderItsId(s, todo[0]);
    if !fault { SavedReceipt(s, todo[0], now, t); }
    var acked' := t.jobs[k].acked;
    forall i | 0 <= i < |acked'| ensures Receipt(t, acked'[i]) {
      if i < |acked| { ReceiptStays(s, t, acked[i]); }
    }
    forall i | 0 <= i < |todo| - 1 ensures UnderItsId(t, todo[1..][i]) {
      assert todo[1..][i] == todo[i + 1];
      UnderIdStays(s, t, todo[i + 1]);
    }
  }

  lemma BatchUnderIds(s: State, picks: seq<nat>)
    requires IdsOk(s) && forall i | 0 <= i < |picks| :: picks[i] < |s.agent.db.results|
    ensures AllUnderIds(s, ReportsOf(s.agent.db.results, picks, DEVICE))
  {
    var rs := ReportsOf(s.agent.db.results, picks, DEVICE);
    forall i | 0 <= i < |rs| ensures UnderItsId(s, rs[i]) {
      assert s.agent.db.results[picks[i]].resultId == rs[i].resultId;
    }
  }

  lemma ReconnectReceipts(s: State, a: Action, max: nat)
    requires Inv(s) && ReceiptsOk(s) && a.Reconnect? && Grown(s, Step(s, a, max))
    ensures ReceiptsOk(Step(s, a, max))
  {
    if AgentDb.UnsyncedBatch(s.agent.db.results, BATCH, a.picks) { BatchUnderIds(s, a.picks); }
    Stays(s, Step(s, a, max));
  }

  lemma OtherReceipts(s: State, a: Action, max: nat)
    requires ReceiptsOk(s) && !a.Reconnect? && !a.Advance? && Grown(s, Step(s, a, max))
    ensures ReceiptsOk(Step(s, a, max))
  {
    SameSyncs(s, a, max);
    if a.OnSyncReq? && SyncReq(a.reports) in s.toRelay && a.k !in s.jobs {
      forall r | UnderItsId(s, r) ensures UnderItsId(Step(s, a, max), r) { UnderIdStays(s, Step(s, a, max), r); }
    }
    Stays(s, Step(s, a, max));
  }

  lemma SameSyncs(s: State, a: Action, max: nat)
    requires !a.Reconnect? && !a.Advance?
    ensures var t := Step(s, a, max);
            && (forall rs | SyncReq(rs) in t.toRelay :: SyncReq(rs) in s.toRelay)
            && (forall acked, pending | SyncResp(acked, pending) in t.toAgent :: SyncResp(acked, pending) in s.toAgent)
            && (forall k | k in t.jobs ::
                  || (k in s.jobs && t.jobs[k] == s.jobs[k]) || t.jobs[k].Acking?
                  || (a.OnSyncReq? && SyncReq(a.reports) in s.toRelay && a.k !in s.jobs
                      && t.jobs[k] == Saving(a.reports, [])))
  {
  }

  lemma StepReceipts(s: State, a: Action, max: nat)
    requires Inv(s) && ReceiptsOk(s) && Grown(s, Step(s, a, max))
    ensures ReceiptsOk(Step(s, a, max))
  {
    match a
    case Advance(k, now, fault) =>
      if k in s.jobs { JobStepReceipts(s, k, now, fault); }
    case Reconnect(_) => ReconnectReceipts(s, a, max);
    case _ => OtherReceipts(s, a, max);
  }

  /** Every step keeps ids, results and rows. */
  lemma StepGrown(s: State, a: Action, max: nat)
    ensures Grown(s, Step(s, a, max))
  {
    var t := Step(s, a, max);
    if t.agent != s.agent {
      AgentGrown(s, AgentAction(a), max, t);
    } else {
      RelayGrown(s, a, max);
    }
  }

  lemma RelayGrown(s: State, a: Action, max: nat)
    ensures var t := Step(s, a, max);
            && s.relay.commands.Keys <= t.relay.commands.Keys && s.unsaved <= t.unsaved
            && forall e | e in s.relay.results ::
                 e in t.relay.results && t.relay.results[e].commandId == s.relay.results[e].commandId
  {
    StepIsStoreCall(s, a, max);
    if StoreCall(s, a).Some? { R.StepGrows(s.relay, StoreCall(s, a).value); }
  }

  lemma {:induction false} RunReceipts(s: State, actions: seq<Action>, max: nat)
    requires Inv(s) && ReceiptsOk(s)
    ensures ReceiptsOk(Run(s, actions, max))
  {
    if actions != [] {
      var n := |actions| - 1;
      var m := Run(s, actions[..n], max);
      RunReceipts(s, actions[..n], max);
      RunInv(s, actions[..n], max);
      StepGrown(m, actions[n], max);
      StepReceipts(m, actions[n], max);
    }
  }

  /**
   In every run, whatever a SYNC_RESP acknowledges: the agent has saved a result of that command
   which has a row of its own at the relay, under its own id and with its content.
   */
  lemma SyncAckMeansOwnRow(db: AgentDb.Db, actions: seq<Action>, max: nat, s: State, acked: seq<string>,
                           pending: seq<(string, AgentDb.Payload)>, i: nat) returns (j: nat)
    requires A.Untouched(db) && s == Run(Start(db), actions, max)
             && SyncResp(acked, pending) in s.toAgent && i < |acked|
    ensures j < |s.agent.db.results| && s.agent.db.results[j].commandId == acked[i]
    ensures var r := s.agent.db.results[j];
            && r.resultId in s.relay.results
            && var row := s.relay.results[r.resultId];
               row.commandId == r.commandId && row.stdout == r.stdout
               && row.stderr == r.stderr && row.exitCode == r.exitCode
  {
    RunReceipts(Start(db), actions, max);
    assert Receipt(s, acked[i]);
    j :| 0 <= j < |s.agent.db.results| && s.agent.db.results[j].commandId == acked[i] && OwnRow(s, j);
    ResultsAreAuthentic(db, actions, max, s, s.agent.db.results[j].resultId);
  }
}
