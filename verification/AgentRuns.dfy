/**
 Every run of one agent: the worker loop, the relay handlers that feed it, crashes and restarts.

 Each action is one store call or one channel operation, so any interleaving of the worker with
 the network goroutine, and a crash between any two store calls, is a sequence of actions. An
 action that is not possible in a state leaves the state as it is; every sequence is a run.
 */
module AgentRuns {
  import opened Ordering
  import opened AgentDb
  import opened AgentWorker

  datatype Phase =
    | Down
    | Draining                                            // about to call RunOnce
    | Holding(id: string, attempt: nat)                   // claimed; its result is not saved yet
    | Deciding(id: string, attempt: nat, verdict: Status) // about to complete or requeue
    | Parked(onError: bool)                               // in the select after the drain loop

  /** A DISPATCH_CMD or SYNC_RESP handler: enqueue the commands one by one, then call Wake. */
  datatype Handler = Handler(todo: seq<(string, Payload)>, inserted: set<string>, stored: set<string>)

  /**
   `claims` is the history of claims, `clean` says that no crash and no store error has happened,
   `local` holds the ids enqueued by the command line, which signals nobody, `announced` those that
   some handler has enqueued without an error before it called Wake.
   */
  datatype State = State(db: Db, phase: Phase, token: bool, handlers: map<nat, Handler>,
                         claims: seq<Claimed>, clean: bool, local: set<string>, announced: set<string>)

  datatype Action =
    | Receive(h: nat, commands: seq<(string, Payload)>)
    | Insert(h: nat, now: int, fault: bool)
    | Signal(h: nat)
    | EnqueueLocally(id: string, payload: Payload, now: int)
    | ClaimOne(fault: bool)
    | SaveOne(outcome: Attempt, fault: bool)
    | Finish(fault: bool)
    | TakeToken
    | Tick
    | Acknowledge(commandId: string)
    | Crash
    | Restart(fault: bool)

  function Start(db: Db): State {
    State(db, Down, false, map[], [], true, {}, {})
  }

  /** A database no agent has worked on yet. */
  ghost predicate Untouched(db: Db) {
    db.results == []
    && forall id | id in db.commands :: db.commands[id].status.Pending? && db.commands[id].attempts == 0
  }

  ghost function Step(s: State, a: Action, max: nat): State {
    match a
    case Receive(h, commands) =>
      if s.phase.Down? || h in s.handlers || commands == [] then s
      else s.(handlers := s.handlers[h := Handler(commands, {}, {})])
    case Insert(h, now, fault) =>
      if h !in s.handlers || s.handlers[h].todo == [] then s else
        var (id, p) := s.handlers[h].todo[0];
        var rest := Handler(s.handlers[h].todo[1..], s.handlers[h].inserted + {id},
                            if fault then s.handlers[h].stored else s.handlers[h].stored + {id});
        s.(handlers := s.handlers[h := rest],
           db := if fault then s.db else EnqueueWithId(s.db, id, p, now),
           clean := s.clean && !fault)
    case Signal(h) =>
      if h !in s.handlers || s.handlers[h].todo != [] then s
      else s.(handlers := s.handlers - {h}, token := true, announced := s.announced + s.handlers[h].stored)
    case EnqueueLocally(id, p, now) =>
      if id in s.db.commands then s
      else s.(db := EnqueueWithId(s.db, id, p, now), local := s.local + {id})
    case ClaimOne(fault) =>
      if s.phase != Draining then s
      else if fault then s.(phase := Parked(true), clean := false)
      else
        var (db, id) := ClaimNext(s.db, max);
        if id.None? then s.(phase := Parked(false))
        else
          var n := db.commands[id.value].attempts;
          s.(db := db, phase := Holding(id.value, n), claims := s.claims + [Claimed(id.value, n)])
    case SaveOne(o, fault) =>
      if !s.phase.Holding? || s.phase.id !in s.db.commands then s else SaveHeld(s, o, fault, max)
    case Finish(fault) =>
      if !s.phase.Deciding? then s
      else s.(db := if fault then s.db else SetStatus(s.db, s.phase.id, s.phase.verdict),
              phase := Draining, clean := s.clean && !fault)
    case TakeToken => if s.phase.Parked? && s.token then s.(phase := Draining, token := false) else s
    case Tick => if s.phase.Parked? then s.(phase := Draining) else s
    case Acknowledge(c) => if s.phase.Down? then s else s.(db := s.db.(results := MarkSynced(s.db.results, c)))
    case Crash => s.(phase := Down, token := false, handlers := map[], clean := false)
    case Restart(fault) =>
      if !s.phase.Down? then s
      else s.(db := if fault then s.db else RecoverStale(s.db, max), phase := Draining, clean := s.clean && !fault)
  }

  /** Saving the result of the claimed command; an unsaved result of a decodable command ends RunOnce. */
  ghost function SaveHeld(s: State, o: Attempt, fault: bool, max: nat): State
    requires s.phase.Holding? && s.phase.id in s.db.commands
  {
    var c := s.db.commands[s.phase.id];
    var (db, ok) := if fault then (s.db, false)
                    else SaveResult(s.db, ResultFor(s.phase.id, c.payload, o), o.uuid, o.executedAt);
    if !ok && c.payload.Json? then s.(phase := Parked(true), clean := false)
    else s.(db := db, phase := Deciding(s.phase.id, s.phase.attempt, Verdict(c, o.exitCode, max)),
            clean := s.clean && ok)
  }

  ghost function Run(s: State, actions: seq<Action>, max: nat): State {
    if actions == [] then s
    else Step(Run(s, actions[..|actions| - 1], max), actions[|actions| - 1], max)
  }

  // ---- Observations ----

  function ClaimsOf(claims: seq<Claimed>, id: string): nat {
    if claims == [] then 0
    else ClaimsOf(claims[..|claims| - 1], id) + (if claims[|claims| - 1].id == id then 1 else 0)
  }

  /** The exit code of a command's last result. */
  function LastExit(results: seq<Result>, id: string): Option<int> {
    if results == [] then None
    else if results[|results| - 1].commandId == id then Some(results[|results| - 1].exitCode)
    else LastExit(results[..|results| - 1], id)
  }

  ghost predicate Succeeded(results: seq<Result>, id: string) {
    exists i | 0 <= i < |results| :: results[i].commandId == id && results[i].exitCode == 0
  }

  // ---- The invariant ----

  ghost predicate RowOk(s: State, max: nat, id: string)
    requires id in s.db.commands
  {
    var c := s.db.commands[id];
    && c.attempts <= max
    && ClaimsOf(s.claims, id) == c.attempts
    && ResultsOf(s.db.results, id) <= c.attempts
    && (c.status.Pending? ==> c.attempts < max)
    && (c.status.Completed? ==> Succeeded(s.db.results, id))
    && (c.status.Failed? ==> c.attempts == max || c.payload.Malformed?)
  }

  ghost predicate RowsOk(s: State, max: nat) {
    && (forall id | id in s.db.commands :: RowOk(s, max, id))
    && (forall id | id !in s.db.commands :: ClaimsOf(s.claims, id) == 0 && ResultsOf(s.db.results, id) == 0)
  }

  ghost predicate PhaseOk(s: State, max: nat) {
    match s.phase
    case Holding(id, n) =>
      && id in s.db.commands && s.db.commands[id].status.Executing? && s.db.commands[id].attempts == n
      && ResultsOf(s.db.results, id) < n
    case Deciding(id, n, v) =>
      && id in s.db.commands && s.db.commands[id].status.Executing? && s.db.commands[id].attempts == n
      && !v.Executing?
      && (v.Pending? ==> n < max)
      && (v.Completed? ==> Succeeded(s.db.results, id))
      && (v.Failed? ==> n == max || s.db.commands[id].payload.Malformed?)
    case _ => true
  }

  /** The command the worker has in hand. */
  predicate InHand(s: State, id: string) {
    (s.phase.Holding? || s.phase.Deciding?) && s.phase.id == id
  }

  /** Without crashes and store errors: one result per attempt, and the last one explains the status. */
  ghost predicate CleanRow(s: State, id: string)
    requires id in s.db.commands
  {
    var c := s.db.commands[id];
    && (c.status.Executing? <==> InHand(s, id))
    && ResultsOf(s.db.results, id) == (if s.phase.Holding? && s.phase.id == id then c.attempts - 1 else c.attempts)
    && (c.status.Terminal() ==>
          LastExit(s.db.results, id).Some? && (c.status.Completed? <==> LastExit(s.db.results, id) == Some(0)))
    && (s.phase.Deciding? && s.phase.id == id ==>
          LastExit(s.db.results, id).Some? && (s.phase.verdict.Completed? <==> LastExit(s.db.results, id) == Some(0)))
  }

  ghost predicate CleanOk(s: State) {
    s.clean ==> forall id | id in s.db.commands :: CleanRow(s, id)
  }

  /** A handler has been through the id and not called Wake yet. */
  ghost predicate Announcing(s: State, id: string) {
    exists h | h in s.handlers :: id in s.handlers[h].inserted
  }

  /** The worker ought to know of the id: a Wake has followed its storing, or no Wake is to be expected. */
  ghost predicate Due(s: State, id: string) {
    id in s.announced || (id !in s.local && !Announcing(s, id))
  }

  /** What handlers have stored is in the database. */
  ghost predicate StoredOk(s: State) {
    && s.announced <= s.db.commands.Keys
    && forall h | h in s.handlers :: s.handlers[h].stored <= s.db.commands.Keys
  }

  ghost predicate WakeOk(s: State, max: nat) {
    && StoredOk(s)
    && (s.phase == Parked(false) ==> forall id | Claimable(s.db, max, id) && Due(s, id) :: s.token)
  }

  ghost predicate Inv(s: State, max: nat) {
    RowsOk(s, max) && PhaseOk(s, max) && CleanOk(s) && WakeOk(s, max)
  }

  lemma {:induction false} StartOk(db: Db, max: nat)
    requires Untouched(db) && max >= 1
    ensures Inv(Start(db), max)
  {
  }

  // ---- What each store effect does to the counters ----

  lemma ClaimAppend(claims: seq<Claimed>, c: Claimed)
    ensures forall id :: ClaimsOf(claims + [c], id) == ClaimsOf(claims, id) + (if c.id == id then 1 else 0)
  {
  }

  lemma ResultAppend(results: seq<Result>, r: Result)
    ensures forall id :: ResultsOf(results + [r], id) == ResultsOf(results, id) + (if r.commandId == id then 1 else 0)
    ensures forall id :: LastExit(results + [r], id) ==
                if r.commandId == id then Some(r.exitCode) else LastExit(results, id)
    ensures forall id | Succeeded(results, id) || (r.commandId == id && r.exitCode == 0) :: Succeeded(results + [r], id)
  {
  }

  lemma {:induction false} AckKeepsCounts(results: seq<Result>, c: string, id: string)
    ensures ResultsOf(MarkSynced(results, c), id) == ResultsOf(results, id)
    ensures LastExit(MarkSynced(results, c), id) == LastExit(results, id)
    ensures Succeeded(results, id) ==> Succeeded(MarkSynced(results, c), id)
  {
    var marked := MarkSynced(results, c);
    if Succeeded(results, id) {
      var i :| 0 <= i < |results| && results[i].commandId == id && results[i].exitCode == 0;
      assert marked[i].commandId == id && marked[i].exitCode == 0;
    }
    if results != [] {
      var n := |results| - 1;
      AckKeepsCounts(results[..n], c, id);
      assert marked[..n] == MarkSynced(results[..n], c);
    }
  }

  // ---- Every action keeps the invariant ----

  ghost predicate StoreOk(s: State, max: nat) {
    RowsOk(s, max) && PhaseOk(s, max) && CleanOk(s)
  }

  lemma EnqueueKeeps(s: State, t: State, id: string, p: Payload, now: int, max: nat)
    requires StoreOk(s, max) && max >= 1
    requires t.db == EnqueueWithId(s.db, id, p, now) && t.claims == s.claims && t.phase == s.phase
    requires t.clean ==> s.clean
    ensures StoreOk(t, max)
  {
    forall j | j in t.db.commands ensures RowOk(t, max, j) && (t.clean ==> CleanRow(t, j)) {
      if j in s.db.commands { assert RowOk(s, max, j); }
    }
  }

  lemma ClaimKeeps(s: State, max: nat)
    requires StoreOk(s, max) && s.phase == Draining
    ensures StoreOk(Step(s, ClaimOne(false), max), max)
  {
    var t := Step(s, ClaimOne(false), max);
    var id := ClaimNext(s.db, max).1;
    if id.Some? {
      ClaimAppend(s.claims, t.claims[|s.claims|]);
      assert RowOk(s, max, id.value);
      forall j | j in t.db.commands ensures RowOk(t, max, j) && (t.clean ==> CleanRow(t, j)) {
        assert RowOk(s, max, j);
      }
    }
  }

  lemma SavedKeeps(s: State, o: Attempt, row: Result, t: State, max: nat)
    requires StoreOk(s, max) && s.phase.Holding?
    requires row.commandId == s.phase.id
    requires row.exitCode == (if s.db.commands[s.phase.id].payload.Malformed? then -1 else o.exitCode)
    requires t == s.(db := s.db.(results := s.db.results + [row]),
                     phase := Deciding(s.phase.id, s.phase.attempt,
                                       Verdict(s.db.commands[s.phase.id], o.exitCode, max)))
    ensures StoreOk(t, max)
  {
    var id := s.phase.id;
    assert RowOk(s, max, id);
    ResultAppend(s.db.results, row);
    forall j | j in t.db.commands ensures RowOk(t, max, j) {
      assert RowOk(s, max, j);
    }
    forall j | j in t.db.commands && t.clean ensures CleanRow(t, j) {
      assert CleanRow(s, j);
    }
  }

  lemma SaveKeeps(s: State, o: Attempt, fault: bool, max: nat)
    requires StoreOk(s, max) && s.phase.Holding?
    ensures StoreOk(SaveHeld(s, o, fault, max), max)
  {
    var t := SaveHeld(s, o, fault, max);
    var row := Stored(ResultFor(s.phase.id, s.db.commands[s.phase.id].payload, o), o.uuid, o.executedAt);
    if !fault && SaveResult(s.db, ResultFor(s.phase.id, s.db.commands[s.phase.id].payload, o), o.uuid, o.executedAt).1 {
      SavedKeeps(s, o, row, t, max);
    } else {
      assert t.db == s.db && t.claims == s.claims && !t.clean;
      forall j | j in t.db.commands ensures RowOk(t, max, j) { assert RowOk(s, max, j); }
    }
  }

  lemma FinishKeeps(s: State, fault: bool, max: nat)
    requires StoreOk(s, max) && s.phase.Deciding?
    ensures StoreOk(Step(s, Finish(fault), max), max)
  {
    var t := Step(s, Finish(fault), max);
    forall j | j in t.db.commands ensures RowOk(t, max, j) && (t.clean ==> CleanRow(t, j)) {
      assert RowOk(s, max, j);
      assert s.clean ==> CleanRow(s, j);
    }
  }

  lemma AckKeeps(s: State, t: State, c: string, max: nat)
    requires StoreOk(s, max)
    requires t == s.(db := s.db.(results := MarkSynced(s.db.results, c)))
    ensures StoreOk(t, max)
  {
    forall id ensures ResultsOf(t.db.results, id) == ResultsOf(s.db.results, id)
                      && LastExit(t.db.results, id) == LastExit(s.db.results, id)
                      && (Succeeded(s.db.results, id) ==> Succeeded(t.db.results, id))
    {
      AckKeepsCounts(s.db.results, c, id);
    }
    forall j | j in t.db.commands ensures RowOk(t, max, j) && (t.clean ==> CleanRow(t, j)) {
      assert RowOk(s, max, j);
      assert s.clean ==> CleanRow(s, j);
    }
  }

  lemma RestartKeeps(s: State, fault: bool, max: nat)
    requires StoreOk(s, max) && s.phase.Down?
    ensures StoreOk(Step(s, Restart(fault), max), max)
  {
    var t := Step(s, Restart(fault), max);
    forall j | j in t.db.commands ensures RowOk(t, max, j) && (t.clean ==> CleanRow(t, j)) {
      assert RowOk(s, max, j);
      assert s.clean ==> CleanRow(s, j);
    }
  }

  lemma StepKeepsStore(s: State, a: Action, max: nat)
    requires StoreOk(s, max) && max >= 1
    ensures StoreOk(Step(s, a, max), max)
  {
    var t := Step(s, a, max);
    match a
    case Insert(h, now, fault) =>
      if !fault && h in s.handlers && s.handlers[h].todo != [] {
        var (id, p) := s.handlers[h].todo[0];
        EnqueueKeeps(s, t, id, p, now, max);
      } else {
        SameStore(s, t, max);
      }
    case EnqueueLocally(id, p, now) =>
      EnqueueKeeps(s, t, id, p, now, max);
    case ClaimOne(fault) =>
      if s.phase == Draining && !fault { ClaimKeeps(s, max); } else { SameStore(s, t, max); }
    case SaveOne(o, fault) =>
      if s.phase.Holding? { SaveKeeps(s, o, fault, max); }
    case Finish(fault) =>
      if s.phase.Deciding? { FinishKeeps(s, fault, max); }
    case Acknowledge(c) =>
      if !s.phase.Down? { AckKeeps(s, t, c, max); }
    case Restart(fault) =>
      if s.phase.Down? { RestartKeeps(s, fault, max); }
    case _ =>
      SameStore(s, t, max);
  }

  /** Actions that touch no row: what is in hand may only be dropped by losing cleanness. */
  lemma SameStore(s: State, t: State, max: nat)
    requires StoreOk(s, max)
    requires t.db == s.db && t.claims == s.claims && (t.clean ==> s.clean)
    requires t.phase == s.phase || (!t.phase.Holding? && !t.phase.Deciding?)
    requires t.clean ==> t.phase == s.phase || (!s.phase.Holding? && !s.phase.Deciding?)
    ensures StoreOk(t, max)
  {
  }

  lemma StoredStep(s: State, a: Action, max: nat)
    requires StoredOk(s)
    ensures StoredOk(Step(s, a, max))
  {
    var t := Step(s, a, max);
    CommandsStay(s, a, max);
    match a
    case Insert(h, now, fault) =>
      if h in s.handlers && s.handlers[h].todo != [] && !fault {
        assert s.handlers[h].todo[0].0 in t.db.commands;
      }
    case _ =>
  }

  lemma CommandsStay(s: State, a: Action, max: nat)
    ensures s.db.commands.Keys <= Step(s, a, max).db.commands.Keys
  {
  }

  lemma AnnouncingStep(s: State, a: Action, max: nat, id: string)
    requires !a.Crash? && !a.Signal?
    ensures Announcing(Step(s, a, max), id) <==> Announcing(s, id) || (a.Insert? && Meets(s, a.h, id))
    ensures Step(s, a, max).announced == s.announced && s.local <= Step(s, a, max).local
  {
    var t := Step(s, a, max);
    if Announcing(s, id) {
      var h :| h in s.handlers && id in s.handlers[h].inserted;
      assert h in t.handlers && id in t.handlers[h].inserted;
    }
    if a.Insert? && Meets(s, a.h, id) {
      assert a.h in t.handlers && id in t.handlers[a.h].inserted;
    }
  }

  /** The handler is about to enqueue the id. */
  predicate Meets(s: State, h: nat, id: string) {
    h in s.handlers && s.handlers[h].todo != [] && s.handlers[h].todo[0].0 == id
  }

  /** A parked worker's claimable set grows only by ids that are new to the database. */
  lemma ClaimableStep(s: State, a: Action, max: nat, id: string)
    requires s.phase.Parked? && Claimable(Step(s, a, max).db, max, id)
    ensures || Claimable(s.db, max, id)
            || (id !in s.db.commands && ((a.Insert? && Meets(s, a.h, id)) || (a.EnqueueLocally? && a.id == id)))
  {
  }

  /** Nobody but the worker makes an existing row claimable, and it does so before draining again. */
  lemma StepKeepsWake(s: State, a: Action, max: nat)
    requires WakeOk(s, max)
    ensures WakeOk(Step(s, a, max), max)
  {
    var t := Step(s, a, max);
    StoredStep(s, a, max);
    if t.phase == Parked(false) && s.phase == Parked(false) && !t.token {
      forall id | Claimable(t.db, max, id) ensures !Due(t, id) {
        ClaimableStep(s, a, max, id);
        if !a.Signal? { AnnouncingStep(s, a, max, id); }
      }
    }
  }

  lemma {:induction false} RunInv(s: State, actions: seq<Action>, max: nat)
    requires Inv(s, max) && max >= 1
    ensures Inv(Run(s, actions, max), max)
  {
    if actions != [] {
      var n := |actions| - 1;
      RunInv(s, actions[..n], max);
      StepKeepsStore(Run(s, actions[..n], max), actions[n], max);
      StepKeepsWake(Run(s, actions[..n], max), actions[n], max);
    }
  }

  // ---- Theorems over every run ----

  /** At most max claims of any command over a whole run, whatever is lost, replayed or interrupted. */
  lemma AtMostMaxClaims(db: Db, actions: seq<Action>, max: nat, s: State, id: string)
    requires Untouched(db) && max >= 1 && s == Run(Start(db), actions, max)
    ensures ClaimsOf(s.claims, id) <= max
  {
    StartOk(db, max);
    RunInv(Start(db), actions, max);
    if id in s.db.commands { assert RowOk(s, max, id); }
  }

  /** Attempts are numbered: no (command, attempt) pair is ever claimed twice. */
  ghost predicate Numbered(s: State) {
    && (forall i | 0 <= i < |s.claims| ::
          s.claims[i].id in s.db.commands && 1 <= s.claims[i].attempt <= s.db.commands[s.claims[i].id].attempts)
    && (forall i, j | 0 <= i < j < |s.claims| :: s.claims[i] != s.claims[j])
  }

  lemma {:induction false} ClaimsAreNumbered(s: State, actions: seq<Action>, max: nat)
    requires Numbered(s)
    ensures Numbered(Run(s, actions, max))
  {
    if actions != [] {
      var n := |actions| - 1;
      ClaimsAreNumbered(s, actions[..n], max);
      NumberedStep(Run(s, actions[..n], max), actions[n], max);
    }
  }

  /** A row is never removed, its payload and creation time never change, its attempts never go down. */
  lemma StepKeepsRow(s: State, a: Action, max: nat, id: string)
    requires id in s.db.commands
    ensures var t := Step(s, a, max);
            && id in t.db.commands
            && t.db.commands[id].payload == s.db.commands[id].payload
            && t.db.commands[id].createdAt == s.db.commands[id].createdAt
            && t.db.commands[id].attempts >= s.db.commands[id].attempts
  {
  }

  lemma NumberedStep(s: State, a: Action, max: nat)
    requires Numbered(s)
    ensures Numbered(Step(s, a, max))
  {
    var t := Step(s, a, max);
    forall i | 0 <= i < |s.claims| ensures t.claims[i].id in t.db.commands
                                        && 1 <= t.claims[i].attempt <= t.db.commands[t.claims[i].id].attempts {
      StepKeepsRow(s, a, max, s.claims[i].id);
    }
  }

  lemma TerminalStep(s: State, a: Action, max: nat, id: string)
    requires PhaseOk(s, max)
    requires id in s.db.commands && s.db.commands[id].status.Terminal()
    ensures var t := Step(s, a, max);
            && id in t.db.commands && t.db.commands[id] == s.db.commands[id]
            && ClaimsOf(t.claims, id) == ClaimsOf(s.claims, id)
  {
    if a.ClaimOne? && s.phase == Draining && !a.fault {
      var (db, next) := ClaimNext(s.db, max);
      if next.Some? {
        ClaimAppend(s.claims, Claimed(next.value, db.commands[next.value].attempts));
      }
    }
  }

  /** Once COMPLETED or FAILED, a command's row is final and it is never claimed again. */
  lemma {:induction false} TerminalForever(s: State, actions: seq<Action>, max: nat, id: string)
    requires Inv(s, max) && max >= 1
    requires id in s.db.commands && s.db.commands[id].status.Terminal()
    ensures var t := Run(s, actions, max);
            && id in t.db.commands && t.db.commands[id] == s.db.commands[id]
            && ClaimsOf(t.claims, id) == ClaimsOf(s.claims, id)
  {
    if actions != [] {
      var n := |actions| - 1;
      TerminalForever(s, actions[..n], max, id);
      RunInv(s, actions[..n], max);
      TerminalStep(Run(s, actions[..n], max), actions[n], max, id);
    }
  }

  /** What holds of every command in every reachable state. */
  lemma ReachableRows(db: Db, actions: seq<Action>, max: nat, s: State, id: string)
    requires Untouched(db) && max >= 1 && s == Run(Start(db), actions, max)
    requires id in s.db.commands
    ensures var c := s.db.commands[id];
            && (c.status.Pending? ==> c.attempts < max)
            && ResultsOf(s.db.results, id) <= c.attempts <= max
            && (c.status.Completed? ==> Succeeded(s.db.results, id))
            && (c.status.Failed? ==> c.attempts == max || c.payload.Malformed?)
            && (s.clean && !c.status.Executing? ==> ResultsOf(s.db.results, id) == c.attempts)
            && (s.clean && c.status.Terminal() ==> (c.status.Completed? <==> LastExit(s.db.results, id) == Some(0)))
  {
    StartOk(db, max);
    RunInv(Start(db), actions, max);
    assert RowOk(s, max, id);
    assert s.clean ==> CleanRow(s, id);
  }

  /**
   No lost wake-up: a worker in its select, after a drain no store error cut short, has a token
   waiting whenever a command is claimable that some handler has stored before it called Wake, be
   it dispatched again meanwhile or not. The same holds of any other command, unless the command
   line enqueued it or a handler that has not called Wake yet has it.
   */
  lemma NoLostWakeUp(db: Db, actions: seq<Action>, max: nat, s: State, id: string)
    requires Untouched(db) && max >= 1 && s == Run(Start(db), actions, max)
    requires s.phase == Parked(false) && Claimable(s.db, max, id)
    requires id in s.announced || (id !in s.local && !Announcing(s, id))
    ensures s.token
  {
    StartOk(db, max);
    RunInv(Start(db), actions, max);
    assert Due(s, id);
  }

  /** A claim that fails with a store error does park the worker on announced work without a token. */
  lemma StoreErrorLosesWakeUp(id: string, p: Payload)
    ensures var s1 := Step(Start(Db(map[], [])), Restart(false), 3);
            var s2 := Step(s1, Receive(0, [(id, p)]), 3);
            var s3 := Step(s2, Insert(0, 7, false), 3);
            var s4 := Step(s3, Signal(0), 3);
            var s5 := Step(s4, ClaimOne(true), 3);
            var s6 := Step(s5, TakeToken, 3);
            var s7 := Step(s6, ClaimOne(true), 3);
            && s7.phase == Parked(true) && !s7.token
            && Claimable(s7.db, 3, id) && id !in s7.local && !Announcing(s7, id)
  {
    var s1 := Step(Start(Db(map[], [])), Restart(false), 3);
    assert s1.db.commands == map[] && s1.phase == Draining;
    var s3 := Step(Step(s1, Receive(0, [(id, p)]), 3), Insert(0, 7, false), 3);
    assert [(id, p)][1..] == [];
    assert s3.handlers.Keys == {0} && s3.handlers[0].todo == [];
    assert Step(s3, Signal(0), 3).handlers == map[];
  }

  /** In the select, no token, and a claimable command the worker ought to know of. */
  ghost predicate WakeLost(s: State, max: nat, id: string) {
    s.phase.Parked? && !s.token && Claimable(s.db, max, id) && Due(s, id)
  }

  /** The store errors that end a drain: a failed claim, or an unsaved result of a decodable command. */
  ghost predicate StoreErrorEndsDrain(s: State, a: Action, max: nat) {
    || (s.phase == Draining && a == ClaimOne(true))
    || (s.phase.Holding? && s.phase.id in s.db.commands && s.db.commands[s.phase.id].payload.Json? && a.SaveOne?
        && (a.fault || !SaveResult(s.db, ResultFor(s.phase.id, s.db.commands[s.phase.id].payload, a.outcome),
                                   a.outcome.uuid, a.outcome.executedAt).1))
  }

  /** What gets a worker going again: the poll, a crash, a Wake, or a handler that will call it. */
  predicate Revives(s: State, a: Action, id: string) {
    match a
    case Tick => true
    case Crash => true
    case Signal(h) => h in s.handlers && s.handlers[h].todo == []
    case Insert(h, _, _) => Meets(s, h, id) && id !in s.announced
    case _ => false
  }

  /** The error leaves the worker with work it is not going to hear of. */
  ghost predicate LosesWakeUp(s: State, a: Action, max: nat, id: string) {
    StoreErrorEndsDrain(s, a, max) && !s.token && Claimable(s.db, max, id) && Due(s, id)
  }

  /** In any state whose handlers are consistent, exactly which steps lose a wake-up, and which keep it lost. */
  lemma WakeLostIff(s: State, a: Action, max: nat, id: string)
    requires StoredOk(s)
    ensures WakeLost(Step(s, a, max), max, id)
       <==> LosesWakeUp(s, a, max, id) || (WakeLost(s, max, id) && !Revives(s, a, id))
  {
    match a
    case Crash =>
    case Signal(h) =>
    case _ => AnnouncingStep(s, a, max, id);
  }

  lemma {:induction false} RunStored(s: State, actions: seq<Action>, max: nat)
    requires StoredOk(s)
    ensures StoredOk(Run(s, actions, max))
  {
    if actions != [] {
      var n := |actions| - 1;
      RunStored(s, actions[..n], max);
      StoredStep(Run(s, actions[..n], max), actions[n], max);
    }
  }

  /** So in every run a wake-up that is lost at the end was lost by such an error, and not revived since. */
  lemma {:induction false} WakeLostByError(s: State, actions: seq<Action>, max: nat, id: string) returns (k: nat)
    requires StoredOk(s) && !WakeLost(s, max, id) && WakeLost(Run(s, actions, max), max, id)
    ensures k < |actions| && LosesWakeUp(Run(s, actions[..k], max), actions[k], max, id)
    ensures forall j | k < j < |actions| :: !Revives(Run(s, actions[..j], max), actions[j], id)
  {
    k := |actions| - 1;
    var before := Run(s, actions[..k], max);
    RunStored(s, actions[..k], max);
    WakeLostIff(before, actions[k], max, id);
    if !LosesWakeUp(before, actions[k], max, id) {
      var n := k;
      k := WakeLostByError(s, actions[..n], max, id);
      assert actions[..n][..k] == actions[..k];
      forall j | k < j < |actions| ensures !Revives(Run(s, actions[..j], max), actions[j], id) {
        if j < n { assert actions[..n][..j] == actions[..j]; }
      }
    }
  }

  /** A poll, or a token, does it: a parked worker that takes it goes on to claim the oldest command there is. */
  lemma WokenClaims(s: State, a: Action, max: nat, id: string)
    requires s.phase.Parked? && (a == Tick || (a == TakeToken && s.token)) && Claimable(s.db, max, id)
    ensures var t := Step(Step(s, a, max), ClaimOne(false), max);
            var next := ClaimNext(s.db, max).1;
            && next.Some? && t.phase == Holding(next.value, s.db.commands[next.value].attempts + 1)
            && (a == TakeToken ==> !t.token)
  {
  }

  /** A crash leaves nothing but the database: two agents with the same one go on alike, histories apart. */
  lemma CrashForgets(s: State, t: State, max: nat)
    requires s.db == t.db
    ensures Step(t, Crash, max).(claims := s.claims, local := s.local, announced := s.announced) == Step(s, Crash, max)
    ensures Step(s, Crash, max).db == s.db && Step(s, Crash, max).phase == Down
  {
  }

  /**
   A crash between saving a successful result of the last attempt and completing the command: the
   restart marks it FAILED although its last result has exit code 0.
   */
  lemma CrashFailsASuccess(id: string, command: string, o: Attempt)
    requires o.exitCode == 0
    ensures var s1 := Step(Start(Db(map[id := Command(Json(command, 0), Pending, 5, 0)], [])), Restart(false), 1);
            var s2 := Step(s1, ClaimOne(false), 1);
            var s3 := Step(s2, SaveOne(o, false), 1);
            var s5 := Step(Step(s3, Crash, 1), Restart(false), 1);
            id in s5.db.commands && s5.db.commands[id].status.Failed? && LastExit(s5.db.results, id) == Some(0)
  {
    var db := Db(map[id := Command(Json(command, 0), Pending, 5, 0)], []);
    var s1 := Step(Start(db), Restart(false), 1);
    assert s1.db.commands == db.commands;
    assert Claimable(s1.db, 1, id);
    var s2 := Step(s1, ClaimOne(false), 1);
    assert s2.phase == Holding(id, 1) && s2.db.results == [];
  }

  /** FAILED although the last result has exit code 0. */
  predicate Disowned(s: State, id: string) {
    id in s.db.commands && s.db.commands[id].status.Failed? && LastExit(s.db.results, id) == Some(0)
  }

  /**
   A row about to fail, or one that cannot be decoded, has no success as its last result; a
   COMPLETED row, or one about to be, has.
   */
  ghost predicate VerdictOk(s: State) {
    && (s.phase.Deciding? && s.phase.verdict.Completed? ==> LastExit(s.db.results, s.phase.id) == Some(0))
    && (forall id | id in s.db.commands && s.db.commands[id].status.Completed? :: LastExit(s.db.results, id) == Some(0))
    && (s.phase.Deciding? && s.phase.verdict.Failed? ==> LastExit(s.db.results, s.phase.id) != Some(0))
    && (forall id | id in s.db.commands && s.db.commands[id].payload.Malformed? ::
          LastExit(s.db.results, id) != Some(0))
  }

  lemma {:induction false} NoResultNoExit(results: seq<Result>, id: string)
    requires ResultsOf(results, id) == 0
    ensures LastExit(results, id) == None
  {
    if results != [] { NoResultNoExit(results[..|results| - 1], id); }
  }

  /** Only saving the result in hand changes a command's last exit code. */
  lemma LastExitStep(s: State, a: Action, max: nat, id: string)
    ensures var t := Step(s, a, max);
            || LastExit(t.db.results, id) == LastExit(s.db.results, id)
            || (a.SaveOne? && s.phase.Holding? && s.phase.id == id && id in s.db.commands
                && LastExit(t.db.results, id)
                   == Some(if s.db.commands[id].payload.Malformed? then -1 else a.outcome.exitCode))
  {
    match a
    case Acknowledge(c) => AckKeepsCounts(s.db.results, c, id);
    case SaveOne(o, _) =>
      if s.phase.Holding? && s.phase.id in s.db.commands {
        ResultAppend(s.db.results,
                     Stored(ResultFor(s.phase.id, s.db.commands[s.phase.id].payload, o), o.uuid, o.executedAt));
      }
    case _ =>
  }

  lemma VerdictStep(s: State, a: Action, max: nat)
    requires StoreOk(s, max) && VerdictOk(s)
    ensures VerdictOk(Step(s, a, max))
  {
    var t := Step(s, a, max);
    forall id | id in t.db.commands && t.db.commands[id].payload.Malformed?
      ensures LastExit(t.db.results, id) != Some(0) {
      LastExitStep(s, a, max, id);
      if id in s.db.commands { StepKeepsRow(s, a, max, id); } else { NoResultNoExit(s.db.results, id); }
    }
    forall id | id in t.db.commands && t.db.commands[id].status.Completed?
      ensures LastExit(t.db.results, id) == Some(0) {
      CompletedStep(s, a, max, id);
      LastExitStep(s, a, max, id);
    }
    DecidingStep(s, a, max);
  }

  /** A row is COMPLETED if it was, or by the worker's verdict. */
  lemma CompletedStep(s: State, a: Action, max: nat, id: string)
    requires id in Step(s, a, max).db.commands && Step(s, a, max).db.commands[id].status.Completed?
    ensures || (id in s.db.commands && s.db.commands[id].status.Completed?)
            || (s.phase.Deciding? && s.phase.id == id && s.phase.verdict.Completed? && a == Finish(false))
  {
  }

  /** The verdict in hand fits the last result. */
  lemma DecidingStep(s: State, a: Action, max: nat)
    requires StoreOk(s, max) && VerdictOk(s)
    ensures var t := Step(s, a, max);
            t.phase.Deciding? ==>
              && (t.phase.verdict.Failed? ==> LastExit(t.db.results, t.phase.id) != Some(0))
              && (t.phase.verdict.Completed? ==> LastExit(t.db.results, t.phase.id) == Some(0))
  {
    var t := Step(s, a, max);
    if t.phase.Deciding? {
      if a.SaveOne? && s.phase.Holding? {
        SavedVerdict(s, a.outcome, a.fault, max);
      } else {
        DecidingStays(s, a, max);
        LastExitStep(s, a, max, t.phase.id);
      }
    }
  }

  lemma DecidingStays(s: State, a: Action, max: nat)
    requires Step(s, a, max).phase.Deciding? && !(a.SaveOne? && s.phase.Holding?)
    ensures s.phase == Step(s, a, max).phase
  {
  }

  lemma SavedVerdict(s: State, o: Attempt, fault: bool, max: nat)
    requires StoreOk(s, max) && VerdictOk(s) && s.phase.Holding?
    ensures var t := SaveHeld(s, o, fault, max);
            t.phase.Deciding? ==>
              && (t.phase.verdict.Failed? ==> LastExit(t.db.results, t.phase.id) != Some(0))
              && (t.phase.verdict.Completed? ==> LastExit(t.db.results, t.phase.id) == Some(0))
  {
  }

  lemma {:induction false} RunVerdict(s: State, actions: seq<Action>, max: nat)
    requires Inv(s, max) && VerdictOk(s) && max >= 1
    ensures VerdictOk(Run(s, actions, max))
  {
    if actions != [] {
      var n := |actions| - 1;
      RunVerdict(s, actions[..n], max);
      RunInv(s, actions[..n], max);
      VerdictStep(Run(s, actions[..n], max), actions[n], max);
    }
  }

  predicate RecoversAtCap(s: State, a: Action, max: nat, id: string) {
    && s.phase.Down? && a == Restart(false) && id in s.db.commands
    && s.db.commands[id].status.Executing? && s.db.commands[id].attempts >= max
  }

  /** An unfinished row becomes FAILED by the worker's verdict or by recovery at the cap. */
  lemma FailedStep(s: State, a: Action, max: nat, id: string)
    requires id in s.db.commands && !s.db.commands[id].status.Terminal()
    ensures var t := Step(s, a, max);
            && id in t.db.commands
            && (t.db.commands[id].status.Failed? ==>
                  || (s.phase.Deciding? && s.phase.id == id && s.phase.verdict.Failed? && a == Finish(false))
                  || RecoversAtCap(s, a, max, id))
            && (RecoversAtCap(s, a, max, id) ==> t.db.commands[id].status.Failed?)
  {
  }

  lemma DisownedStep(s: State, a: Action, max: nat, id: string)
    requires StoreOk(s, max) && VerdictOk(s)
    ensures Disowned(Step(s, a, max), id)
       <==> Disowned(s, id) || (RecoversAtCap(s, a, max, id) && LastExit(s.db.results, id) == Some(0))
  {
    LastExitStep(s, a, max, id);
    if id !in s.db.commands {
      NoResultNoExit(s.db.results, id);
    } else if s.db.commands[id].status.Terminal() {
      TerminalStep(s, a, max, id);
    } else {
      FailedStep(s, a, max, id);
    }
  }

  /**
   Exactly when a success is turned into FAILED: the agent is restarted while the row is still
   EXECUTING at the cap with that success as its last result. No other step does it, none undoes it.
   */
  lemma DisownedIff(db: Db, actions: seq<Action>, max: nat, s: State, a: Action, id: string)
    requires Untouched(db) && max >= 1 && s == Run(Start(db), actions, max)
    ensures Disowned(Step(s, a, max), id)
       <==> Disowned(s, id) || (RecoversAtCap(s, a, max, id) && LastExit(s.db.results, id) == Some(0))
  {
    StartOk(db, max);
    RunInv(Start(db), actions, max);
    RunVerdict(Start(db), actions, max);
    DisownedStep(s, a, max, id);
  }

  lemma SyncedStep(s: State, a: Action, max: nat, i: nat)
    requires i < |s.db.results|
    ensures var t := Step(s, a, max);
            && i < |t.db.results|
            && t.db.results[i] == s.db.results[i].(synced := t.db.results[i].synced)
            && (s.db.results[i].synced ==> t.db.results[i].synced)
  {
  }

  /** The step saved this row: for a decodable command, what the execution in hand produced. */
  ghost predicate Wrote(s: State, a: Action, row: Result) {
    && a.SaveOne? && !a.fault && s.phase.Holding? && s.phase.id in s.db.commands
    && row.commandId == s.phase.id && row.resultId == a.outcome.uuid && row.executedAt == a.outcome.executedAt
    && (if s.db.commands[s.phase.id].payload.Json?
        then row.stdout == a.outcome.stdout && row.stderr == a.outcome.stderr && row.exitCode == a.outcome.exitCode
        else row.stdout == "" && "invalid payload: " <= row.stderr && row.exitCode == -1)
  }

  lemma WroteStep(s: State, a: Action, max: nat)
    ensures var n, rows := |s.db.results|, Step(s, a, max).db.results;
            |rows| == n || (|rows| == n + 1 && Wrote(s, a, rows[n]))
  {
  }

  /** In every run each saved result was written by one execution step and carries what that one produced. */
  lemma {:induction false} ResultsAreOutcomes(s: State, actions: seq<Action>, max: nat, i: nat) returns (n: nat)
    requires |s.db.results| <= i < |Run(s, actions, max).db.results|
    ensures n < |actions| && |Run(s, actions[..n], max).db.results| == i
    ensures Wrote(Run(s, actions[..n], max), actions[n], Run(s, actions, max).db.results[i])
  {
    n := |actions| - 1;
    var before := Run(s, actions[..n], max);
    WroteStep(before, actions[n], max);
    if i < |before.db.results| {
      SyncedStep(before, actions[n], max, i);
      var k := ResultsAreOutcomes(s, actions[..n], max, i);
      assert actions[..n][..k] == actions[..k];
      n := k;
    }
  }

  /** A saved result stays where it is; only Synced changes, and never back. */
  lemma {:induction false} SyncedForever(s: State, actions: seq<Action>, max: nat, i: nat)
    requires i < |s.db.results|
    ensures var t := Run(s, actions, max);
            && i < |t.db.results|
            && t.db.results[i] == s.db.results[i].(synced := t.db.results[i].synced)
            && (s.db.results[i].synced ==> t.db.results[i].synced)
  {
    if actions != [] {
      var n := |actions| - 1;
      SyncedForever(s, actions[..n], max, i);
      SyncedStep(Run(s, actions[..n], max), actions[n], max, i);
    }
  }

  /**
   Whatever happened before, crashes included: a restart with `run --drain` finishes every
   command, within the attempts the unfinished ones had left.
   */
  lemma RestartAndDrainFinishes(db: Db, actions: seq<Action>, max: nat, s: State, exec: Executor)
    requires Untouched(db) && max >= 1 && s == Run(Start(db), actions, max)
    ensures var done := DrainedCommands(RecoverStale(s.db, max), max, exec);
            done.Keys == s.db.commands.Keys && forall id | id in done :: done[id].status.Terminal()
    ensures |DrainTrace(RecoverStale(s.db, max), max, exec)| <= Remaining(s.db.commands, max)
  {
    StartOk(db, max);
    RunInv(Start(db), actions, max);
    forall id | id in s.db.commands ensures !(s.db.commands[id].status.Pending? && s.db.commands[id].attempts >= max) {
      assert RowOk(s, max, id);
    }
    DrainedTerminal(s.db, max, exec);
    TraceWithinBudget(RecoverStale(s.db, max), max, exec);
    RemainingSame(s.db.commands, RecoverStale(s.db, max).commands, max);
  }

  /** Taken together, claim, save and finish with nothing in between are one RunOnce. */
  lemma StepsAreRunOnce(s: State, exec: Executor, f: Faults, max: nat)
    requires s.phase == Draining
    ensures var id := ClaimNext(s.db, max).1;
            var s1 := Step(s, ClaimOne(f.claim), max);
            var o := if id.None? then exec("", 0) else exec(id.value, s.db.commands[id.value].attempts + 1);
            var s2 := Step(s1, SaveOne(o, f.save), max);
            var s3 := Step(s2, Finish(f.finish), max);
            var (db, didWork, err) := OnceEffect(s.db, max, exec, f);
            && s3.db == db
            && (s3.phase == Draining <==> didWork && !err)
            && (s3.phase.Parked? ==> s3.phase.onError == err)
  {
  }
}
