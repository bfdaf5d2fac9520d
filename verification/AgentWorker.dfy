/**
 The worker: claim, execute, save, then complete, requeue or fail.

 The executor is an arbitrary function from (command, attempt number) to what that attempt
 produced; the attempt also carries the clock reading and the generated result id.
 */
module AgentWorker {
  import opened Ordering
  import opened AgentDb
  import opened AgentStore

  datatype Attempt = Attempt(exitCode: int, stdout: string, stderr: string, executedAt: int, uuid: string)

  type Executor = (string, nat) -> Attempt

  /** Store calls that fail with an I/O error and leave the database as it was. */
  datatype Faults = Faults(claim: bool, save: bool, finish: bool)

  const NO_FAULTS := Faults(false, false, false)

  datatype Claimed = Claimed(id: string, attempt: nat)

  /** The status a claimed row gets after its attempt. */
  function Verdict(c: Command, exitCode: int, maxAttempts: nat): Status {
    if c.payload.Malformed? then Failed
    else if exitCode == 0 then Completed
    else if c.attempts < maxAttempts then Pending
    else Failed
  }

  /** The result of an attempt as the worker hands it on, with no result id yet. */
  function ResultFor(id: string, payload: Payload, a: Attempt): Result {
    if payload.Malformed? then Result("", id, "", "invalid payload: " + a.stderr, -1, a.executedAt, false)
    else Result("", id, a.stdout, a.stderr, a.exitCode, a.executedAt, false)
  }

  /** The row that ends up in the result table. */
  function SavedRow(id: string, payload: Payload, a: Attempt): Result {
    ResultFor(id, payload, a).(resultId := a.uuid)
  }

  /** The row holds, column by column, what the attempt produced. */
  predicate Carries(row: Result, id: string, o: Attempt) {
    && row.commandId == id && row.resultId == o.uuid && !row.synced
    && row.stdout == o.stdout && row.stderr == o.stderr && row.exitCode == o.exitCode && row.executedAt == o.executedAt
  }

  /** The row a payload that cannot be decoded gets instead. */
  predicate Complains(row: Result, id: string, o: Attempt) {
    && row.commandId == id && row.resultId == o.uuid && !row.synced
    && row.stdout == "" && "invalid payload: " <= row.stderr && row.exitCode == -1 && row.executedAt == o.executedAt
  }

  /** Generated ids never repeat. */
  ghost predicate FreshIds(db: Db, exec: Executor) {
    && (forall id, n {:trigger exec(id, n)} :: !HasResultId(db, exec(id, n).uuid))
    && (forall id, n, id', n' {:trigger exec(id, n), exec(id', n')} ::
          exec(id, n).uuid == exec(id', n').uuid ==> id == id' && n == n')
  }

  // ---- The reference program ----

  /** One command on its own: attempt it until exit 0, an undecodable payload or the cap. */
  function Block(id: string, c: Command, maxAttempts: nat, exec: Executor): seq<Claimed>
    decreases maxAttempts - c.attempts
  {
    if c.attempts >= maxAttempts then [] else
      var n := c.attempts + 1;
      if c.payload.Malformed? || exec(id, n).exitCode == 0 then [Claimed(id, n)]
      else [Claimed(id, n)] + Block(id, c.(attempts := n), maxAttempts, exec)
  }

  /** The row the block leaves behind. */
  function Settled(id: string, c: Command, maxAttempts: nat, exec: Executor): Command
    decreases maxAttempts - c.attempts
  {
    if c.attempts >= maxAttempts then c.(status := Failed) else
      var n := c.attempts + 1;
      if c.payload.Malformed? then c.(status := Failed, attempts := n)
      else if exec(id, n).exitCode == 0 then c.(status := Completed, attempts := n)
      else Settled(id, c.(attempts := n), maxAttempts, exec)
  }

  /** The blocks of the given rows, one after the other. */
  ghost function Blocks(keys: seq<Key>, db: Db, maxAttempts: nat, exec: Executor): seq<Claimed>
    requires forall k | k in keys :: k.id in db.commands
  {
    if keys == [] then []
    else Block(keys[0].id, db.commands[keys[0].id], maxAttempts, exec) + Blocks(keys[1..], db, maxAttempts, exec)
  }

  /** For each claimable command in (CreatedAt, CommandId) order: its block. */
  ghost function DrainTrace(db: Db, maxAttempts: nat, exec: Executor): seq<Claimed> {
    SortedLists(ClaimableKeys(db, maxAttempts));
    assert forall k | k in Sorted(ClaimableKeys(db, maxAttempts)) :: k in ClaimableKeys(db, maxAttempts);
    Blocks(Sorted(ClaimableKeys(db, maxAttempts)), db, maxAttempts, exec)
  }

  function SettledRow(db: Db, id: string, maxAttempts: nat, exec: Executor): Command
    requires id in db.commands
  {
    if Claimable(db, maxAttempts, id) then Settled(id, db.commands[id], maxAttempts, exec) else db.commands[id]
  }

  function DrainedCommands(db: Db, maxAttempts: nat, exec: Executor): map<string, Command> {
    map id | id in db.commands :: SettledRow(db, id, maxAttempts, exec)
  }

  function SavedRows(claims: seq<Claimed>, commands: map<string, Command>, exec: Executor): seq<Result>
    requires forall i | 0 <= i < |claims| :: claims[i].id in commands
  {
    seq(|claims|, i requires 0 <= i < |claims| =>
      SavedRow(claims[i].id, commands[claims[i].id].payload, exec(claims[i].id, claims[i].attempt)))
  }

  lemma {:induction false} BlocksFrame(keys: seq<Key>, a: Db, b: Db, maxAttempts: nat, exec: Executor)
    requires forall k | k in keys :: k.id in a.commands && k.id in b.commands && a.commands[k.id] == b.commands[k.id]
    ensures Blocks(keys, a, maxAttempts, exec) == Blocks(keys, b, maxAttempts, exec)
  {
    if keys != [] { BlocksFrame(keys[1..], a, b, maxAttempts, exec); }
  }

  lemma {:induction false} SettledTerminal(id: string, c: Command, maxAttempts: nat, exec: Executor)
    ensures Settled(id, c, maxAttempts, exec).status.Terminal()
    decreases maxAttempts - c.attempts
  {
    if c.attempts < maxAttempts && c.payload.Json? && exec(id, c.attempts + 1).exitCode != 0 {
      SettledTerminal(id, c.(attempts := c.attempts + 1), maxAttempts, exec);
    }
  }

  /** The rows after one faultless attempt of `id`. */
  function AfterAttempt(db: Db, id: string, maxAttempts: nat, exec: Executor): map<string, Command>
    requires id in db.commands
  {
    var c := db.commands[id].(attempts := db.commands[id].attempts + 1);
    db.commands[id := c.(status := Verdict(c, exec(id, c.attempts).exitCode, maxAttempts))]
  }

  /**
   Why blocks are contiguous: a requeued row keeps its CreatedAt, so it is still the oldest; a
   finished row leaves the claimable set and changes no other row's place.
   */
  lemma AttemptKeys(db: Db, k: Key, maxAttempts: nat, exec: Executor, next: Db)
    requires IsLeast(k, ClaimableKeys(db, maxAttempts))
    requires k.id in db.commands
    requires next.commands == AfterAttempt(db, k.id, maxAttempts, exec)
    ensures ClaimableKeys(next, maxAttempts)
         == if next.commands[k.id].status.Pending? then ClaimableKeys(db, maxAttempts)
            else ClaimableKeys(db, maxAttempts) - {k}
  {
    var keys, keys' := ClaimableKeys(db, maxAttempts), ClaimableKeys(next, maxAttempts);
    ClaimableKeyIff(db, maxAttempts, k);
    forall j ensures j in keys' <==> if next.commands[k.id].status.Pending? then j in keys else j in keys - {k} {
      ClaimableKeyIff(db, maxAttempts, j);
      ClaimableKeyIff(next, maxAttempts, j);
    }
  }

  /** The attempts that follow the next one. */
  function Retries(id: string, c: Command, maxAttempts: nat, exec: Executor): seq<Claimed> {
    var c' := c.(attempts := c.attempts + 1);
    if Verdict(c', exec(id, c'.attempts).exitCode, maxAttempts).Pending? then Block(id, c', maxAttempts, exec) else []
  }

  lemma BlockStep(id: string, c: Command, maxAttempts: nat, exec: Executor)
    requires c.status.Pending? && c.attempts < maxAttempts
    ensures Block(id, c, maxAttempts, exec) == [Claimed(id, c.attempts + 1)] + Retries(id, c, maxAttempts, exec)
  {
  }

  lemma TraceCons(db: Db, k: Key, maxAttempts: nat, exec: Executor)
    requires IsLeast(k, ClaimableKeys(db, maxAttempts))
    ensures k.id in db.commands
    ensures forall j | j in Sorted(ClaimableKeys(db, maxAttempts) - {k}) :: j.id in db.commands && j.id != k.id
    ensures DrainTrace(db, maxAttempts, exec)
         == Block(k.id, db.commands[k.id], maxAttempts, exec)
          + Blocks(Sorted(ClaimableKeys(db, maxAttempts) - {k}), db, maxAttempts, exec)
  {
    var keys := ClaimableKeys(db, maxAttempts);
    SortedCons(k, keys);
    SortedLists(keys);
    SortedLists(keys - {k});
    assert Sorted(keys)[1..] == Sorted(keys - {k});
    forall j | j in Sorted(keys - {k}) ensures j.id in db.commands && j.id != k.id {
      ClaimableKeyIff(db, maxAttempts, j);
    }
  }

  lemma NextTrace(db: Db, k: Key, maxAttempts: nat, exec: Executor, next: Db)
    requires IsLeast(k, ClaimableKeys(db, maxAttempts)) && Claimable(db, maxAttempts, k.id)
    requires forall j | j in Sorted(ClaimableKeys(db, maxAttempts) - {k}) :: j.id in db.commands && j.id != k.id
    requires next.commands == AfterAttempt(db, k.id, maxAttempts, exec)
    ensures DrainTrace(next, maxAttempts, exec)
         == Retries(k.id, db.commands[k.id], maxAttempts, exec)
          + Blocks(Sorted(ClaimableKeys(db, maxAttempts) - {k}), db, maxAttempts, exec)
  {
    AttemptKeys(db, k, maxAttempts, exec, next);
    BlocksFrame(Sorted(ClaimableKeys(db, maxAttempts) - {k}), db, next, maxAttempts, exec);
    var c' := db.commands[k.id].(attempts := db.commands[k.id].attempts + 1);
    if next.commands[k.id].status.Pending? {
      assert next.commands[k.id] == c';
      TraceCons(next, k, maxAttempts, exec);
    } else {
      assert Retries(k.id, db.commands[k.id], maxAttempts, exec) == [];
    }
  }

  lemma AttemptTrace(db: Db, k: Key, maxAttempts: nat, exec: Executor, next: Db)
    requires IsLeast(k, ClaimableKeys(db, maxAttempts)) && Claimable(db, maxAttempts, k.id)
    requires next.commands == AfterAttempt(db, k.id, maxAttempts, exec)
    ensures DrainTrace(db, maxAttempts, exec)
         == [Claimed(k.id, db.commands[k.id].attempts + 1)] + DrainTrace(next, maxAttempts, exec)
  {
    var c := db.commands[k.id];
    TraceCons(db, k, maxAttempts, exec);
    BlockStep(k.id, c, maxAttempts, exec);
    NextTrace(db, k, maxAttempts, exec, next);
    Associative([Claimed(k.id, c.attempts + 1)], Retries(k.id, c, maxAttempts, exec),
                Blocks(Sorted(ClaimableKeys(db, maxAttempts) - {k}), db, maxAttempts, exec));
  }

  lemma Associative<T>(a: seq<T>, b: seq<T>, c: seq<T>)
    ensures (a + b) + c == a + (b + c)
  {
  }

  lemma AttemptSettles(db: Db, id: string, maxAttempts: nat, exec: Executor, next: Db)
    requires Claimable(db, maxAttempts, id)
    requires next.commands == AfterAttempt(db, id, maxAttempts, exec)
    ensures DrainedCommands(next, maxAttempts, exec) == DrainedCommands(db, maxAttempts, exec)
  {
    var c := db.commands[id];
    forall j | j in db.commands
      ensures SettledRow(next, j, maxAttempts, exec) == SettledRow(db, j, maxAttempts, exec)
    {
      if j == id {
        var n := c.attempts + 1;
        if next.commands[id].status.Pending? {
          assert next.commands[id] == c.(attempts := n);
        } else if c.payload.Json? && exec(id, n).exitCode != 0 {
          assert Settled(id, c.(attempts := n), maxAttempts, exec) == c.(attempts := n, status := Failed);
        }
      }
    }
  }

  // ---- The execution budget ----

  /** Attempts a row may still use. */
  function Weight(c: Command, maxAttempts: nat): nat {
    if c.status.Terminal() || c.attempts >= maxAttempts then 0 else maxAttempts - c.attempts
  }

  /** The sum of the weights over the table. */
  ghost function Remaining(commands: map<string, Command>, maxAttempts: nat): nat
    decreases |commands|
  {
    if commands == map[] then 0 else
      var id :| id in commands;
      assert (commands - {id}).Keys == commands.Keys - {id};
      Weight(commands[id], maxAttempts) + Remaining(commands - {id}, maxAttempts)
  }

  lemma {:induction false} RemainingSplit(commands: map<string, Command>, id: string, maxAttempts: nat)
    requires id in commands
    ensures Remaining(commands, maxAttempts)
         == Weight(commands[id], maxAttempts) + Remaining(commands - {id}, maxAttempts)
    decreases |commands|
  {
    var j :| j in commands && Remaining(commands, maxAttempts)
                              == Weight(commands[j], maxAttempts) + Remaining(commands - {j}, maxAttempts);
    if j != id {
      assert (commands - {j}).Keys == commands.Keys - {j} && (commands - {id}).Keys == commands.Keys - {id};
      RemainingSplit(commands - {j}, id, maxAttempts);
      RemainingSplit(commands - {id}, j, maxAttempts);
      assert (commands - {j}) - {id} == (commands - {id}) - {j};
    }
  }

  lemma RemainingUpdate(commands: map<string, Command>, id: string, c: Command, maxAttempts: nat)
    requires id in commands
    ensures Remaining(commands[id := c], maxAttempts) + Weight(commands[id], maxAttempts)
         == Remaining(commands, maxAttempts) + Weight(c, maxAttempts)
  {
    RemainingSplit(commands, id, maxAttempts);
    RemainingSplit(commands[id := c], id, maxAttempts);
    assert commands[id := c] - {id} == commands - {id};
  }

  lemma {:induction false} RemainingSame(a: map<string, Command>, b: map<string, Command>, maxAttempts: nat)
    requires a.Keys == b.Keys
    requires forall id | id in a :: Weight(a[id], maxAttempts) == Weight(b[id], maxAttempts)
    ensures Remaining(a, maxAttempts) == Remaining(b, maxAttempts)
    decreases |a|
  {
    if a == map[] {
      assert b == map[];
    } else {
      var id :| id in a;
      assert (a - {id}).Keys == a.Keys - {id} && (b - {id}).Keys == b.Keys - {id};
      RemainingSame(a - {id}, b - {id}, maxAttempts);
      RemainingSplit(a, id, maxAttempts);
      RemainingSplit(b, id, maxAttempts);
    }
  }

  /** The reference program never takes more attempts than the commands have left. */
  lemma {:induction false} TraceWithinBudget(db: Db, maxAttempts: nat, exec: Executor)
    ensures |DrainTrace(db, maxAttempts, exec)| <= Remaining(db.commands, maxAttempts)
    decreases Remaining(db.commands, maxAttempts)
  {
    var keys := ClaimableKeys(db, maxAttempts);
    if keys != {} {
      var k := Least(keys);
      ClaimableKeyIff(db, maxAttempts, k);
      var next := Db(AfterAttempt(db, k.id, maxAttempts, exec), db.results);
      RemainingUpdate(db.commands, k.id, next.commands[k.id], maxAttempts);
      AttemptTrace(db, k, maxAttempts, exec, next);
      TraceWithinBudget(next, maxAttempts, exec);
    }
  }

  // ---- The worker ----

  /** What one RunOnce does: the new database, whether there was work, whether it reports an error. */
  ghost function OnceEffect(db: Db, maxAttempts: nat, exec: Executor, f: Faults): (Db, bool, bool) {
    if f.claim then (db, false, true) else
      var (claimed, id) := ClaimNext(db, maxAttempts);
      if id.None? then (db, false, false) else
        var c := claimed.commands[id.value];
        var a := exec(id.value, c.attempts);
        var (saved, ok) := if f.save then (claimed, false)
                           else SaveResult(claimed, ResultFor(id.value, c.payload, a), a.uuid, a.executedAt);
        if c.payload.Json? && !ok then (claimed, true, true)
        else (if f.finish then saved else SetStatus(saved, id.value, Verdict(c, a.exitCode, maxAttempts)), true, false)
  }

  /** Without faults and with a fresh id, RunOnce appends one result row and moves one command row. */
  lemma OnceFaultless(db: Db, maxAttempts: nat, exec: Executor)
    requires ClaimableKeys(db, maxAttempts) != {}
    requires forall id | id in db.commands :: !HasResultId(db, exec(id, db.commands[id].attempts + 1).uuid)
    ensures var k := Least(ClaimableKeys(db, maxAttempts));
            && Claimable(db, maxAttempts, k.id)
            && ClaimNext(db, maxAttempts).1 == Some(k.id)
            && OnceEffect(db, maxAttempts, exec, NO_FAULTS)
            == (Db(AfterAttempt(db, k.id, maxAttempts, exec),
                      db.results + [SavedRow(k.id, db.commands[k.id].payload,
                                           exec(k.id, db.commands[k.id].attempts + 1))]),
                   true, false)
    // The new row, column by column.
    ensures var k := Least(ClaimableKeys(db, maxAttempts));
            var o := exec(k.id, db.commands[k.id].attempts + 1);
            var rows := OnceEffect(db, maxAttempts, exec, NO_FAULTS).0.results;
            && |rows| == |db.results| + 1 && rows[..|db.results|] == db.results
            && (if db.commands[k.id].payload.Json? then Carries(rows[|db.results|], k.id, o)
                else Complains(rows[|db.results|], k.id, o))
  {
    var k := Least(ClaimableKeys(db, maxAttempts));
    ClaimableKeyIff(db, maxAttempts, k);
    var claimed := Claim(db, k.id);
    var c := claimed.commands[k.id];
    var a := exec(k.id, c.attempts);
    assert !HasResultId(claimed, a.uuid);
    assert claimed.commands[k.id := c.(status := Verdict(c, a.exitCode, maxAttempts))]
        == AfterAttempt(db, k.id, maxAttempts, exec);
  }

  /** The rows written so far are those of the claims made so far. */
  ghost predicate Recorded(start: Db, now: Db, claims: seq<Claimed>, exec: Executor) {
    && FreshIds(start, exec)
    && now.commands.Keys == start.commands.Keys
    && (forall id | id in start.commands :: now.commands[id].payload == start.commands[id].payload)
    && (forall i | 0 <= i < |claims| ::
          claims[i].id in start.commands && claims[i].attempt <= now.commands[claims[i].id].attempts)
    && now.results == start.results + SavedRows(claims, start.commands, exec)
  }

  /** The claims made so far and those still to come are the reference trace, ending in the same rows. */
  ghost predicate OnTrack(start: Db, now: Db, claims: seq<Claimed>, maxAttempts: nat, exec: Executor) {
    && claims + DrainTrace(now, maxAttempts, exec) == DrainTrace(start, maxAttempts, exec)
    && DrainedCommands(now, maxAttempts, exec) == DrainedCommands(start, maxAttempts, exec)
    && |claims| + Remaining(now.commands, maxAttempts) <= Remaining(start.commands, maxAttempts)
  }

  ghost predicate DrainInvariant(start: Db, now: Db, claims: seq<Claimed>, maxAttempts: nat, exec: Executor) {
    Recorded(start, now, claims, exec) && OnTrack(start, now, claims, maxAttempts, exec)
  }

  lemma RecordedFresh(start: Db, now: Db, claims: seq<Claimed>, exec: Executor, id: string)
    requires Recorded(start, now, claims, exec)
    requires id in now.commands
    ensures !HasResultId(now, exec(id, now.commands[id].attempts + 1).uuid)
  {
  }

  lemma RecordedStep(start: Db, now: Db, claims: seq<Claimed>, exec: Executor, claimed: Claimed, next: Db)
    requires Recorded(start, now, claims, exec)
    requires claimed.id in now.commands && claimed.attempt == now.commands[claimed.id].attempts + 1
    requires next.commands.Keys == now.commands.Keys
    requires forall j | j in now.commands && j != claimed.id :: next.commands[j] == now.commands[j]
    requires next.commands[claimed.id].payload == now.commands[claimed.id].payload
    requires next.commands[claimed.id].attempts == claimed.attempt
    requires next.results == now.results
                           + [SavedRow(claimed.id, now.commands[claimed.id].payload, exec(claimed.id, claimed.attempt))]
    ensures Recorded(start, next, claims + [claimed], exec)
  {
  }

  lemma OnTrackStep(start: Db, now: Db, claims: seq<Claimed>, maxAttempts: nat, exec: Executor,
                    claimed: Claimed, next: Db)
    requires OnTrack(start, now, claims, maxAttempts, exec)
    requires Claimable(now, maxAttempts, claimed.id) && claimed.attempt == now.commands[claimed.id].attempts + 1
    requires IsLeast(KeyOf(now, claimed.id), ClaimableKeys(now, maxAttempts))
    requires next.commands == AfterAttempt(now, claimed.id, maxAttempts, exec)
    ensures OnTrack(start, next, claims + [claimed], maxAttempts, exec)
    ensures Remaining(next.commands, maxAttempts) < Remaining(now.commands, maxAttempts)
  {
    AttemptTrace(now, KeyOf(now, claimed.id), maxAttempts, exec, next);
    AttemptSettles(now, claimed.id, maxAttempts, exec, next);
    RemainingUpdate(now.commands, claimed.id, next.commands[claimed.id], maxAttempts);
    assert claimed == Claimed(claimed.id, now.commands[claimed.id].attempts + 1);
    Associative(claims, [claimed], DrainTrace(next, maxAttempts, exec));
  }

  lemma DrainReady(start: Db, now: Db, claims: seq<Claimed>, maxAttempts: nat, exec: Executor)
    requires DrainInvariant(start, now, claims, maxAttempts, exec)
    requires ClaimableKeys(now, maxAttempts) != {}
    ensures var k := Least(ClaimableKeys(now, maxAttempts));
            && Claimable(now, maxAttempts, k.id)
            && ClaimNext(now, maxAttempts).1 == Some(k.id)
            && OnceEffect(now, maxAttempts, exec, NO_FAULTS)
            == (Db(AfterAttempt(now, k.id, maxAttempts, exec),
                   now.results + [SavedRow(k.id, now.commands[k.id].payload,
                                         exec(k.id, now.commands[k.id].attempts + 1))]),
                true, false)
  {
    forall id | id in now.commands ensures !HasResultId(now, exec(id, now.commands[id].attempts + 1).uuid) {
      RecordedFresh(start, now, claims, exec, id);
    }
    OnceFaultless(now, maxAttempts, exec);
  }

  lemma DrainTurn(start: Db, now: Db, claims: seq<Claimed>, maxAttempts: nat, exec: Executor,
                  next: Db, claimed: Claimed)
    requires DrainInvariant(start, now, claims, maxAttempts, exec)
    requires ClaimableKeys(now, maxAttempts) != {}
    requires next == OnceEffect(now, maxAttempts, exec, NO_FAULTS).0
    requires claimed.id in now.commands && Some(claimed.id) == ClaimNext(now, maxAttempts).1
    requires claimed.attempt == now.commands[claimed.id].attempts + 1
    ensures DrainInvariant(start, next, claims + [claimed], maxAttempts, exec)
    ensures Remaining(next.commands, maxAttempts) < Remaining(now.commands, maxAttempts)
  {
    DrainReady(start, now, claims, maxAttempts, exec);
    ClaimableKeyIff(now, maxAttempts, Least(ClaimableKeys(now, maxAttempts)));
    RecordedStep(start, now, claims, exec, claimed, next);
    OnTrackStep(start, now, claims, maxAttempts, exec, claimed, next);
  }

  lemma DrainDone(start: Db, now: Db, claims: seq<Claimed>, maxAttempts: nat, exec: Executor)
    requires DrainInvariant(start, now, claims, maxAttempts, exec)
    requires ClaimNext(now, maxAttempts).1.None?
    ensures claims == DrainTrace(start, maxAttempts, exec)
    ensures now.commands == DrainedCommands(start, maxAttempts, exec)
  {
  }

  lemma RowsCarry(before: seq<Result>, claims: seq<Claimed>, commands: map<string, Command>, exec: Executor,
                  after: seq<Result>)
    requires forall i | 0 <= i < |claims| :: claims[i].id in commands
    requires after == before + SavedRows(claims, commands, exec)
    ensures |after| == |before| + |claims|
    ensures forall i | 0 <= i < |claims| && commands[claims[i].id].payload.Json? ::
              Carries(after[|before| + i], claims[i].id, exec(claims[i].id, claims[i].attempt))
  {
  }

  /** After recovery and a drain the only unfinished rows are those PENDING at the cap from the start. */
  lemma DrainedTerminal(start: Db, maxAttempts: nat, exec: Executor)
    ensures var done := DrainedCommands(RecoverStale(start, maxAttempts), maxAttempts, exec);
            && done.Keys == start.commands.Keys
            && forall id | id in start.commands ::
                 (!done[id].status.Terminal()
                  <==> start.commands[id].status.Pending? && start.commands[id].attempts >= maxAttempts)
  {
    var recovered := RecoverStale(start, maxAttempts);
    forall id | id in start.commands
      ensures !SettledRow(recovered, id, maxAttempts, exec).status.Terminal()
         <==> start.commands[id].status.Pending? && start.commands[id].attempts >= maxAttempts
    {
      SettledTerminal(id, recovered.commands[id], maxAttempts, exec);
    }
  }

  class Worker {
    const store: Store
    const maxAttempts: nat
    /** The one-slot wake channel. */
    var wake: bool

    constructor (store: Store, maxAttempts: nat)
      ensures this.store == store && this.maxAttempts == maxAttempts && !wake
    {
      this.store, this.maxAttempts, wake := store, maxAttempts, false;
    }

    /** A send that is dropped when the slot is taken. */
    method Wake()
      modifies this
      ensures wake
    {
      if !wake {
        wake := true;
      }
    }

    method RunOnce(exec: Executor, f: Faults)
      returns (didWork: bool, err: bool, claimed: Option<Claimed>, reported: Option<Result>)
      modifies store
      ensures (store.Value(), didWork, err) == OnceEffect(old(store.Value()), maxAttempts, exec, f)
      // The claim made, if any.
      ensures claimed == if f.claim then None
                         else match ClaimNext(old(store.Value()), maxAttempts).1
                              case None => None
                              case Some(id) => Some(Claimed(id, old(store.commands)[id].attempts + 1))
      // Only a final outcome is reported, and without a result id.
      ensures reported.Some? <==> (
                && claimed.Some? && !err
                && Verdict(old(store.commands)[claimed.value.id].(attempts := claimed.value.attempt),
                           exec(claimed.value.id, claimed.value.attempt).exitCode, maxAttempts).Terminal())
      ensures reported.Some? ==>
                reported.value == ResultFor(claimed.value.id, old(store.commands)[claimed.value.id].payload,
                                            exec(claimed.value.id, claimed.value.attempt))
      // What is saved and reported of a decodable command is what the execution produced.
      ensures claimed.Some? && !err && old(store.commands)[claimed.value.id].payload.Json? ==>
                var o := exec(claimed.value.id, claimed.value.attempt);
                && |store.results| == |old(store.results)| + 1
                && store.results[..|old(store.results)|] == old(store.results)
                && Carries(store.results[|old(store.results)|], claimed.value.id, o)
      ensures reported.Some? && old(store.commands)[claimed.value.id].payload.Json? ==>
                var o := exec(claimed.value.id, claimed.value.attempt);
                && reported.value.commandId == claimed.value.id && reported.value.resultId == ""
                && reported.value.stdout == o.stdout && reported.value.stderr == o.stderr
                && reported.value.exitCode == o.exitCode && reported.value.executedAt == o.executedAt
      ensures reported.Some? && old(store.commands)[claimed.value.id].payload.Malformed? ==>
                && reported.value.commandId == claimed.value.id && reported.value.stdout == ""
                && "invalid payload: " <= reported.value.stderr && reported.value.exitCode == -1
    {
      didWork, err, claimed, reported := false, f.claim, None, None;
      if f.claim {
        return;
      }
      var id := store.ClaimNext(maxAttempts);
      if id.None? {
        return;
      }
      var c := store.commands[id.value];
      var a := exec(id.value, c.attempts);
      var res := ResultFor(id.value, c.payload, a);
      didWork, claimed := true, Some(Claimed(id.value, c.attempts));
      var ok := false;
      if !f.save {
        ok := store.SaveResult(res, a.uuid, a.executedAt);
      }
      if c.payload.Malformed? {
        if !f.finish { store.Complete(id.value, Failed); }
        reported := Some(res);
        return;
      }
      if !ok {
        err := true;
        return;
      }
      if res.exitCode == 0 {
        if !f.finish { store.Complete(id.value, Completed); }
        reported := Some(res);
      } else if c.attempts < maxAttempts {
        if !f.finish { store.Requeue(id.value); }
      } else {
        if !f.finish { store.Complete(id.value, Failed); }
        reported := Some(res);
      }
    }

    /** One turn of the drain loop. */
    method DrainOnce(exec: Executor, ghost start: Db, ghost claims: seq<Claimed>)
      returns (did: bool, claimed: Option<Claimed>)
      requires DrainInvariant(start, store.Value(), claims, maxAttempts, exec)
      modifies store
      ensures !did ==> store.Value() == old(store.Value()) && ClaimNext(store.Value(), maxAttempts).1.None?
      ensures did ==> claimed.Some? && DrainInvariant(start, store.Value(), claims + [claimed.value], maxAttempts, exec)
      ensures did ==> Remaining(store.commands, maxAttempts) < Remaining(old(store.commands), maxAttempts)
    {
      ghost var now := store.Value();
      var err, reported;
      did, err, claimed, reported := RunOnce(exec, NO_FAULTS);
      if did {
        DrainTurn(start, now, claims, maxAttempts, exec, store.Value(), claimed.value);
      }
    }

    /** The drain loop itself. */
    method DrainLoop(exec: Executor) returns (claims: seq<Claimed>)
      requires FreshIds(store.Value(), exec)
      modifies store
      ensures DrainInvariant(old(store.Value()), store.Value(), claims, maxAttempts, exec)
      ensures ClaimNext(store.Value(), maxAttempts).1.None?
    {
      claims := [];
      ghost var start := store.Value();
      var did := true;
      while did
        invariant DrainInvariant(start, store.Value(), claims, maxAttempts, exec)
        invariant !did ==> ClaimNext(store.Value(), maxAttempts).1.None?
        decreases did, Remaining(store.commands, maxAttempts)
      {
        var claimed;
        did, claimed := DrainOnce(exec, start, claims);
        if did {
          claims := claims + [claimed.value];
        }
      }
    }

    /** RunOnce until there is no work, as `run --drain` does. */
    method Drain(exec: Executor) returns (claims: seq<Claimed>)
      requires FreshIds(store.Value(), exec)
      modifies store
      ensures claims == DrainTrace(old(store.Value()), maxAttempts, exec)
      ensures store.commands == DrainedCommands(old(store.Value()), maxAttempts, exec)
      ensures forall i | 0 <= i < |claims| :: claims[i].id in old(store.commands)
      ensures store.results == old(store.results) + SavedRows(claims, old(store.commands), exec)
      // One result per claim, in that order, with what that attempt produced.
      ensures |store.results| == |old(store.results)| + |claims|
      ensures forall i | 0 <= i < |claims| && old(store.commands)[claims[i].id].payload.Json? ::
                Carries(store.results[|old(store.results)| + i], claims[i].id, exec(claims[i].id, claims[i].attempt))
      ensures |claims| <= Remaining(old(store.commands), maxAttempts)
    {
      ghost var start := store.Value();
      claims := DrainLoop(exec);
      DrainDone(start, store.Value(), claims, maxAttempts, exec);
      RowsCarry(start.results, claims, start.commands, exec, store.results);
    }

    /** `run --drain`: recover what a crash left behind, then drain. */
    method RecoverAndDrain(exec: Executor) returns (claims: seq<Claimed>)
      requires FreshIds(store.Value(), exec)
      modifies store
      // The number of executions is bounded by what the non-terminal commands had left.
      ensures |claims| <= Remaining(old(store.commands), maxAttempts)
      ensures claims == DrainTrace(RecoverStale(old(store.Value()), maxAttempts), maxAttempts, exec)
      ensures store.commands.Keys == old(store.commands).Keys
      // Every command ends COMPLETED or FAILED, unless it was PENDING with its attempts used up.
      ensures (forall id | id in store.commands :: store.commands[id].status.Terminal())
         <==> (forall id | id in old(store.commands) ::
                 !(old(store.commands)[id].status.Pending? && old(store.commands)[id].attempts >= maxAttempts))
    {
      ghost var start := store.Value();
      var _ := store.RecoverStale(maxAttempts);
      ghost var recovered := store.Value();
      RemainingSame(start.commands, recovered.commands, maxAttempts);
      assert recovered.results == start.results;
      assert FreshIds(recovered, exec);
      claims := Drain(exec);
      DrainedTerminal(start, maxAttempts, exec);
    }
  }
}
