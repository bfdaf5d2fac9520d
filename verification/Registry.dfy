/**
 The hub's registry of live connections. Each function is one critical section of the hub's lock:
 an accepted AUTH, the unregister at the end of a connection, a broadcast.
 */
module Registry {
  import opened Ordering
  import opened Outbox

  datatype Role = Agent | Controller | Unknown(name: string)

  datatype DeviceStatus = Online | Degraded | Offline

  datatype Envelope = StatusChange(deviceId: string, status: DeviceStatus) | Other(n: nat)

  /** `open` is the state of the send channel: sending on a closed channel, or closing it again, panics. */
  datatype Client = Client(role: Role, deviceId: string, authed: bool, open: bool, buffer: seq<Envelope>)

  datatype Roster = Roster(agents: map<string, nat>, controllers: set<nat>, clients: map<nat, Client>,
                               status: map<string, DeviceStatus>)

  const EMPTY := Roster(map[], {}, map[], map[])

  function Connect(r: Roster, c: nat): Roster {
    r.(clients := r.clients[c := Client(Unknown(""), "", false, true, [])])
  }

  function Offered(c: Client, m: Envelope): Client {
    if |c.buffer| < CAPACITY then c.(buffer := c.buffer + [m]) else c
  }

  /** Sends to every controller; the lock is held throughout. */
  function Broadcast(r: Roster, m: Envelope): Roster {
    r.(clients := map c | c in r.clients :: if c in r.controllers then Offered(r.clients[c], m) else r.clients[c])
  }

  /** Any role but "agent" lands among the controllers. */
  function Authenticate(r: Roster, c: nat, role: Role, deviceId: string): Roster
    requires c in r.clients
  {
    var named := r.(clients := r.clients[c := r.clients[c].(role := role, deviceId := deviceId, authed := true)]);
    if role.Agent?
    then Broadcast(named.(agents := r.agents[deviceId := c], status := r.status[deviceId := Online]),
                   StatusChange(deviceId, Online))
    else named.(controllers := r.controllers + {c})
  }

  function Deregister(r: Roster, c: nat): Roster
    requires c in r.clients
  {
    var me := r.clients[c];
    if me.role.Agent? && me.deviceId != "" then
      if me.deviceId in r.agents && r.agents[me.deviceId] == c
      then Broadcast(r.(agents := r.agents - {me.deviceId}, status := r.status[me.deviceId := Offline]),
                     StatusChange(me.deviceId, Offline))
      else r
    else if me.role.Controller? then r.(controllers := r.controllers - {c})
    else r
  }

  function Unregister(r: Roster, c: nat): Roster
    requires c in r.clients
  {
    var gone := Deregister(r, c);
    gone.(clients := gone.clients[c := gone.clients[c].(open := false)])
  }

  /** Controllers are connections the hub has accepted. */
  ghost predicate Known(r: Roster) {
    forall c | c in r.controllers :: c in r.clients
  }

  /** A broadcast would meet a closed outbox. */
  ghost predicate MeetsClosed(r: Roster) {
    exists c | c in r.controllers :: c in r.clients && !r.clients[c].open
  }

  /** Unregistering c takes a device offline. */
  predicate Announces(r: Roster, c: nat) {
    && c in r.clients && r.clients[c].role.Agent? && r.clients[c].deviceId != ""
    && r.clients[c].deviceId in r.agents && r.agents[r.clients[c].deviceId] == c
  }

  // ---- What the others hear ----

  /** The message was offered to the outbox once: kept behind what is there, dropped when 64 wait. */
  predicate Told(before: Client, after: Client, m: Envelope) {
    after.buffer == if |before.buffer| < 64 then before.buffer + [m] else before.buffer
  }

  /** Every controller hears the message and nobody else hears anything. */
  predicate AllTold(r: Roster, t: Roster, m: Envelope) {
    && t.clients.Keys == r.clients.Keys
    && forall x | x in r.clients ::
         if x in r.controllers then Told(r.clients[x], t.clients[x], m) else t.clients[x].buffer == r.clients[x].buffer
  }

  predicate NobodyTold(r: Roster, t: Roster) {
    t.clients.Keys == r.clients.Keys && forall x | x in r.clients :: t.clients[x].buffer == r.clients[x].buffer
  }

  /** Only this connection's own record changes, outboxes apart. */
  predicate OthersSame(r: Roster, t: Roster, c: nat) {
    forall x | x in r.clients && x in t.clients && x != c ::
      t.clients[x] == r.clients[x].(buffer := t.clients[x].buffer)
  }

  /** The end of the connection registered for a device takes it OFFLINE for all to hear; any other end is silent. */
  lemma LeaveAnnounces(r: Roster, c: nat)
    requires c in r.clients
    ensures var t, d := Unregister(r, c), r.clients[c].deviceId;
            && c in t.clients && !t.clients[c].open && OthersSame(r, t, c)
            && (if Announces(r, c)
                then && AllTold(r, t, StatusChange(d, Offline))
                     && t.agents == r.agents - {d} && t.status == r.status[d := Offline]
                     && t.controllers == r.controllers
                else && NobodyTold(r, t) && t.agents == r.agents && t.status == r.status
                     && t.controllers == if r.clients[c].role.Controller? then r.controllers - {c} else r.controllers)
  {
    if Announces(r, c) { LeaveLoud(r, c); } else { LeaveSilent(r, c); }
  }

  lemma BroadcastTells(r: Roster, m: Envelope)
    ensures AllTold(r, Broadcast(r, m), m) && Broadcast(r, m) == r.(clients := Broadcast(r, m).clients)
    ensures forall x | x in r.clients ::
              Broadcast(r, m).clients[x] == r.clients[x].(buffer := Broadcast(r, m).clients[x].buffer)
  {
  }

  lemma LeaveLoud(r: Roster, c: nat)
    requires Announces(r, c)
    ensures var t, d := Unregister(r, c), r.clients[c].deviceId;
            && c in t.clients && !t.clients[c].open && OthersSame(r, t, c) && AllTold(r, t, StatusChange(d, Offline))
            && t.agents == r.agents - {d} && t.status == r.status[d := Offline] && t.controllers == r.controllers
  {
    var d := r.clients[c].deviceId;
    BroadcastTells(r.(agents := r.agents - {d}, status := r.status[d := Offline]), StatusChange(d, Offline));
  }

  lemma LeaveSilent(r: Roster, c: nat)
    requires c in r.clients && !Announces(r, c)
    ensures var t := Unregister(r, c);
            && c in t.clients && !t.clients[c].open && OthersSame(r, t, c) && NobodyTold(r, t)
            && t.agents == r.agents && t.status == r.status
            && t.controllers == if r.clients[c].role.Controller? then r.controllers - {c} else r.controllers
  {
  }

  /** An agent's AUTH takes its device ONLINE for all to hear; any other AUTH adds a listener. */
  lemma AuthAnnounces(r: Roster, c: nat, role: Role, d: string)
    requires c in r.clients
    ensures var t := Authenticate(r, c, role, d);
            && c in t.clients && t.clients[c].authed && t.clients[c].role == role && t.clients[c].deviceId == d
            && t.clients[c].open == r.clients[c].open && OthersSame(r, t, c)
            && (if role.Agent?
                then && AllTold(r, t, StatusChange(d, Online))
                     && t.agents == r.agents[d := c] && t.status == r.status[d := Online]
                     && t.controllers == r.controllers
                else && NobodyTold(r, t) && t.agents == r.agents && t.status == r.status
                     && t.controllers == r.controllers + {c})
  {
  }

  // ---- Runs ----

  datatype Event =
    | Connected(c: nat)
    | Authed(c: nat, role: Role, deviceId: string)
    | Unregistered(c: nat)
    | Broadcasted(m: Envelope)

  /** A connection may authenticate again and again while it lasts; it ends once, by its own goroutine. */
  predicate Possible(r: Roster, e: Event) {
    match e
    case Connected(c) => c !in r.clients
    case Authed(c, _, _) => c in r.clients && r.clients[c].open
    case Unregistered(c) => c in r.clients && r.clients[c].open
    case Broadcasted(_) => true
  }

  function After(r: Roster, e: Event): Roster
    requires Possible(r, e)
  {
    match e
    case Connected(c) => Connect(r, c)
    case Authed(c, role, d) => Authenticate(r, c, role, d)
    case Unregistered(c) => Unregister(r, c)
    case Broadcasted(m) => Broadcast(r, m)
  }

  /** The registry after a history of possible events, if it is one. */
  predicate History(es: seq<Event>)
    decreases |es|, 0
  {
    es == [] || (History(es[..|es| - 1]) && Possible(Replay(es[..|es| - 1]), es[|es| - 1]))
  }

  function Replay(es: seq<Event>): Roster
    requires History(es)
    decreases |es|, 1
  {
    if es == [] then EMPTY else After(Replay(es[..|es| - 1]), es[|es| - 1])
  }

  // ---- The registry against its history ----

  predicate AuthOf(e: Event, c: nat) {
    e.Authed? && e.c == c
  }

  function LastAuth(es: seq<Event>, c: nat): Option<Event> {
    if es == [] then None
    else if AuthOf(es[|es| - 1], c) then Some(es[|es| - 1])
    else LastAuth(es[..|es| - 1], c)
  }

  predicate TakesOver(e: Event, d: string) {
    e.Authed? && e.role.Agent? && e.deviceId == d
  }

  /** No AUTH after position i takes the device over. */
  ghost predicate Untaken(es: seq<Event>, i: nat, d: string) {
    forall j | i < j < |es| :: !TakesOver(es[j], d)
  }

  /** Position i holds an AUTH of c as agent d and no later AUTH takes d over. */
  ghost predicate Holds(es: seq<Event>, i: nat, c: nat, d: string) {
    i < |es| && es[i] == Authed(c, Agent, d) && Untaken(es, i, d)
  }

  ghost predicate Owner(es: seq<Event>, c: nat, d: string) {
    exists i :: Holds(es, i, c, d)
  }

  ghost predicate Supervised(es: seq<Event>, c: nat) {
    exists i | 0 <= i < |es| :: AuthOf(es[i], c) && !es[i].role.Agent?
  }

  predicate Left(es: seq<Event>, c: nat) {
    Unregistered(c) in es
  }

  /** Unregistering goes by the last AUTH alone: the one agent entry, or the controller entry, it takes out. */
  predicate TakenOut(es: seq<Event>, c: nat, d: string) {
    Left(es, c) && d != "" && LastAuth(es, c) == Some(Authed(c, Agent, d))
  }

  predicate LastAsController(es: seq<Event>, c: nat) {
    LastAuth(es, c).Some? && LastAuth(es, c).value.Authed? && LastAuth(es, c).value.role.Controller?
  }

  lemma SplitLast(es: seq<Event>, e: Event)
    requires es != []
    ensures e in es <==> e in es[..|es| - 1] || e == es[|es| - 1]
  {
  }

  lemma ClosedAfter(r: Roster, e: Event, c: nat)
    requires Possible(r, e)
    ensures c in After(r, e).clients && !After(r, e).clients[c].open
       <==> (c in r.clients && !r.clients[c].open) || e == Unregistered(c)
  {
  }

  /** Each outbox is closed exactly by its connection's end, and each connection ends once. */
  lemma {:induction false} ClosedIff(es: seq<Event>, c: nat)
    requires History(es)
    ensures Left(es, c) <==> c in Replay(es).clients && !Replay(es).clients[c].open
    ensures forall i, j | 0 <= i < j < |es| :: !(es[i] == Unregistered(c) && es[j] == Unregistered(c))
  {
    if es != [] {
      var n := |es| - 1;
      ClosedIff(es[..n], c);
      ClosedAfter(Replay(es[..n]), es[n], c);
      SplitLast(es, Unregistered(c));
      assert forall i | 0 <= i < n :: es[..n][i] == es[i];
    }
  }

  /** A client's role and device id are those of its last AUTH. */
  lemma {:induction false} Identity(es: seq<Event>, c: nat)
    requires History(es) && c in Replay(es).clients
    ensures var me := Replay(es).clients[c];
            match LastAuth(es, c)
            case None => !me.authed && me.role == Unknown("") && me.deviceId == ""
            case Some(e) => me.authed && e in es && e == Authed(c, me.role, me.deviceId)
  {
    if es != [] {
      var n := |es| - 1;
      var r := Replay(es[..n]);
      ClientAfter(r, es[n], c);
      SplitLast(es, es[n]);
      if c in r.clients {
        Identity(es[..n], c);
        if LastAuth(es[..n], c).Some? { SplitLast(es, LastAuth(es[..n], c).value); }
      } else {
        NoAuthYet(es[..n], c);
      }
    }
  }

  /** Only a connection's own AUTH changes who it is. */
  lemma ClientAfter(r: Roster, e: Event, c: nat)
    requires Possible(r, e)
    ensures c in After(r, e).clients <==> c in r.clients || e == Connected(c)
    ensures c in After(r, e).clients ==>
              var me := After(r, e).clients[c];
              if AuthOf(e, c) then me.authed && me.role == e.role && me.deviceId == e.deviceId
              else if c in r.clients
              then me.authed == r.clients[c].authed && me.role == r.clients[c].role
                   && me.deviceId == r.clients[c].deviceId
              else !me.authed && me.role == Unknown("") && me.deviceId == ""
  {
  }

  lemma {:induction false} NoAuthYet(es: seq<Event>, c: nat)
    requires History(es) && c !in Replay(es).clients
    ensures LastAuth(es, c).None?
  {
    if es != [] { NoAuthYet(es[..|es| - 1], c); }
  }

  lemma AgentsAfter(r: Roster, e: Event, c: nat, d: string)
    requires Possible(r, e)
    ensures d in After(r, e).agents && After(r, e).agents[d] == c
       <==> e == Authed(c, Agent, d)
            || (d in r.agents && r.agents[d] == c && !TakesOver(e, d)
                && !(e == Unregistered(c) && r.clients[c].role.Agent? && r.clients[c].deviceId == d && d != ""))
  {
  }

  lemma ControllersAfter(r: Roster, e: Event, c: nat)
    requires Possible(r, e)
    ensures c in After(r, e).controllers
       <==> (AuthOf(e, c) && !e.role.Agent?)
            || (c in r.controllers && !(e == Unregistered(c) && r.clients[c].role.Controller?))
  {
  }

  lemma OwnerAfter(es: seq<Event>, c: nat, d: string)
    requires es != []
    ensures Owner(es, c, d)
       <==> es[|es| - 1] == Authed(c, Agent, d) || (Owner(es[..|es| - 1], c, d) && !TakesOver(es[|es| - 1], d))
  {
    var n := |es| - 1;
    var init, e := es[..n], es[n];
    forall i: nat | i < n ensures Holds(es, i, c, d) <==> Holds(init, i, c, d) && !TakesOver(e, d) {
      assert forall j | i <= j < n :: init[j] == es[j];
    }
    if e == Authed(c, Agent, d) { assert Holds(es, n, c, d); }
    if Owner(init, c, d) && !TakesOver(e, d) {
      var i :| Holds(init, i, c, d);
      assert Holds(es, i, c, d);
    }
    if Owner(es, c, d) && e != Authed(c, Agent, d) {
      var i :| Holds(es, i, c, d);
      assert Holds(init, i, c, d);
    }
  }

  lemma SupervisedAfter(es: seq<Event>, c: nat)
    requires es != []
    ensures var e := es[|es| - 1];
            Supervised(es, c) <==> Supervised(es[..|es| - 1], c) || (AuthOf(e, c) && !e.role.Agent?)
  {
  }

  /**
   In every history: the connection registered for a device is the one that made the device's last
   AUTH, until it leaves; nothing another connection does, its own late unregister included,
   evicts it. An entry under another id than that of its last AUTH, or under "", outlives it.
   */
  lemma {:induction false} LastAuthWins(es: seq<Event>, c: nat, d: string)
    requires History(es)
    ensures d in Replay(es).agents && Replay(es).agents[d] == c <==> Owner(es, c, d) && !TakenOut(es, c, d)
  {
    if es != [] {
      var n := |es| - 1;
      var r := Replay(es[..n]);
      LastAuthWins(es[..n], c, d);
      AgentsAfter(r, es[n], c, d);
      OwnerAfter(es, c, d);
      ClosedIff(es[..n], c);
      SplitLast(es, Unregistered(c));
      if c in r.clients { Identity(es[..n], c); }
    }
  }

  /** In every history: the controllers are those who came as no agent and did not leave as a "controller". */
  lemma {:induction false} ControllersAre(es: seq<Event>, c: nat)
    requires History(es)
    ensures c in Replay(es).controllers <==> Supervised(es, c) && !(Left(es, c) && LastAsController(es, c))
  {
    if es != [] {
      var n := |es| - 1;
      var r := Replay(es[..n]);
      ControllersAre(es[..n], c);
      ControllersAfter(r, es[n], c);
      SupervisedAfter(es, c);
      ClosedIff(es[..n], c);
      SplitLast(es, Unregistered(c));
      if c in r.clients { Identity(es[..n], c); }
    }
  }

  /** Whether anybody has authenticated as the device's agent. */
  ghost predicate Seen(es: seq<Event>, d: string) {
    exists i | 0 <= i < |es| :: TakesOver(es[i], d)
  }

  lemma SeenAfter(es: seq<Event>, d: string)
    requires es != []
    ensures Seen(es, d) <==> Seen(es[..|es| - 1], d) || TakesOver(es[|es| - 1], d)
  {
    var n := |es| - 1;
    assert forall i | 0 <= i < n :: es[..n][i] == es[i];
    if Seen(es[..n], d) {
      var i :| 0 <= i < n && TakesOver(es[..n][i], d);
      assert TakesOver(es[i], d);
    }
  }

  lemma StatusAfter(r: Roster, e: Event, d: string)
    requires Possible(r, e) && (d in r.agents ==> d in r.status)
    requires d in r.status ==> r.status[d] == if d in r.agents then Online else Offline
    ensures var t := After(r, e);
            && (d in t.status <==> d in r.status || TakesOver(e, d)) && (d in t.agents ==> d in t.status)
            && (d in t.status ==> t.status[d] == if d in t.agents then Online else Offline)
  {
  }

  /**
   In every history, any AUTHs included: a device has a status just when an agent has ever
   authenticated for it; it is ONLINE while a connection is registered for it and OFFLINE otherwise.
   */
  lemma {:induction false} StatusIsPresence(es: seq<Event>, d: string)
    requires History(es)
    ensures var r := Replay(es);
            && (d in r.status <==> Seen(es, d)) && (d in r.agents ==> d in r.status)
            && (d in r.status ==> r.status[d] == if d in r.agents then Online else Offline)
  {
    if es != [] {
      var n := |es| - 1;
      StatusIsPresence(es[..n], d);
      StatusAfter(Replay(es[..n]), es[n], d);
      SeenAfter(es, d);
    }
  }

  // ---- Registered implies open: exactly when ----

  ghost predicate Listed(r: Roster, c: nat) {
    c in r.controllers || exists d | d in r.agents :: r.agents[d] == c
  }

  /** Some AUTH of c that nobody took over is not undone by unregistering c. */
  ghost predicate Lingers(es: seq<Event>, c: nat) {
    || (exists d :: Owner(es, c, d) && (d == "" || LastAuth(es, c) != Some(Authed(c, Agent, d))))
    || (Supervised(es, c) && !LastAsController(es, c))
  }

  /** In every history, exactly which connections are registered with a closed outbox. */
  lemma LeftBehindIff(es: seq<Event>, c: nat)
    requires History(es)
    ensures c in Replay(es).clients && !Replay(es).clients[c].open && Listed(Replay(es), c)
       <==> Left(es, c) && Lingers(es, c)
  {
    var r := Replay(es);
    ClosedIff(es, c);
    ControllersAre(es, c);
    forall d ensures d in r.agents && r.agents[d] == c <==> Owner(es, c, d) && !TakenOut(es, c, d) {
      LastAuthWins(es, c, d);
    }
    if Left(es, c) && Lingers(es, c) && c !in r.controllers {
      var d :| Owner(es, c, d) && (d == "" || LastAuth(es, c) != Some(Authed(c, Agent, d)));
      assert d in r.agents && r.agents[d] == c;
    }
  }

  /** Connect, authenticate as an agent without a device id or under an unknown role, leave: still registered. */
  lemma LeftBehindHappens(c: nat, role: Role)
    requires !role.Controller?
    ensures var es := [Connected(c), Authed(c, role, ""), Unregistered(c)];
            History(es) && Listed(Replay(es), c) && !Replay(es).clients[c].open
  {
    var one, two := [Connected(c)], [Connected(c), Authed(c, role, "")];
    HistoryMore([], Connected(c));
    assert [] + [Connected(c)] == one;
    HistoryMore(one, Authed(c, role, ""));
    assert one + [Authed(c, role, "")] == two;
    HistoryMore(two, Unregistered(c));
    assert two + [Unregistered(c)] == [Connected(c), Authed(c, role, ""), Unregistered(c)];
    if role.Agent? { assert Replay(two + [Unregistered(c)]).agents[""] == c; }
  }

  lemma HistoryMore(es: seq<Event>, e: Event)
    requires History(es) && Possible(Replay(es), e)
    ensures History(es + [e]) && Replay(es + [e]) == After(Replay(es), e)
  {
    assert (es + [e])[..|es|] == es;
  }

  /** The connection's only AUTH is the one at position i. */
  predicate OneAuth(es: seq<Event>, i: nat, c: nat, role: Role, d: string) {
    i < |es| && es[i] == Authed(c, role, d) && forall j | 0 <= j < |es| && AuthOf(es[j], c) :: j == i
  }

  lemma {:induction false} OneAuthIsLast(es: seq<Event>, i: nat, c: nat, role: Role, d: string)
    requires OneAuth(es, i, c, role, d)
    ensures LastAuth(es, c) == Some(Authed(c, role, d))
  {
    var n := |es| - 1;
    if i < n {
      assert forall j | 0 <= j < n :: es[..n][j] == es[j];
      OneAuthIsLast(es[..n], i, c, role, d);
    }
  }

  /**
   With one AUTH the connection stays behind exactly if it left and its role was unknown, or it was
   an agent without a device id that no other such agent has taken over.
   */
  lemma OneAuthLeftBehindIff(es: seq<Event>, i: nat, c: nat, role: Role, d: string)
    requires History(es) && OneAuth(es, i, c, role, d)
    ensures c in Replay(es).clients && !Replay(es).clients[c].open && Listed(Replay(es), c)
       <==> Left(es, c) && (role.Unknown? || (role.Agent? && d == "" && Untaken(es, i, "")))
  {
    OneAuthIsLast(es, i, c, role, d);
    LeftBehindIff(es, c);
    assert Supervised(es, c) <==> !role.Agent?;
    forall x ensures Owner(es, c, x) <==> role.Agent? && d == x && Untaken(es, i, x) {
      OneAuthOwner(es, i, c, role, d, x);
    }
  }

  lemma OneAuthOwner(es: seq<Event>, i: nat, c: nat, role: Role, d: string, x: string)
    requires OneAuth(es, i, c, role, d)
    ensures Owner(es, c, x) <==> role.Agent? && d == x && Untaken(es, i, x)
  {
    if Owner(es, c, x) {
      var k: nat :| Holds(es, k, c, x);
      assert AuthOf(es[k], c);
    }
    if role.Agent? && d == x && Untaken(es, i, x) {
      assert Holds(es, i, c, x);
    }
  }

  /**
   A broadcast meets a closed outbox, and panics, exactly when some connection has left that had
   come as something other than an agent and was not a "controller" in the end.
   */
  lemma BroadcastPanicsIff(es: seq<Event>)
    requires History(es)
    ensures Known(Replay(es))
    ensures MeetsClosed(Replay(es)) <==> exists c :: Left(es, c) && Supervised(es, c) && !LastAsController(es, c)
  {
    var r := Replay(es);
    forall c ensures c in r.controllers && c in r.clients && !r.clients[c].open
                <==> Left(es, c) && Supervised(es, c) && !LastAsController(es, c) {
      ClosedIff(es, c);
      ControllersAre(es, c);
    }
    AlwaysKnown(es);
    if exists c :: Left(es, c) && Supervised(es, c) && !LastAsController(es, c) {
      var c: nat :| Left(es, c) && Supervised(es, c) && !LastAsController(es, c);
      assert c in r.controllers;
    }
  }

  lemma {:induction false} AlwaysKnown(es: seq<Event>)
    requires History(es)
    ensures Known(Replay(es))
  {
    if es != [] { AlwaysKnown(es[..|es| - 1]); }
  }

  // ---- Safety ----

  /** The AUTHs that unregistering undoes. */
  predicate Clean(role: Role, deviceId: string) {
    (role.Agent? && deviceId != "") || role.Controller?
  }

  /** A clean AUTH, and the same one again if it is not the connection's first. */
  predicate CleanEvent(r: Roster, e: Event) {
    e.Authed? ==>
      && Clean(e.role, e.deviceId)
      && (e.c in r.clients && r.clients[e.c].authed ==>
            r.clients[e.c].role == e.role && r.clients[e.c].deviceId == e.deviceId)
  }

  /** Every AUTH of the history is clean and no connection ever changes its identity. */
  predicate Steady(es: seq<Event>) {
    && (forall i | 0 <= i < |es| && es[i].Authed? :: Clean(es[i].role, es[i].deviceId))
    && (forall i, j | 0 <= i < j < |es| && es[i].Authed? && es[j].Authed? && es[i].c == es[j].c :: es[i] == es[j])
  }

  ghost predicate Safe(r: Roster) {
    && (forall c | c in r.clients :: |r.clients[c].buffer| <= CAPACITY)
    && (forall c | c in r.controllers ::
          c in r.clients && r.clients[c].open && r.clients[c].authed && r.clients[c].role.Controller?)
    && (forall d | d in r.agents ::
          && d != "" && r.agents[d] in r.clients && d in r.status && r.status[d].Online?
          && r.clients[r.agents[d]].open && r.clients[r.agents[d]].authed
          && r.clients[r.agents[d]].role.Agent? && r.clients[r.agents[d]].deviceId == d)
  }

  lemma BroadcastSafe(r: Roster, m: Envelope)
    requires Safe(r)
    ensures Safe(Broadcast(r, m))
  {
  }

  lemma AuthenticateSafe(r: Roster, c: nat, role: Role, d: string)
    requires Safe(r) && Possible(r, Authed(c, role, d)) && CleanEvent(r, Authed(c, role, d))
    ensures Safe(Authenticate(r, c, role, d))
  {
  }

  lemma DeregisterSafe(r: Roster, c: nat)
    requires Safe(r) && c in r.clients
    ensures Safe(Deregister(r, c))
  {
  }

  lemma StepSafe(r: Roster, e: Event)
    requires Safe(r) && Possible(r, e) && CleanEvent(r, e)
    ensures Safe(After(r, e))
  {
    match e
    case Connected(c) =>
    case Authed(c, role, d) => AuthenticateSafe(r, c, role, d);
    case Unregistered(c) => DeregisterSafe(r, c);
    case Broadcasted(m) => BroadcastSafe(r, m);
  }

  lemma SteadyStep(es: seq<Event>)
    requires es != [] && History(es) && Steady(es)
    ensures Steady(es[..|es| - 1]) && CleanEvent(Replay(es[..|es| - 1]), es[|es| - 1])
  {
    var n := |es| - 1;
    var r, e := Replay(es[..n]), es[n];
    assert forall i | 0 <= i < n :: es[..n][i] == es[i];
    if e.Authed? && e.c in r.clients && r.clients[e.c].authed {
      Identity(es[..n], e.c);
      var i :| 0 <= i < n && es[..n][i] == LastAuth(es[..n], e.c).value;
    }
  }

  /** In every steady history, everything registered has an open outbox of at most 64 messages. */
  lemma {:induction false} AlwaysSafe(es: seq<Event>)
    requires History(es) && Steady(es)
    ensures Safe(Replay(es))
    ensures forall c | c in Replay(es).clients && Listed(Replay(es), c) :: Replay(es).clients[c].open
  {
    if es != [] {
      var n := |es| - 1;
      SteadyStep(es);
      AlwaysSafe(es[..n]);
      StepSafe(Replay(es[..n]), es[n]);
    }
  }

  /** There, being registered is having made the device's last AUTH and not having left. */
  lemma SteadyAuthWins(es: seq<Event>, c: nat, d: string)
    requires History(es) && Steady(es)
    ensures d in Replay(es).agents && Replay(es).agents[d] == c <==> Owner(es, c, d) && !Left(es, c)
  {
    LastAuthWins(es, c, d);
    if Owner(es, c, d) && Left(es, c) {
      var i :| Holds(es, i, c, d);
      ClosedIff(es, c);
      Identity(es, c);
      AuthIsLast(es, i, c);
    }
  }

  lemma {:induction false} AuthIsLast(es: seq<Event>, i: nat, c: nat)
    requires i < |es| && AuthOf(es[i], c) && Steady(es)
    ensures LastAuth(es, c) == Some(es[i])
  {
    var n := |es| - 1;
    if !AuthOf(es[n], c) {
      assert forall j | 0 <= j < n :: es[..n][j] == es[j];
      AuthIsLast(es[..n], i, c);
    }
  }

  /** A second AUTH under another device id leaves the first entry behind. */
  lemma ReauthenticationLeavesEntry(r: Roster, c: nat, d1: string, d2: string)
    requires c in r.clients && d1 != d2 && d2 != ""
    ensures var r' := Unregister(Authenticate(Authenticate(r, c, Agent, d1), c, Agent, d2), c);
            d1 in r'.agents && r'.agents[d1] == c && !r'.clients[c].open
  {
    var r2 := Authenticate(Authenticate(r, c, Agent, d1), c, Agent, d2);
    assert r2.agents == r.agents[d1 := c][d2 := c] && c in r2.clients;
    assert r2.clients[c].role == Agent && r2.clients[c].deviceId == d2;
  }

  /** A late unregister of a replaced connection changes nothing but closing its own outbox. */
  lemma LateUnregisterHarmless(r: Roster, replaced: nat, current: nat, d: string)
    requires replaced in r.clients && replaced != current
    requires r.clients[replaced].role.Agent? && r.clients[replaced].deviceId == d
    requires d in r.agents && r.agents[d] == current
    ensures Unregister(r, replaced) == r.(clients := r.clients[replaced := r.clients[replaced].(open := false)])
  {
  }
}
