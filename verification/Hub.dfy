/** The hub object: the registry kept in place, with broadcasts as loops over the controllers. */
module Hub {
  import opened Outbox
  import opened Registry

  class Hub {
    var agents: map<string, nat>
    var controllers: set<nat>
    var clients: map<nat, Client>
    var status: map<string, DeviceStatus>

    function Value(): Roster
      reads this
    {
      Roster(agents, controllers, clients, status)
    }

    constructor ()
      ensures Value() == EMPTY
    {
      agents, controllers, clients, status := map[], {}, map[], map[];
    }

    method HandleWS(c: nat)
      requires c !in clients
      modifies this
      ensures Value() == Connect(old(Value()), c)
      ensures clients.Keys == old(clients).Keys + {c} && forall x | x in old(clients) :: clients[x] == old(clients)[x]
      ensures clients[c].open && clients[c].buffer == [] && !clients[c].authed
    {
      clients := clients[c := Client(Unknown(""), "", false, true, [])];
    }

    /** A non-blocking send; on a closed channel it panics. */
    method Send(c: nat, m: Envelope) returns (panicked: bool)
      requires c in clients
      modifies this`clients
      ensures panicked <==> !old(clients)[c].open
      ensures clients == if panicked then old(clients) else old(clients)[c := Offered(old(clients)[c], m)]
    {
      panicked := !clients[c].open;
      if !panicked && |clients[c].buffer| < CAPACITY {
        clients := clients[c := clients[c].(buffer := clients[c].buffer + [m])];
      }
    }

    /** Reaches every controller, or panics on the way: just when one of them has a closed channel. */
    method BroadcastToControllers(m: Envelope) returns (panicked: bool)
      requires Known(Value())
      modifies this`clients
      ensures panicked <==> MeetsClosed(old(Value()))
      ensures !panicked ==> Value() == Broadcast(old(Value()), m)
    {
      panicked := false;
      var rest := controllers;
      while rest != {} && !panicked
        invariant rest <= controllers && clients.Keys == old(clients).Keys
        invariant panicked ==> MeetsClosed(old(Value()))
        invariant !panicked ==> forall c | c in controllers - rest :: old(clients)[c].open
        invariant !panicked ==> forall c | c in clients ::
                    clients[c] == if c in controllers && c !in rest then Offered(old(clients)[c], m)
                                  else old(clients)[c]
        decreases |rest|, !panicked
      {
        var c :| c in rest;
        panicked := Send(c, m);
        rest := rest - {c};
      }
      if !panicked {
        assert clients == Broadcast(old(Value()), m).clients;
      }
    }

    /**
     An accepted AUTH, the first or a later one of a connection that is still open. Announcing an
     agent panics if a controller is left with a closed channel, which a safe registry excludes.
     */
    method HandleAuth(c: nat, role: Role, deviceId: string) returns (panicked: bool)
      requires Known(Value()) && Possible(Value(), Authed(c, role, deviceId))
      modifies this
      ensures panicked <==> role.Agent? && MeetsClosed(old(Value()))
      ensures !panicked ==> Value() == Authenticate(old(Value()), c, role, deviceId) && Known(Value())
      ensures old(Safe(Value())) && CleanEvent(old(Value()), Authed(c, role, deviceId)) ==> !panicked && Safe(Value())
    {
      ghost var start := Value();
      if Safe(start) && CleanEvent(start, Authed(c, role, deviceId)) { AuthenticateSafe(start, c, role, deviceId); }
      panicked := false;
      clients := clients[c := clients[c].(role := role, deviceId := deviceId, authed := true)];
      if role.Agent? {
        agents := agents[deviceId := c];
        status := status[deviceId := Online];
        assert MeetsClosed(Value()) <==> MeetsClosed(start);
        panicked := BroadcastToControllers(StatusChange(deviceId, Online));
      } else {
        controllers := controllers + {c};
      }
    }

    /** The end of a connection: leave the registry, announce the device OFFLINE, close the channel, still open. */
    method Unregister(c: nat) returns (panicked: bool)
      requires Known(Value()) && Possible(Value(), Unregistered(c))
      modifies this
      ensures panicked <==> Announces(old(Value()), c) && MeetsClosed(old(Value()))
      ensures !panicked ==> Value() == Registry.Unregister(old(Value()), c) && Known(Value())
      ensures old(Safe(Value())) ==> !panicked && Safe(Value())
    {
      if Safe(Value()) { StepSafe(Value(), Unregistered(c)); }
      var me := clients[c];
      panicked := false;
      if me.role.Agent? && me.deviceId != "" {
        if me.deviceId in agents && agents[me.deviceId] == c {
          agents := agents - {me.deviceId};
          status := status[me.deviceId := Offline];
          panicked := BroadcastToControllers(StatusChange(me.deviceId, Offline));
        }
      } else if me.role.Controller? {
        controllers := controllers - {c};
      }
      if !panicked {
        clients := clients[c := clients[c].(open := false)];
      }
    }
  }
}
