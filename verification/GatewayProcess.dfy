/**
 * The gateway process as its objects: one server with its registry, one store
 * and one forwarder with its aggregator, wired by the message callback and
 * stopped in order. Driven by any schedule it is in the state the pipeline's
 * step system says, so the whole-run results are results about these objects.
 */
module GatewayProcess {
  import opened Common
  import opened Messages
  import G = GatewayFront
  import S = Storage
  import F = Forwarder
  import FO = ForwarderObject
  import P = Pipeline

  class Gateway {
    const server: G.GatewayServer
    const store: S.RawMessageStore
    const forwarder: FO.UpstreamForwarder
    var phase: P.Phase

    ghost var received: seq<Received>
    ghost var heard: seq<P.Tagged>
    ghost var handed: seq<P.Tagged>
    ghost var frontTrace: seq<G.Event>
    ghost var storeTrace: seq<S.Event>
    ghost var fwdTrace: seq<F.Event>

    ghost function Cfg(): P.Config {
      P.Config(server.registry.thresholds, store.cfg, forwarder.cfg)
    }

    ghost function Abstract(): P.State
      reads this, server, server.registry, store, forwarder, forwarder.aggregator
    {
      P.State(server.Abstract(), store.Abstract(), forwarder.Abstract(), phase, received, heard, handed,
              frontTrace, storeTrace, fwdTrace)
    }

    ghost predicate Consistent()
      reads this, server, server.registry, store, forwarder, forwarder.aggregator
    {
      server.registry.Valid() && store.Valid() && forwarder.Valid() && forwarder.aggregator.Valid()
    }

    constructor (server: G.GatewayServer, store: S.RawMessageStore, forwarder: FO.UpstreamForwarder)
      requires server.registry.Valid() && server.Abstract() == G.INITIAL
      requires store.Valid() && store.Abstract() == S.INITIAL
      requires forwarder.Valid() && forwarder.aggregator.Valid() && forwarder.Abstract() == F.INITIAL
      ensures this.server == server && this.store == store && this.forwarder == forwarder
      ensures Consistent() && Abstract() == P.INITIAL
    {
      this.server, this.store, this.forwarder := server, store, forwarder;
      phase, received, heard, handed := P.Serving, [], [], [];
      frontTrace, storeTrace, fwdTrace := [], [], [];
    }

    /** The clock is read: time has passed for every component. */
    method Tick(ns: nat)
      requires forwarder.Valid() && forwarder.clock <= ns
      modifies `fwdTrace, forwarder`clock
      ensures forwarder.Valid() && Abstract() == P.Tick(old(Abstract()), ns)
    {
      forwarder.Tick(ns);
      fwdTrace := fwdTrace + [F.Ticked(ns)];
    }

    /** The message callback after the store has taken the message. */
    method Offer(r: Received)
      requires forwarder.Valid() && forwarder.running
      modifies `fwdTrace, forwarder
      ensures forwarder.Valid() && Abstract() == P.Offer(Cfg(), old(Abstract()), r)
    {
      var _ := forwarder.TrySubmit(r);
      fwdTrace := fwdTrace + [F.TrySubmitted(r)];
    }

    /** The server's bookkeeping of a valid line. */
    method ReadMessage(id: nat, m: Message, ms: nat, ns: nat, bytes: nat) returns (r: Received)
      requires server.registry.Valid() && forwarder.Valid()
      requires server.Listens(id) && forwarder.clock <= ns
      modifies this, server, server.registry, forwarder`clock
      ensures server.registry.Valid() && forwarder.Valid()
      ensures r == P.Annotate(old(Abstract()), m, ms, ns, bytes)
      ensures Abstract() == P.Read(old(Abstract()), id, m, ms, ns, bytes)
    {
      Tick(ns);
      r := server.ReadValid(id, m, ms, ns, bytes);
      received, frontTrace := received + [r], frontTrace + [G.Heard(id, m, ms, ns, bytes)];
      heard := heard + [P.Tagged(id, r)];
    }

    /** The server's bookkeeping of a valid line, and the call of the store's `submit`. */
    method NoteMessage(id: nat, m: Message, ms: nat, ns: nat, bytes: nat) returns (r: Received)
      requires server.registry.Valid() && store.Valid() && forwarder.Valid()
      requires server.Listens(id) && forwarder.clock <= ns && store.running
      modifies this, server, server.registry, store, forwarder`clock
      ensures server.registry.Valid() && store.Valid() && forwarder.Valid()
      ensures r == P.Annotate(old(Abstract()), m, ms, ns, bytes)
      ensures Abstract() == P.Note(Cfg(), old(Abstract()), id, m, ms, ns, bytes)
    {
      r := ReadMessage(id, m, ms, ns, bytes);
      var _ := store.Submit(r);
      storeTrace := storeTrace + [S.SubmitCalled(r)];
    }

    /** A valid line from an idle client, up to the point where its handler suspends. */
    method HandleMessage(id: nat, m: Message, ms: nat, ns: nat, bytes: nat)
      requires server.registry.Valid() && store.Valid() && forwarder.Valid()
      requires server.Listens(id) && forwarder.clock <= ns && store.running && forwarder.running
      modifies this, server, server.registry, store, forwarder
      ensures server.registry.Valid() && store.Valid() && forwarder.Valid()
      ensures Abstract() == P.Hear(Cfg(), old(Abstract()), id, m, ms, ns, bytes)
    {
      var full := |store.queue| >= store.cfg.capacity;
      var r := NoteMessage(id, m, ms, ns, bytes);
      if full {
        server.SuspendHandler(id, Some(r));
        frontTrace := frontTrace + [G.Suspended(id, r)];
      } else {
        handed := handed + [P.Tagged(id, r)];
        Offer(r);
      }
    }

    /** The store found room for a waiting handler's message. */
    method ResumeMessage(id: nat, k: nat)
      requires store.Valid() && forwarder.Valid() && forwarder.running
      requires id < |server.handlers| && k < |store.blocked| && |store.queue| < store.cfg.capacity
      modifies this, server, store, forwarder
      ensures store.Valid() && forwarder.Valid()
      ensures Abstract() == P.Offer(Cfg(), P.Resume(old(Abstract()), id, k), old(store.blocked[k]))
    {
      var r := store.blocked[k];
      handed := handed + [P.Tagged(id, r)];
      store.ResumeSubmit(k);
      server.SuspendHandler(id, None);
      frontTrace, storeTrace := frontTrace + [G.Resumed(id)], storeTrace + [S.SubmitResumed(k)];
      Offer(r);
    }

    /** One liveness pass. */
    method CheckLiveness(ns: nat, ms: nat)
      requires server.registry.Valid() && forwarder.Valid() && forwarder.clock <= ns
      modifies this, server, server.registry, forwarder
      ensures server.registry.Valid() && forwarder.Valid()
      ensures Abstract() == P.Tick(old(Abstract()), ns).(
                g := G.Check(old(server.Abstract()), server.registry.thresholds, ns, ms),
                frontTrace := old(frontTrace) + [G.Checked(ns, ms)])
    {
      Tick(ns);
      server.MonitorLiveness(ns, ms);
      frontTrace := frontTrace + [G.Checked(ns, ms)];
    }

    method StepStore(e: S.Event)
      requires store.Valid()
      modifies `storeTrace, store
      ensures store.Valid()
      ensures Abstract() == if !S.Enabled(store.cfg, old(store.Abstract()), e) then old(Abstract())
                            else old(Abstract()).(
                              store := S.Step(store.cfg, old(store.Abstract()), e),
                              storeTrace := old(storeTrace) + [e])
    {
      if S.Enabled(store.cfg, store.Abstract(), e) {
        storeTrace := storeTrace + [e];
      }
      store.Perform(e);
    }

    method StepForwarder(e: F.Event)
      requires forwarder.Valid() && forwarder.aggregator.Valid()
      modifies `fwdTrace, forwarder, forwarder.aggregator
      ensures forwarder.Valid() && forwarder.aggregator.Valid()
      ensures Abstract() == if !F.Enabled(forwarder.cfg, old(forwarder.Abstract()), e)
                            then old(Abstract())
                            else old(Abstract()).(
                              fwd := F.Step(forwarder.cfg, old(forwarder.Abstract()), e),
                              fwdTrace := old(fwdTrace) + [e])
    {
      if F.Enabled(forwarder.cfg, forwarder.Abstract(), e) {
        fwdTrace := fwdTrace + [e];
      }
      forwarder.Perform(e);
    }

    method OnHeard(e: P.Event)
      requires Consistent() && P.Ordered(Abstract()) && e.Heard?
      modifies this, server, server.registry, store, forwarder
      ensures Consistent() && Abstract() == P.After(Cfg(), old(Abstract()), e)
    {
      if server.Listens(e.id) && forwarder.clock <= e.ns && ValidMessage(e.m) {
        P.ActiveMeansUp(Abstract(), e.id);
        HandleMessage(e.id, e.m, e.ms, e.ns, e.bytes);
      }
    }

    method OnResumed(e: P.Event)
      requires Consistent() && P.Ordered(Abstract()) && e.Resumed?
      requires forall i | 0 <= i < |server.handlers| && server.handlers[i].pending.Some? ::
        server.handlers[i].open
      modifies this, server, store, forwarder
      ensures Consistent() && Abstract() == P.After(Cfg(), old(Abstract()), e)
    {
      if e.id < |server.handlers| && e.k < |store.blocked| && |store.queue| < store.cfg.capacity
         && server.handlers[e.id].pending == Some(store.blocked[e.k]) {
        P.ActiveMeansUp(Abstract(), e.id);
        ResumeMessage(e.id, e.k);
      }
    }

    method OnChecked(e: P.Event)
      requires Consistent() && e.Checked?
      modifies this, server, server.registry, forwarder
      ensures Consistent() && Abstract() == P.After(Cfg(), old(Abstract()), e)
    {
      if phase.Serving? && forwarder.clock <= e.ns {
        CheckLiveness(e.ns, e.ms);
      }
    }

    /** A client connects, sends an invalid line, or goes. */
    method OnClient(e: P.Event)
      requires Consistent() && (e.Accepted? || e.Rejected? || e.Ended?)
      modifies this, server, server.registry
      ensures Consistent() && Abstract() == P.After(Cfg(), old(Abstract()), e)
    {
      if e.Accepted? {
        if !phase.Down? {
          var _ := server.AcceptClient();
          frontTrace := frontTrace + [G.Accepted];
        }
      } else if server.Listens(e.id) {
        if e.Rejected? {
          server.RejectLine(e.fault);
          frontTrace := frontTrace + [G.Rejected(e.id, e.fault)];
        } else {
          server.CloseClient(e.id, e.ending);
          frontTrace := frontTrace + [G.Ended(e.id, e.ending)];
        }
      }
    }

    method OnStore(e: P.Event)
      requires Consistent() && e.StoreStep?
      modifies `storeTrace, store
      ensures Consistent() && Abstract() == P.After(Cfg(), old(Abstract()), e)
    {
      if !e.s.SubmitCalled? && !e.s.SubmitResumed? && (e.s.StopCalled? ==> forwarder.stopper.Stopped?) {
        StepStore(e.s);
      }
    }

    method OnForwarder(e: P.Event)
      requires Consistent() && e.ForwarderStep?
      modifies `fwdTrace, forwarder, forwarder.aggregator
      ensures Consistent() && Abstract() == P.After(Cfg(), old(Abstract()), e)
    {
      if !e.f.SubmitCalled? && !e.f.SubmitResumed? && !e.f.TrySubmitted?
         && (e.f.StopCalled? ==> phase.Down?) {
        StepForwarder(e.f);
      }
    }

    /** Shutdown: stop serving, then wait for every handler to end. */
    method OnClose(e: P.Event)
      requires Consistent() && (e.CloseCalled? || e.AllClosed?)
      requires server.stats.active == G.OpenCount(server.handlers)
      modifies `phase
      ensures Consistent() && Abstract() == P.After(Cfg(), old(Abstract()), e)
    {
      if e.CloseCalled? && phase.Serving? {
        phase := P.Closing;
      } else if e.AllClosed? && phase.Closing? && server.stats.active == 0 {
        phase := P.Down;
      }
    }

    /** Whatever the event loop schedules next, if it can happen now. */
    method Perform(e: P.Event)
      requires Consistent() && P.Ordered(Abstract()) && G.CountsMatch(server.Abstract())
      modifies this, server, server.registry, store, forwarder, forwarder.aggregator
      ensures Consistent() && Abstract() == P.After(Cfg(), old(Abstract()), e)
    {
      match e {
        case Heard(_, _, _, _, _) => OnHeard(e);
        case Resumed(_, _) => OnResumed(e);
        case Checked(_, _) => OnChecked(e);
        case StoreStep(_) => OnStore(e);
        case ForwarderStep(_) => OnForwarder(e);
        case CloseCalled => OnClose(e);
        case AllClosed => OnClose(e);
        case _ => OnClient(e);
      }
    }
  }

  lemma Reachable(cfg: P.Config, es: seq<P.Event>)
    requires P.ValidConfig(cfg)
    ensures P.Ordered(P.Run(cfg, es)) && G.CountsMatch(P.Run(cfg, es).g)
  {
    P.RunKeeps(cfg, es);
  }

  /** A gateway process driven by any schedule is in the state the pipeline says. */
  method Drive(gateway: Gateway, schedule: seq<P.Event>)
    requires gateway.Consistent() && gateway.Abstract() == P.INITIAL && P.ValidConfig(gateway.Cfg())
    modifies gateway, gateway.server, gateway.server.registry, gateway.store, gateway.forwarder,
             gateway.forwarder.aggregator
    ensures gateway.Consistent() && gateway.Abstract() == P.Run(gateway.Cfg(), schedule)
  {
    for i := 0 to |schedule|
      invariant gateway.Consistent() && gateway.Abstract() == P.Run(gateway.Cfg(), schedule[..i])
    {
      Reachable(gateway.Cfg(), schedule[..i]);
      P.RunSnoc(gateway.Cfg(), schedule[..i], schedule[i]);
      assert schedule[..i + 1] == schedule[..i] + [schedule[i]];
      gateway.Perform(schedule[i]);
    }
    assert schedule[..|schedule|] == schedule;
  }
}
