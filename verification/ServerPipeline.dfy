/** The accept pipeline: where every accepted connection is, and that it is handled once and closed. */
module ServerPipeline {
  import opened Base
  import opened ConnectionSlots
  import opened Servers
  import opened ServerMarks
  import opened ServerSlots

  // ---------------------------------------------------------------------------
  // Places
  // ---------------------------------------------------------------------------

  ghost predicate QueueRight(p: Pipe, conns: map<nat, Handler>) {
    && (forall i | 0 <= i < |p.queue| :: p.queue[i] in conns && conns[p.queue[i]].pc.Queued?)
    && (forall i, j | 0 <= i < j < |p.queue| :: p.queue[i] != p.queue[j])
    && (forall c <- conns :: conns[c].pc.Queued? ==> c in p.queue)
  }

  ghost predicate LoopRight(p: Pipe, conns: map<nat, Handler>) {
    && (p.loop.Holding? ==> p.loop.conn in conns && conns[p.loop.conn].pc.AtLoop?)
    && (forall c <- conns :: conns[c].pc.AtLoop? ==> p.loop == Holding(c))
  }

  ghost predicate Serves(workers: map<nat, Worker>, w: nat, c: nat) {
    w in workers && workers[w] == Busy(c)
  }

  ghost predicate WorkersRight(workers: map<nat, Worker>, conns: map<nat, Handler>) {
    && (forall w, c | Serves(workers, w, c) :: c in conns && InHandler(conns[c].pc))
    && (forall w, v, c | Serves(workers, w, c) && Serves(workers, v, c) :: w == v)
    && (forall c <- conns :: InHandler(conns[c].pc) ==> exists w :: Serves(workers, w, c))
  }

  ghost predicate Orderly(cfg: Config, s: Server) {
    && QueueRight(s.pipe, s.conns) && LoopRight(s.pipe, s.conns) && WorkersRight(s.pipe.workers, s.conns)
    && |s.pipe.workers| == cfg.maxWorkers && |s.pipe.queue| <= cfg.maxPending
    && (forall w <- s.pipe.workers :: s.pipe.workers[w].Exited? ==> s.pipe.loop.Returned? && s.pipe.queue == [])
  }

  /** A step that moves one connection between places outside the workers. */
  lemma OutsideWorkers(workers: map<nat, Worker>, conns: map<nat, Handler>, c: nat, h: Handler)
    requires WorkersRight(workers, conns) && !InHandler(h.pc) && (c in conns ==> !InHandler(conns[c].pc))
    ensures WorkersRight(workers, conns[c := h])
  {
    var conns' := conns[c := h];
    forall w, d | Serves(workers, w, d)
      ensures d in conns' && InHandler(conns'[d].pc)
    {
      assert d != c;
    }
  }

  /** A connection that stays in its handler. */
  lemma InsideWorkers(p: Pipe, conns: map<nat, Handler>, c: nat, h: Handler)
    requires c in conns && InHandler(conns[c].pc) && InHandler(h.pc)
    requires QueueRight(p, conns) && LoopRight(p, conns) && WorkersRight(p.workers, conns)
    ensures QueueRight(p, conns[c := h]) && LoopRight(p, conns[c := h]) && WorkersRight(p.workers, conns[c := h])
  {
  }

  lemma AcceptOrderly(cfg: Config, s: Server, c: nat, h: Handler)
    requires Orderly(cfg, s) && s.pipe.loop.Accepting? && c !in s.conns && h.pc.AtLoop?
    ensures Orderly(cfg, s.(pipe := s.pipe.(loop := Holding(c)), conns := s.conns[c := h]))
  {
    hide WorkersRight;
    OutsideWorkers(s.pipe.workers, s.conns, c, h);
  }

  lemma EnqueueOrderly(cfg: Config, s: Server, c: nat)
    requires Orderly(cfg, s) && s.pipe.loop == Holding(c) && |s.pipe.queue| < cfg.maxPending
    ensures Orderly(cfg, s.(pipe := s.pipe.(loop := Selecting, queue := s.pipe.queue + [c]),
                            conns := s.conns[c := s.conns[c].(pc := Queued)]))
  {
    hide WorkersRight;
    OutsideWorkers(s.pipe.workers, s.conns, c, s.conns[c].(pc := Queued));
    QueueGrows(s.pipe, s.conns, c, Selecting);
    hide QueueRight;
  }

  lemma QueueGrows(p: Pipe, conns: map<nat, Handler>, c: nat, loop: Loop)
    requires QueueRight(p, conns) && c in conns && !conns[c].pc.Queued?
    ensures QueueRight(p.(loop := loop, queue := p.queue + [c]), conns[c := conns[c].(pc := Queued)])
  {
  }

  lemma TurnAwayOrderly(cfg: Config, s: Server, c: nat, loop: Loop)
    requires Orderly(cfg, s) && s.pipe.loop == Holding(c) && !loop.Holding?
    ensures Orderly(cfg, s.(pipe := s.pipe.(loop := loop), conns := s.conns[c := s.conns[c].(pc := Closed)]))
  {
    hide WorkersRight;
    OutsideWorkers(s.pipe.workers, s.conns, c, s.conns[c].(pc := Closed));
  }

  lemma WorkerTakes(workers: map<nat, Worker>, conns: map<nat, Handler>, w: nat, c: nat, h: Handler)
    requires WorkersRight(workers, conns) && w in workers && !workers[w].Busy?
    requires c in conns && !InHandler(conns[c].pc) && InHandler(h.pc)
    ensures WorkersRight(workers[w := Busy(c)], conns[c := h])
  {
    var workers', conns' := workers[w := Busy(c)], conns[c := h];
    assert Serves(workers', w, c);
    forall v, d | Serves(workers', v, d)
      ensures d in conns' && InHandler(conns'[d].pc) && (d == c ==> v == w)
    {
      assert v != w ==> Serves(workers, v, d);
    }
    forall v, u, d | Serves(workers', v, d) && Serves(workers', u, d)
      ensures v == u
    {
      if d != c {
        assert Serves(workers, v, d) && Serves(workers, u, d);
      }
    }
    forall d | d in conns' && InHandler(conns'[d].pc)
      ensures exists v :: Serves(workers', v, d)
    {
      if d != c {
        var v :| Serves(workers, v, d);
        assert Serves(workers', v, d);
      }
    }
  }

  lemma WithoutFirst(queue: seq<nat>)
    requires queue != [] && forall i, j | 0 <= i < j < |queue| :: queue[i] != queue[j]
    ensures var c, rest := queue[0], queue[1..];
            && (forall i, j | 0 <= i < j < |rest| :: rest[i] != rest[j])
            && c !in rest && (forall d :: d in queue <==> d == c || d in rest)
  {
    var c, rest := queue[0], queue[1..];
    assert forall i | 0 <= i < |rest| :: rest[i] == queue[i + 1];
    assert queue == [c] + rest;
  }

  lemma QueueShrinks(p: Pipe, conns: map<nat, Handler>, h: Handler, workers: map<nat, Worker>)
    requires QueueRight(p, conns) && p.queue != [] && !h.pc.Queued?
    ensures QueueRight(p.(queue := p.queue[1..], workers := workers), conns[p.queue[0] := h])
  {
    WithoutFirst(p.queue);
    var c, rest := p.queue[0], p.queue[1..];
    forall i | 0 <= i < |rest|
      ensures rest[i] in conns[c := h] && conns[c := h][rest[i]].pc.Queued?
    {
      assert rest[i] in rest && rest[i] == p.queue[i + 1];
    }
  }

  lemma TakeOrderly(cfg: Config, s: Server, w: nat, h: Handler)
    requires Orderly(cfg, s) && w in s.pipe.workers && s.pipe.workers[w].Idle? && s.pipe.queue != [] && InHandler(h.pc)
    ensures var c := s.pipe.queue[0];
            Orderly(cfg, s.(pipe := s.pipe.(queue := s.pipe.queue[1..], workers := s.pipe.workers[w := Busy(c)]),
                            conns := s.conns[c := h]))
  {
    var c := s.pipe.queue[0];
    assert s.conns[c].pc.Queued?;
    hide WorkersRight, QueueRight;
    WorkerTakes(s.pipe.workers, s.conns, w, c, h);
    QueueShrinks(s.pipe, s.conns, h, s.pipe.workers[w := Busy(c)]);
  }

  lemma WorkerEnds(workers: map<nat, Worker>, conns: map<nat, Handler>, w: nat, next: Worker, c: nat, h: Handler)
    requires WorkersRight(workers, conns) && Serves(workers, w, c) && !next.Busy? && h.pc.Closed?
    ensures WorkersRight(workers[w := next], conns[c := h])
  {
    var workers', conns' := workers[w := next], conns[c := h];
    forall v, d | Serves(workers', v, d)
      ensures Serves(workers, v, d) && d != c
    {
      assert Serves(workers, v, d);
    }
    forall d | d in conns' && InHandler(conns'[d].pc)
      ensures exists v :: Serves(workers', v, d)
    {
      var v :| Serves(workers, v, d);
      assert Serves(workers', v, d);
    }
  }

  lemma FinishOrderly(cfg: Config, s: Server, w: nat, c: nat)
    requires Orderly(cfg, s) && Serves(s.pipe.workers, w, c)
    ensures c in s.conns
    ensures Orderly(cfg, s.(pipe := s.pipe.(workers := s.pipe.workers[w := Idle]),
                            conns := s.conns[c := s.conns[c].(pc := Closed)]))
  {
    WorkerEnds(s.pipe.workers, s.conns, w, Idle, c, s.conns[c].(pc := Closed));
    assert InHandler(s.conns[c].pc);
    hide WorkersRight;
  }

  lemma ExitOrderly(cfg: Config, s: Server, w: nat)
    requires Orderly(cfg, s) && w in s.pipe.workers && s.pipe.workers[w].Idle?
    requires s.pipe.loop.Returned? && s.pipe.queue == []
    ensures Orderly(cfg, s.(pipe := s.pipe.(workers := s.pipe.workers[w := Exited])))
  {
    var workers := s.pipe.workers[w := Exited];
    assert forall v, c :: Serves(workers, v, c) <==> Serves(s.pipe.workers, v, c);
    hide QueueRight, LoopRight;
  }

  lemma LoopOrderly(cfg: Config, s: Server, p: Pipe)
    requires Orderly(cfg, s) && p.queue == s.pipe.queue && p.workers == s.pipe.workers
    requires p.loop == s.pipe.loop || (!s.pipe.loop.Holding? && !s.pipe.loop.Returned? && !p.loop.Holding?)
    ensures Orderly(cfg, s.(pipe := p))
  {
    hide WorkersRight;
  }

  lemma PipeKeepsOrder(cfg: Config, s: Server, a: Action, s': Server)
    requires Orderly(cfg, s) && PipeStep(cfg, s, a, s')
    ensures Orderly(cfg, s')
  {
    hide Orderly;
    match a
    case Accept(c, addr) => AcceptOrderly(cfg, s, c, Arrived(addr, s.sh.clock));
    case Enqueue => EnqueueOrderly(cfg, s, s.pipe.loop.conn);
    case GiveUp => TurnAwayOrderly(cfg, s, s.pipe.loop.conn, Returned);
    case TurnAway => TurnAwayOrderly(cfg, s, s.pipe.loop.conn, Selecting);
    case Take(w) =>
      TakeOrderly(cfg, s, w, Started(s.conns[s.pipe.queue[0]], s.sh.clock));
      SameOrder(cfg, s', s.log);
    case Finish(w) => FinishOrderly(cfg, s, w, s.pipe.workers[w].conn);
    case Exit(w) => ExitOrderly(cfg, s, w);
    case _ => LoopOrderly(cfg, s, s'.pipe);
  }

  lemma SameOrder(cfg: Config, s: Server, log: seq<Event>)
    requires Orderly(cfg, s.(log := log))
    ensures Orderly(cfg, s)
  {
  }

  lemma HandleKeepsOrder(cfg: Config, s: Server, c: nat, ch: Choice, s': Server)
    requires Orderly(cfg, s) && Step(cfg, s, Handle(c, ch), s')
    ensures Orderly(cfg, s')
  {
    hide HandlerStep, QueueRight, LoopRight, WorkersRight, After;
    StaysInHandler(cfg, s.sh, s.conns[c], ch);
    InsideWorkers(s.pipe, s.conns, c, After(cfg, s.sh, s.conns[c], ch));
  }

  lemma StaysInHandler(cfg: Config, sh: Shared, h: Handler, ch: Choice)
    requires Running(h.pc)
    ensures InHandler(After(cfg, sh, h, ch).pc)
  {
    hide NextGround, NextClient, IPFull, ClientIsFull, FirewallAllows, LeavePc, FailNextPc;
    assert After(cfg, sh, h, ch).pc == NextPc(cfg, sh, h, ch);
    LeavesInHandler(h);
  }

  lemma LeavesInHandler(h: Handler)
    ensures InHandler(LeavePc(h)) && InHandler(FailNextPc(h))
  {
  }

  // ---------------------------------------------------------------------------
  // Every reachable state
  // ---------------------------------------------------------------------------

  ghost predicate Tidy(cfg: Config, s: Server) {
    Orderly(cfg, s) && Once(s) && SlotsKept(cfg, s)
  }

  lemma OrderlyPlaced(cfg: Config, s: Server)
    requires Orderly(cfg, s)
    ensures Placed(s)
  {
    hide WorkersRight;
  }

  lemma SameOrderly(cfg: Config, s: Server, s': Server)
    requires Orderly(cfg, s) && s'.pipe == s.pipe && s'.conns == s.conns
    ensures Orderly(cfg, s')
  {
  }

  lemma TidyPlaced(cfg: Config, s: Server)
    requires Tidy(cfg, s)
    ensures Placed(s)
  {
    hide Orderly, Once, SlotsKept, Placed;
    OrderlyPlaced(cfg, s);
  }

  lemma StepKeepsTidy(cfg: Config, s: Server, a: Action, s': Server)
    requires Tidy(cfg, s) && Step(cfg, s, a, s')
    ensures Tidy(cfg, s')
  {
    hide Orderly, Once, SlotsKept, PipeStep, HandlerStep, KnockStep, PacketStep, Placed;
    OrderlyPlaced(cfg, s);
    StepKeepsSlots(cfg, s, a, s');
    StepKeepsOnce(cfg, s, a, s');
    match a
    case Handle(c, ch) => HandleKeepsOrder(cfg, s, c, ch, s');
    case Knock(_, _) => SameOrderly(cfg, s, s');
    case Tick(_) => SameOrderly(cfg, s, s');
    case PacketArrives(_, _) => SameOrderly(cfg, s, s');
    case Packet(_, _) => SameOrderly(cfg, s, s');
    case KnockArrives(_, _, _, _) => SameOrderly(cfg, s, s');
    case _ => PipeKeepsOrder(cfg, s, a, s');
  }

  lemma InitTidy(cfg: Config, s: Server)
    requires Init(cfg, s) && Sensible(cfg)
    ensures Tidy(cfg, s)
  {
    assert HeldIPs(s.conns) == map[] && HeldClients(s.conns) == map[];
  }

  lemma {:induction false} TidyAlways(cfg: Config, r: Run, i: nat)
    requires Valid(cfg, r) && i <= |r.actions|
    ensures Tidy(cfg, r.states[i])
  {
    hide Step, Init, Tidy;
    if i == 0 {
      InitTidy(cfg, r.states[0]);
    } else {
      TidyAlways(cfg, r, i - 1);
      assert StepAt(cfg, r, i - 1);
      StepKeepsTidy(cfg, r.states[i - 1], r.actions[i - 1], r.states[i]);
    }
  }

  // ---------------------------------------------------------------------------
  // What that means
  // ---------------------------------------------------------------------------

  /** How often a value occurs. */
  function Occurrences(queue: seq<nat>, c: nat): nat {
    if queue == [] then 0 else Occurrences(queue[1..], c) + if queue[0] == c then 1 else 0
  }

  lemma {:induction false} OccursOnce(queue: seq<nat>, c: nat)
    requires forall i, j | 0 <= i < j < |queue| :: queue[i] != queue[j]
    ensures Occurrences(queue, c) == if c in queue then 1 else 0
  {
    if queue != [] {
      var rest := queue[1..];
      assert queue == [queue[0]] + rest;
      assert forall i | 0 <= i < |rest| :: rest[i] == queue[i + 1];
      OccursOnce(rest, c);
    }
  }

  /**
   * Every accepted connection is in exactly one place: with the accept loop, once in
   * the queue, with exactly one worker, or closed.
   */
  lemma InOnePlace(cfg: Config, r: Run, i: nat, c: nat)
    requires Valid(cfg, r) && i <= |r.actions| && c in r.states[i].conns
    ensures var s := r.states[i]; var pc := s.conns[c].pc;
            && (s.pipe.loop == Holding(c) <==> pc.AtLoop?)
            && Occurrences(s.pipe.queue, c) == (if pc.Queued? then 1 else 0)
            && ((exists w :: Serves(s.pipe.workers, w, c)) <==> InHandler(pc))
            && (forall w, v | Serves(s.pipe.workers, w, c) && Serves(s.pipe.workers, v, c) :: w == v)
            && |s.pipe.queue| <= cfg.maxPending && |s.pipe.workers| == cfg.maxWorkers
  {
    hide Init, StepAt, Once, SlotsKept;
    TidyAlways(cfg, r, i);
    var s := r.states[i];
    OccursOnce(s.pipe.queue, c);
  }

  /**
   * A connection is given to a worker at most once, a knock or a packet is taken up at most
   * once, and every check of a ban, by a handler for its IP or for its client, by a knock or
   * by a packet, is passed at most once.
   */
  lemma HandledAtMostOnce(cfg: Config, r: Run, i: nat, x: nat, y: nat)
    requires Valid(cfg, r) && i <= |r.actions| && x < y < |r.states[i].log|
    ensures var log := r.states[i].log;
            && (log[x].Begun? && log[y].Begun? ==> log[x].who != log[y].who)
            && (log[x].Passed? && log[y].Passed? ==> log[x].check != log[y].check)
  {
    hide Init, StepAt, Orderly, SlotsKept, NotYet;
    TidyAlways(cfg, r, i);
    var log := r.states[i].log;
    assert log[x].Begun? ==> Marks(log[x], Start(log[x].who)) && !Marks(log[y], Start(log[x].who));
    assert log[x].Passed? ==> Marks(log[x], Pass(log[x].check)) && !Marks(log[y], Pass(log[x].check));
  }

  /**
   * The accept loop lets go of a connection by queueing it, which needs room, or by closing
   * it, and that only when the queue is full or the server is cancelled.
   */
  lemma ClosedOnlyWhenFull(cfg: Config, r: Run, i: nat, c: nat)
    requires Valid(cfg, r) && i < |r.actions| && c in r.states[i].conns && r.states[i].conns[c].pc.AtLoop?
    ensures c in r.states[i + 1].conns
    ensures var p, pc := r.states[i].pipe, r.states[i + 1].conns[c].pc;
            && (pc.AtLoop? || pc.Queued? || pc.Closed?)
            && (pc.Queued? ==> |p.queue| < cfg.maxPending)
            && (pc.Closed? ==> |p.queue| == cfg.maxPending || p.cancelled)
  {
    hide Init, Once, SlotsKept;
    TidyAlways(cfg, r, i);
    assert StepAt(cfg, r, i);
    LeavesLoop(cfg, r.states[i], r.actions[i], r.states[i + 1], c);
  }

  lemma LeavesLoop(cfg: Config, s: Server, a: Action, s': Server, c: nat)
    requires Step(cfg, s, a, s') && c in s.conns && s.conns[c].pc.AtLoop? && |s.pipe.queue| <= cfg.maxPending
    requires QueueRight(s.pipe, s.conns)
    ensures c in s'.conns
    ensures var p, pc := s.pipe, s'.conns[c].pc;
            && (pc.AtLoop? || pc.Queued? || pc.Closed?)
            && (pc.Queued? ==> |p.queue| < cfg.maxPending)
            && (pc.Closed? ==> |p.queue| == cfg.maxPending || p.cancelled)
  {
    hide HandlerStep, KnockStep, PacketStep, HandlerEvents, KnockEvents, PacketEvents, After, Started, KnockContinue,
      PacketContinue, QueueRight;
    if a.Take? {
      assert s.pipe.queue[0] != c by {
        FirstIsQueued(s.pipe, s.conns);
      }
    }
  }

  lemma FirstIsQueued(p: Pipe, conns: map<nat, Handler>)
    requires QueueRight(p, conns) && p.queue != []
    ensures p.queue[0] in conns && conns[p.queue[0]].pc.Queued?
  {
  }

  /** The loop has returned and every worker has stopped. */
  ghost predicate Terminated(s: Server) {
    s.pipe.loop.Returned? && forall w <- s.pipe.workers :: s.pipe.workers[w].Exited?
  }

  /** When the server is done, every connection it ever accepted is closed, and no slot is taken. */
  lemma AllClosedAtTheEnd(cfg: Config, r: Run, i: nat)
    requires Valid(cfg, r) && i <= |r.actions| && Terminated(r.states[i])
    ensures forall c <- r.states[i].conns :: r.states[i].conns[c].pc.Closed?
    ensures r.states[i].sh.slots == NONE
  {
    hide Init, StepAt, Once, SlotsKept;
    TidyAlways(cfg, r, i);
    var s := r.states[i];
    SomeWorker(s.pipe.workers, cfg.maxWorkers);
    forall c | c in s.conns
      ensures s.conns[c].pc.Closed?
    {
      assert forall w :: !Serves(s.pipe.workers, w, c);
    }
    NothingHeld(cfg, s);
  }

  lemma SomeWorker(workers: map<nat, Worker>, n: nat)
    requires |workers| == n > 0
    ensures exists w :: w in workers
  {
    assert workers.Keys != {};
  }

  lemma NothingHeld(cfg: Config, s: Server)
    requires SlotsKept(cfg, s) && forall c <- s.conns :: s.conns[c].pc.Closed?
    ensures s.sh.slots == NONE
  {
    assert HeldIPs(s.conns) == map[] by {
      assert forall c <- s.conns :: SlotShape(s.conns[c]) && !s.conns[c].ipSlot;
    }
    assert HeldClients(s.conns) == map[] by {
      assert forall c <- s.conns :: SlotShape(s.conns[c]) && !s.conns[c].clientSlot;
    }
    assert s.sh.slots.byIP == map[] && s.sh.slots.byClient == map[];
  }

  /** The connections in the hands of a worker are no more than the workers. */
  lemma {:induction false} ServedByWorkers(workers: map<nat, Worker>, held: map<nat, string>)
    requires forall c <- held :: exists w :: Serves(workers, w, c)
    ensures |held| <= |workers|
    decreases |held|
  {
    if held != map[] {
      var c :| c in held;
      var w :| Serves(workers, w, c);
      RemoveSize(held, c);
      RemoveSize(workers, w);
      forall d | d in held - {c}
        ensures exists v :: Serves(workers - {w}, v, d)
      {
        var v :| Serves(workers, v, d);
        assert Serves(workers - {w}, v, d);
      }
      ServedByWorkers(workers - {w}, held - {c});
    }
  }

  /**
   * Slot conservation, in every interleaving: the global counter is the number of
   * handlers that hold an IP slot and the sum of the counters per IP; the counters per
   * client add up to the handlers that hold a client slot, which are among the former;
   * there is a counter for exactly the IPs and clients that hold a slot; and no counter is
   * ever above its limit.
   */
  lemma SlotsConserved(cfg: Config, r: Run, i: nat)
    requires Valid(cfg, r) && i <= |r.actions|
    ensures var s := r.states[i]; var slots := s.sh.slots;
            && slots.global == Total(slots.byIP) == |HeldIPs(s.conns)|
            && Total(slots.byClient) == |HeldClients(s.conns)| <= slots.global
            && (forall ip :: Get(slots.byIP, ip) == Bag(HeldIPs(s.conns))[ip])
            && (forall client :: Get(slots.byClient, client) == Bag(HeldClients(s.conns))[client])
            && (forall ip :: ip in slots.byIP <==> ip in Bag(HeldIPs(s.conns)))
            && (forall client :: client in slots.byClient <==> client in Bag(HeldClients(s.conns)))
            && WithinLimits(cfg, slots)
  {
    hide Init, StepAt, Once, Orderly, Bag, WithinLimits;
    TidyAlways(cfg, r, i);
    var s := r.states[i];
    BagSize(HeldIPs(s.conns));
    BagSize(HeldClients(s.conns));
    GlobalIsSum(s.sh.slots.byIP, Bag(HeldIPs(s.conns)));
    GlobalIsSum(s.sh.slots.byClient, Bag(HeldClients(s.conns)));
    ClientsHoldIPs(s.conns);
  }

  /** Whenever no handler holds a slot, all counters are at zero and both maps are empty. */
  lemma EmptyWhenIdle(cfg: Config, r: Run, i: nat)
    requires Valid(cfg, r) && i <= |r.actions| && HeldIPs(r.states[i].conns) == map[]
    ensures r.states[i].sh.slots == NONE
  {
    hide Init, StepAt, Once, Orderly;
    TidyAlways(cfg, r, i);
    var s := r.states[i];
    assert HeldClients(s.conns) == map[] by {
      ClientsHoldIPs(s.conns);
    }
    assert s.sh.slots.byIP == map[] && s.sh.slots.byClient == map[];
  }

  lemma ClientsHoldIPs(conns: map<nat, Handler>)
    requires Shapes(conns)
    ensures |HeldClients(conns)| <= |HeldIPs(conns)| && HeldClients(conns).Keys <= HeldIPs(conns).Keys
  {
    var ips, clients := HeldIPs(conns), HeldClients(conns);
    forall c | c in clients
      ensures c in ips
    {
      assert SlotShape(conns[c]);
    }
    SubsetSize(clients.Keys, ips.Keys);
  }

  /** Never more connections hold a slot than there are workers. */
  lemma GlobalWithinWorkers(cfg: Config, r: Run, i: nat)
    requires Valid(cfg, r) && i <= |r.actions|
    ensures r.states[i].sh.slots.global <= cfg.maxWorkers
  {
    hide Init, StepAt, Tidy;
    SlotsConserved(cfg, r, i);
    TidyAlways(cfg, r, i);
    HoldersServed(cfg, r.states[i]);
  }

  lemma HoldersServed(cfg: Config, s: Server)
    requires Tidy(cfg, s)
    ensures |HeldIPs(s.conns)| <= cfg.maxWorkers
  {
    hide Once, QueueRight, LoopRight, Counts, WithinLimits;
    forall c | c in HeldIPs(s.conns)
      ensures exists w :: Serves(s.pipe.workers, w, c)
    {
      assert SlotShape(s.conns[c]);
    }
    ServedByWorkers(s.pipe.workers, HeldIPs(s.conns));
  }
}
