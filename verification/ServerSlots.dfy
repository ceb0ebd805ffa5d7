/** Slot conservation: the counters are the live handlers, in every interleaving. */
module ServerSlots {
  import opened Base
  import opened ConnectionSlots
  import opened Servers

  /** The handlers that hold an IP slot, and for which IP. */
  ghost function HeldIPs(conns: map<nat, Handler>): map<nat, string> {
    map c | c in conns && conns[c].ipSlot :: conns[c].ip
  }

  ghost function HeldClients(conns: map<nat, Handler>): map<nat, string> {
    map c | c in conns && conns[c].clientSlot :: conns[c].client
  }

  predicate BeforeClient(pc: Pc) {
    || pc.Consume? || pc.Auth? || pc.ClientBan? || pc.Lookup? || pc.Access? || pc.Check? || pc.AcquireClient?
  }

  /** Which steps hold which slots. */
  predicate SlotShape(h: Handler) {
    && (h.ipSlot <==> Running(h.pc) && !h.pc.BanCheck? && !h.pc.AcquireIP?)
    && (h.clientSlot ==> h.ipSlot)
    && (h.pc.ReleaseClient? ==> h.clientSlot)
    && (BeforeClient(h.pc) || h.pc.ReleaseIP? ==> !h.clientSlot)
  }

  ghost predicate WithinLimits(cfg: Config, s: Slots) {
    && (cfg.limits.maxGlobal > 0 ==> s.global <= cfg.limits.maxGlobal)
    && (cfg.limits.maxPerIP > 0 ==> forall ip <- s.byIP :: s.byIP[ip] <= cfg.limits.maxPerIP)
    && (cfg.limits.maxPerClient > 0 ==> forall client <- s.byClient :: s.byClient[client] <= cfg.limits.maxPerClient)
    && (cfg.limits.maxPerClient >= 0 ==>
          forall client <- s.byClient | Get(cfg.clients, client) > 0 ::
            s.byClient[client] <= Get(cfg.clients, client))
  }

  ghost predicate Shapes(conns: map<nat, Handler>) {
    forall c <- conns :: SlotShape(conns[c])
  }

  ghost predicate SlotsKept(cfg: Config, s: Server) {
    && Shapes(s.conns)
    && Counts(s.sh.slots, Bag(HeldIPs(s.conns)), Bag(HeldClients(s.conns)))
    && WithinLimits(cfg, s.sh.slots)
  }

  // ---------------------------------------------------------------------------
  // One handler changes
  // ---------------------------------------------------------------------------

  lemma ShapeGoesOn(cfg: Config, sh: Shared, h: Handler, ch: Choice)
    requires SlotShape(h) && Running(h.pc)
    ensures SlotShape(After(cfg, sh, h, ch))
  {
    hide ClientIsFull, FirewallAllows, IPFull;
  }

  /** What a step does to the slots a handler holds is what it does to the counters. */
  lemma SlotMoves(cfg: Config, sh: Shared, h: Handler, ch: Choice)
    requires SlotShape(h) && Running(h.pc)
    ensures var h' := After(cfg, sh, h, ch);
            && h'.ip == h.ip
            && (h.clientSlot && h'.clientSlot ==> h'.client == h.client)
            && (h'.ipSlot != h.ipSlot ==> h'.clientSlot == h.clientSlot)
            && (h'.ipSlot && !h.ipSlot ==> SlotsAfter(cfg, sh.slots, h) == IPTaken(sh.slots, h.ip))
            && (!h'.ipSlot && h.ipSlot ==> SlotsAfter(cfg, sh.slots, h) == IPFreed(sh.slots, h.ip))
            && (h'.clientSlot && !h.clientSlot ==> SlotsAfter(cfg, sh.slots, h) == ClientTaken(sh.slots, h'.client))
            && (!h'.clientSlot && h.clientSlot ==> SlotsAfter(cfg, sh.slots, h) == ClientFreed(sh.slots, h.client))
            && (h'.ipSlot == h.ipSlot && h'.clientSlot == h.clientSlot ==> SlotsAfter(cfg, sh.slots, h) == sh.slots)
  {
    hide ClientIsFull, FirewallAllows, IPFull, IPTaken, IPFreed, ClientTaken, ClientFreed;
  }

  lemma HeldAfter(conns: map<nat, Handler>, c: nat, h': Handler)
    requires c in conns
    ensures var m, m' := HeldIPs(conns), HeldIPs(conns[c := h']);
            m' == if h'.ipSlot then m[c := h'.ip] else m - {c}
    ensures var m, m' := HeldClients(conns), HeldClients(conns[c := h']);
            m' == if h'.clientSlot then m[c := h'.client] else m - {c}
    ensures (c in HeldIPs(conns) <==> conns[c].ipSlot) && (conns[c].ipSlot ==> HeldIPs(conns)[c] == conns[c].ip)
    ensures (c in HeldClients(conns) <==> conns[c].clientSlot)
    ensures conns[c].clientSlot ==> HeldClients(conns)[c] == conns[c].client
  {
  }

  /** A bag when one key is put in, taken out or left alone. */
  lemma BagAfter(m: map<nat, string>, m': map<nat, string>, c: nat, v: string)
    requires m' == m[c := v] || m' == m - {c}
    requires c in m ==> m[c] == v
    ensures c in m && c in m' ==> Bag(m') == Bag(m)
    ensures c !in m && c !in m' ==> Bag(m') == Bag(m)
    ensures c !in m && c in m' ==> Bag(m') == Bag(m) + multiset{v}
    ensures c in m && c !in m' ==> v in Bag(m) && Bag(m') == Bag(m) - multiset{v}
  {
    hide Bag;
    if c !in m {
      if c in m' {
        BagWith(m, c, v);
      } else {
        assert m' == m;
      }
    } else {
      BagWithout(m, c);
      assert c in m' ==> m' == m;
    }
  }

  lemma CountsMove(cfg: Config, s: Server, c: nat, ch: Choice)
    requires c in s.conns && Running(s.conns[c].pc) && SlotShape(s.conns[c])
    requires Counts(s.sh.slots, Bag(HeldIPs(s.conns)), Bag(HeldClients(s.conns)))
    ensures var conns' := s.conns[c := After(cfg, s.sh, s.conns[c], ch)];
            Counts(SlotsAfter(cfg, s.sh.slots, s.conns[c]), Bag(HeldIPs(conns')), Bag(HeldClients(conns')))
  {
    hide Counts, After, SlotsAfter, HeldIPs, HeldClients, SlotShape, IPTaken, IPFreed, ClientTaken, ClientFreed;
    var h, h' := s.conns[c], After(cfg, s.sh, s.conns[c], ch);
    var conns' := s.conns[c := h'];
    SlotMoves(cfg, s.sh, h, ch);
    HeldAfter(s.conns, c, h');
    var ips, clients := Bag(HeldIPs(s.conns)), Bag(HeldClients(s.conns));
    BagAfter(HeldIPs(s.conns), HeldIPs(conns'), c, h.ip);
    BagAfter(HeldClients(s.conns), HeldClients(conns'), c, if h.clientSlot then h.client else h'.client);
    if h'.ipSlot != h.ipSlot {
      TakeCounts(s.sh.slots, ips, clients, h.ip);
      FreeCounts(s.sh.slots, ips, clients, h.ip);
    } else if h'.clientSlot != h.clientSlot {
      TakeCounts(s.sh.slots, ips, clients, h'.client);
      FreeCounts(s.sh.slots, ips, clients, h.client);
    }
  }

  lemma LimitsOfIP(cfg: Config, s: Slots, ip: string)
    requires WithinLimits(cfg, s)
    ensures !IPFull(cfg.limits, s, ip) ==> WithinLimits(cfg, IPTaken(s, ip))
    ensures WithinLimits(cfg, IPFreed(s, ip))
  {
  }

  lemma LimitsOfClient(cfg: Config, s: Slots, client: string)
    requires WithinLimits(cfg, s)
    ensures !ClientIsFull(cfg, s, client) ==> WithinLimits(cfg, ClientTaken(s, client))
    ensures WithinLimits(cfg, ClientFreed(s, client))
  {
  }

  lemma LimitsGoOn(cfg: Config, s: Slots, h: Handler)
    requires WithinLimits(cfg, s)
    ensures WithinLimits(cfg, SlotsAfter(cfg, s, h))
  {
    hide WithinLimits, IPFull, ClientIsFull, IPTaken, IPFreed, ClientTaken, ClientFreed;
    LimitsOfIP(cfg, s, h.ip);
    LimitsOfClient(cfg, s, h.client);
  }

  // ---------------------------------------------------------------------------
  // Every step
  // ---------------------------------------------------------------------------

  lemma HandleKeepsSlots(cfg: Config, s: Server, c: nat, ch: Choice, s': Server)
    requires SlotsKept(cfg, s) && Step(cfg, s, Handle(c, ch), s')
    ensures SlotsKept(cfg, s')
  {
    hide Counts, WithinLimits, After, HeldIPs, HeldClients, SlotShape, SlotsAfter, BanPart, StorePart, Bag;
    assert SlotShape(s.conns[c]);
    ShapeGoesOn(cfg, s.sh, s.conns[c], ch);
    CountsMove(cfg, s, c, ch);
    LimitsGoOn(cfg, s.sh.slots, s.conns[c]);
  }

  /** A connection that holds no slot before and after a step of the pipeline. */
  lemma PlaceChange(conns: map<nat, Handler>, c: nat, h': Handler)
    requires Shapes(conns) && SlotShape(h') && !h'.ipSlot && (c in conns ==> !conns[c].ipSlot)
    ensures Shapes(conns[c := h'])
    ensures HeldIPs(conns[c := h']) == HeldIPs(conns) && HeldClients(conns[c := h']) == HeldClients(conns)
  {
    assert c in conns ==> SlotShape(conns[c]);
  }

  lemma PipeKeepsSlots(cfg: Config, s: Server, a: Action, s': Server)
    requires SlotsKept(cfg, s) && PipeStep(cfg, s, a, s') && Placed(s)
    ensures SlotsKept(cfg, s')
  {
    hide Counts, WithinLimits, HeldIPs, HeldClients, Bag;
    if s'.conns != s.conns {
      PlaceChange(s.conns, Subject(s, a), s'.conns[Subject(s, a)]);
    }
  }

  /** The accept loop and the queue hold what they say they hold. */
  ghost predicate Placed(s: Server) {
    && (s.pipe.loop.Holding? && s.pipe.loop.conn in s.conns ==> s.conns[s.pipe.loop.conn].pc.AtLoop?)
    && (forall i | 0 <= i < |s.pipe.queue| ::
         s.pipe.queue[i] in s.conns ==> s.conns[s.pipe.queue[i]].pc.Queued?)
  }

  lemma StepKeepsSlots(cfg: Config, s: Server, a: Action, s': Server)
    requires SlotsKept(cfg, s) && Placed(s) && Step(cfg, s, a, s')
    ensures SlotsKept(cfg, s')
  {
    hide PipeStep, HandlerStep, Counts, WithinLimits, HeldIPs, HeldClients, Bag, Placed, Shapes, BanPart, StorePart,
      RatePart;
    match a
    case Handle(c, ch) => HandleKeepsSlots(cfg, s, c, ch, s');
    case Knock(_, _) =>
    case Tick(_) =>
    case PacketArrives(_, _) =>
    case Packet(_, _) =>
    case KnockArrives(_, _, _, _) =>
    case _ => PipeKeepsSlots(cfg, s, a, s');
  }
}
