/** Direct mode: no more connections are forwarded than knocks have paid for. */
module ServerCredits {
  import opened Base
  import Knocks
  import opened KnockCredits
  import ConnectionSlots
  import opened Servers
  import ServerSlots
  import ServerPipeline

  /** What is counted: accepted knocks, connections that paid, dials. */
  datatype Kind = AKnock | APayment | ADial

  predicate IsOf(e: Event, kind: Kind, ip: string) {
    match kind
    case AKnock => e.Granted? && e.ip == ip
    case APayment => e.Paid? && e.ip == ip
    case ADial => e.Dialed? && e.ip == ip
  }

  function Number(log: seq<Event>, kind: Kind, ip: string): nat {
    if log == [] then 0
    else Number(log[..|log| - 1], kind, ip) + if IsOf(log[|log| - 1], kind, ip) then 1 else 0
  }

  /** Knocks accepted from an IP. */
  function KnocksFrom(log: seq<Event>, ip: string): nat {
    Number(log, AKnock, ip)
  }

  /** Connections of an IP that have consumed a credit. */
  function PaidBy(log: seq<Event>, ip: string): nat {
    Number(log, APayment, ip)
  }

  /** Dials made for an IP. */
  function DialsFor(log: seq<Event>, ip: string): nat {
    Number(log, ADial, ip)
  }

  lemma NumberNext(log: seq<Event>, e: Event, kind: Kind, ip: string)
    ensures Number(log + [e], kind, ip) == Number(log, kind, ip) + if IsOf(e, kind, ip) then 1 else 0
  {
    assert (log + [e])[..|log|] == log;
  }

  /** What one accepted knock is worth. */
  function Worth(cfg: Config): int {
    Knocks.Credit(PerKnock(cfg))
  }

  /** The handlers that have paid for an IP and not yet dialed. */
  ghost function Ready(conns: map<nat, Handler>, ip: string): set<nat> {
    set c | c in conns && (conns[c].pc.DirectRevoke? || conns[c].pc.Dial?) && conns[c].ip == ip
  }

  /** Paid and owed together never exceed what the knocks were worth, and dials never exceed what was paid. */
  ghost predicate Solvent(cfg: Config, s: Server, ip: string) {
    && PaidBy(s.log, ip) + Owed(s.sh.knocks, ip) <= Worth(cfg) * KnocksFrom(s.log, ip)
    && DialsFor(s.log, ip) + |Ready(s.conns, ip)| <= PaidBy(s.log, ip)
  }

  ghost predicate AllDirect(conns: map<nat, Handler>) {
    forall c <- conns :: DirectOnly(conns[c].pc)
  }

  ghost predicate Fair(cfg: Config, s: Server) {
    Positive(s.sh.knocks) && AllDirect(s.conns) && forall ip :: Solvent(cfg, s, ip)
  }

  lemma DirectGoesOn(cfg: Config, sh: Shared, h: Handler, ch: Choice)
    requires cfg.direct && DirectOnly(h.pc)
    ensures After(cfg, sh, h, ch).ip == h.ip && DirectOnly(After(cfg, sh, h, ch).pc)
    ensures var pc := After(cfg, sh, h, ch).pc;
            pc.DirectRevoke? || pc.Dial? ==>
              h.pc.DirectRevoke? || Pays(h, ch)
  {
    hide ClientIsFull, FirewallAllows;
  }

  /** How the set of paid handlers changes with one handler. */
  lemma ReadyChange(conns: map<nat, Handler>, c: nat, h: Handler, ip: string)
    ensures var now := (h.pc.DirectRevoke? || h.pc.Dial?) && h.ip == ip;
            |Ready(conns[c := h], ip)| ==
              |Ready(conns, ip)| + (if now then 1 else 0) - (if c in Ready(conns, ip) then 1 else 0)
  {
    OneApart(Ready(conns, ip), Ready(conns[c := h], ip), c);
  }

  lemma StoreOwes(cfg: Config, sh: Shared, op: Option<Knocks.Op>, knocks': Knocks.Store, reply: Knocks.Reply,
                  ip: string)
    requires Positive(sh.knocks) && StorePart(sh.knocks, op, knocks', reply)
    ensures Positive(knocks')
    ensures Owed(knocks', ip) <= Owed(sh.knocks, ip)
              + (if op.Some? then GrantedTo(op.value, ip) - TakenFrom(op.value, reply, ip) else 0)
  {
    hide Positive, Owed;
    if op.Some? {
      StepKeepsPositive(sh.knocks, op.value, knocks', reply);
      StepOwes(sh.knocks, op.value, knocks', reply, ip);
    }
  }

  /** A step adds at most one event. */
  lemma NumberLater(log: seq<Event>, more: seq<Event>, kind: Kind, ip: string)
    requires |more| <= 1
    ensures Number(log + more, kind, ip) ==
              Number(log, kind, ip) + if more != [] && IsOf(more[0], kind, ip) then 1 else 0
  {
    if more == [] {
      assert log + more == log;
    } else {
      assert more == [more[0]];
      NumberNext(log, more[0], kind, ip);
    }
  }

  lemma HandlerOwes(cfg: Config, s: Server, c: nat, ch: Choice, s': Server, ip: string)
    requires cfg.direct && Step(cfg, s, Handle(c, ch), s') && DirectOnly(s.conns[c].pc) && Positive(s.sh.knocks)
    ensures Positive(s'.sh.knocks)
    ensures PaidBy(s'.log, ip) + Owed(s'.sh.knocks, ip) <= PaidBy(s.log, ip) + Owed(s.sh.knocks, ip)
    ensures KnocksFrom(s'.log, ip) == KnocksFrom(s.log, ip)
  {
    hide BanPart, Number, Owed, Positive, After;
    var h := s.conns[c];
    var more := HandlerEvents(cfg, s.sh, c, h, ch);
    StoreOwes(cfg, s.sh, StoreCall(h, ch.now), s'.sh.knocks, ch.knock, ip);
    NumberLater(s.log, more, AKnock, ip);
    NumberLater(s.log, more, APayment, ip);
  }

  /** A handler pays when its call on the store succeeds, and dials when it is there. */
  lemma HandlerKinds(cfg: Config, sh: Shared, c: nat, h: Handler, ch: Choice, ip: string)
    requires DirectOnly(h.pc)
    ensures var more := HandlerEvents(cfg, sh, c, h, ch);
            && |more| <= 1
            && (more != [] && IsOf(more[0], APayment, ip) <==> Pays(h, ch) && h.ip == ip)
            && (more != [] && IsOf(more[0], ADial, ip) <==> h.pc.Dial? && h.ip == ip)
  {
    hide ConnectionSlots.IPFull, ClientIsFull, FirewallAllows, IPKey, ClientKey;
  }

  lemma HandlerDials(cfg: Config, s: Server, c: nat, ch: Choice, s': Server, ip: string)
    requires cfg.direct && Step(cfg, s, Handle(c, ch), s') && DirectOnly(s.conns[c].pc)
    ensures DialsFor(s'.log, ip) + |Ready(s'.conns, ip)| - PaidBy(s'.log, ip)
            <= DialsFor(s.log, ip) + |Ready(s.conns, ip)| - PaidBy(s.log, ip)
  {
    hide HandlerStep, Number, After, HandlerEvents, IsOf;
    var h := s.conns[c];
    var more, h' := HandlerEvents(cfg, s.sh, c, h, ch), After(cfg, s.sh, h, ch);
    DirectGoesOn(cfg, s.sh, h, ch);
    HandlerKinds(cfg, s.sh, c, h, ch, ip);
    NumberLater(s.log, more, APayment, ip);
    NumberLater(s.log, more, ADial, ip);
    ReadyChange(s.conns, c, h', ip);
  }

  lemma HandleKeepsFair(cfg: Config, s: Server, c: nat, ch: Choice, s': Server)
    requires cfg.direct && Fair(cfg, s) && Step(cfg, s, Handle(c, ch), s')
    ensures Fair(cfg, s')
  {
    hide HandlerStep, PaidBy, DialsFor, KnocksFrom, Owed, Ready, After, Positive, Worth;
    assert DirectOnly(s.conns[c].pc);
    DirectGoesOn(cfg, s.sh, s.conns[c], ch);
    HandlerOwes(cfg, s, c, ch, s', "");
    forall ip
      ensures Solvent(cfg, s', ip)
    {
      assert Solvent(cfg, s, ip);
      HandlerOwes(cfg, s, c, ch, s', ip);
      HandlerDials(cfg, s, c, ch, s', ip);
    }
  }

  lemma WorthMore(w: int, n: int)
    ensures w * (n + 1) == w * n + w
  {
  }

  lemma KnockKinds(cfg: Config, sh: Shared, id: nat, k: Knocker, ch: Choice, ip: string)
    ensures var more := KnockEvents(cfg, sh, id, k, ch);
            && |more| <= 1
            && (more != [] ==> !IsOf(more[0], APayment, ip) && !IsOf(more[0], ADial, ip))
            && (more != [] && IsOf(more[0], AKnock, ip) <==> k.pc.KAdd? && k.ip == ip)
  {
  }

  lemma KnockStoreOwes(cfg: Config, sh: Shared, k: Knocker, ch: Choice, sh': Shared, ip: string)
    requires Positive(sh.knocks) && KnockStep(cfg, sh, k, ch, sh')
    ensures Positive(sh'.knocks)
    ensures Owed(sh'.knocks, ip) <= Owed(sh.knocks, ip) + if k.pc.KAdd? && k.ip == ip then Worth(cfg) else 0
  {
    hide BanPart, Owed, Positive, Knocks.Credit, KnockFirewall;
    StoreOwes(cfg, sh, KnockStoreCall(cfg, k, ch.now), sh'.knocks, ch.knock, ip);
  }

  lemma KnockOwes(cfg: Config, s: Server, id: nat, ch: Choice, s': Server, ip: string)
    requires Positive(s.sh.knocks) && Step(cfg, s, Knock(id, ch), s')
    ensures Positive(s'.sh.knocks)
    ensures PaidBy(s'.log, ip) == PaidBy(s.log, ip) && DialsFor(s'.log, ip) == DialsFor(s.log, ip)
    ensures KnocksFrom(s'.log, ip) == KnocksFrom(s.log, ip) || KnocksFrom(s'.log, ip) == KnocksFrom(s.log, ip) + 1
    ensures Owed(s'.sh.knocks, ip) <= Owed(s.sh.knocks, ip)
              + (if KnocksFrom(s'.log, ip) == KnocksFrom(s.log, ip) then 0 else Worth(cfg))
  {
    hide KnockStep, Number, Owed, Positive, Worth, KnockEvents, PipeStep, HandlerStep, PacketStep;
    var k := s.knockers[id];
    var more := KnockEvents(cfg, s.sh, id, k, ch);
    KnockStoreOwes(cfg, s.sh, k, ch, s'.sh, ip);
    KnockKinds(cfg, s.sh, id, k, ch, ip);
    NumberLater(s.log, more, AKnock, ip);
    NumberLater(s.log, more, APayment, ip);
    NumberLater(s.log, more, ADial, ip);
  }

  lemma KnockKeepsFair(cfg: Config, s: Server, id: nat, ch: Choice, s': Server)
    requires Fair(cfg, s) && Step(cfg, s, Knock(id, ch), s')
    ensures Fair(cfg, s')
  {
    hide KnockStep, PaidBy, DialsFor, KnocksFrom, Owed, Ready, Positive, Worth, KnockEvents;
    KnockOwes(cfg, s, id, ch, s', "");
    forall ip
      ensures Solvent(cfg, s', ip)
    {
      assert Solvent(cfg, s, ip);
      KnockOwes(cfg, s, id, ch, s', ip);
      WorthMore(Worth(cfg), KnocksFrom(s.log, ip));
    }
  }

  /** A step that grants, consumes and dials nothing. */
  lemma QuietStep(cfg: Config, s: Server, s': Server, more: seq<Event>)
    requires Fair(cfg, s) && s'.sh.knocks == s.sh.knocks && s'.log == s.log + more && |more| <= 1
    requires forall e <- more :: !e.Granted? && !e.Paid? && !e.Dialed?
    requires AllDirect(s'.conns) && forall ip :: Ready(s'.conns, ip) == Ready(s.conns, ip)
    ensures Fair(cfg, s')
  {
    hide Number, Owed, Ready, Positive, Worth, AllDirect;
    forall ip
      ensures Solvent(cfg, s', ip)
    {
      assert Solvent(cfg, s, ip);
      NumberLater(s.log, more, AKnock, ip);
      NumberLater(s.log, more, APayment, ip);
      NumberLater(s.log, more, ADial, ip);
      assert more != [] ==> more[0] in more;
    }
  }

  lemma PlaceKeepsReady(conns: map<nat, Handler>, c: nat, h: Handler)
    requires AllDirect(conns) && DirectOnly(h.pc) && !h.pc.Dial? && !h.pc.DirectRevoke?
    requires c in conns ==> !conns[c].pc.Dial? && !conns[c].pc.DirectRevoke?
    ensures AllDirect(conns[c := h]) && forall ip :: Ready(conns[c := h], ip) == Ready(conns, ip)
  {
  }

  lemma PipeKeepsFair(cfg: Config, s: Server, a: Action, s': Server)
    requires Fair(cfg, s) && PipeStep(cfg, s, a, s') && ServerSlots.Placed(s)
    ensures Fair(cfg, s')
  {
    hide Fair, AllDirect, Ready, PipeStep, Subject;
    FairDirect(cfg, s);
    PipeMoves(cfg, s, a, s');
    if s'.conns != s.conns {
      var c := Subject(s, a);
      SubjectNotDialing(cfg, s, a, s');
      PlaceKeepsReady(s.conns, c, s'.conns[c]);
    }
    QuietStep(cfg, s, s', if a.Take? then [Begun(OfConn(s.pipe.queue[0]))] else []);
  }

  lemma SubjectNotDialing(cfg: Config, s: Server, a: Action, s': Server)
    requires PipeStep(cfg, s, a, s') && ServerSlots.Placed(s) && s'.conns != s.conns
    requires a.Take? ==> s.pipe.queue != []
    requires a.Finish? ==> a.worker in s.pipe.workers && s.pipe.workers[a.worker].Busy?
    ensures var c := Subject(s, a); c in s.conns ==> !s.conns[c].pc.Dial? && !s.conns[c].pc.DirectRevoke?
  {
  }

  lemma FairDirect(cfg: Config, s: Server)
    requires Fair(cfg, s)
    ensures AllDirect(s.conns)
  {
  }

  lemma StepKeepsFair(cfg: Config, s: Server, a: Action, s': Server)
    requires cfg.direct && Fair(cfg, s) && ServerSlots.Placed(s) && Step(cfg, s, a, s')
    ensures Fair(cfg, s')
  {
    hide Fair, PipeStep, HandlerStep, KnockStep, AllDirect, Ready, ServerSlots.Placed;
    FairDirect(cfg, s);
    assert s.log + [] == s.log;
    match a
    case Handle(c, ch) => HandleKeepsFair(cfg, s, c, ch, s');
    case Knock(id, ch) => KnockKeepsFair(cfg, s, id, ch, s');
    case Tick(_) => QuietStep(cfg, s, s', []);
    case PacketArrives(id, _) => QuietStep(cfg, s, s', [Begun(OfPacket(id))]);
    case Packet(id, ch) => QuietStep(cfg, s, s', PacketEvents(s.sh, id, s.packets[id], ch));
    case KnockArrives(id, _, _, _) => QuietStep(cfg, s, s', [Begun(OfKnock(id))]);
    case _ => PipeKeepsFair(cfg, s, a, s');
  }

  lemma InitFair(cfg: Config, s: Server)
    requires Init(cfg, s)
    ensures Fair(cfg, s)
  {
    forall ip
      ensures Solvent(cfg, s, ip)
    {
      assert Ready(s.conns, ip) == {};
      assert KnockCredits.Counts(Knocks.ClientsOf(s.sh.knocks, ip)) == map[];
    }
  }

  lemma {:induction false} FairAlways(cfg: Config, r: Servers.Run, i: nat)
    requires Servers.Valid(cfg, r) && cfg.direct && i <= |r.actions|
    ensures Fair(cfg, r.states[i])
  {
    hide Step, Init, Fair, ServerPipeline.Tidy, ServerSlots.Placed;
    if i == 0 {
      InitFair(cfg, r.states[0]);
    } else {
      FairAlways(cfg, r, i - 1);
      ServerPipeline.TidyAlways(cfg, r, i - 1);
      ServerPipeline.TidyPlaced(cfg, r.states[i - 1]);
      assert Servers.StepAt(cfg, r, i - 1);
      StepKeepsFair(cfg, r.states[i - 1], r.actions[i - 1], r.states[i]);
    }
  }

  /**
   * In direct mode, whatever interleaving: the connections forwarded for an IP are at
   * most the knocks accepted from it times the connections one knock is good for,
   * which is at least one.
   */
  lemma DialsWithinKnocks(cfg: Config, r: Servers.Run, i: nat, ip: string)
    requires Servers.Valid(cfg, r) && cfg.direct && i <= |r.actions|
    ensures var log := r.states[i].log;
            DialsFor(log, ip) <= PaidBy(log, ip)
                              <= (if cfg.maxPerKnock > 1 then cfg.maxPerKnock else 1) * KnocksFrom(log, ip)
  {
    hide Init, Servers.StepAt, PaidBy, DialsFor, KnocksFrom, Ready;
    FairAlways(cfg, r, i);
    var s := r.states[i];
    assert Solvent(cfg, s, ip);
    OwedAtLeastNothing(s.sh.knocks, ip);
  }

  lemma OwedAtLeastNothing(store: Knocks.Store, ip: string)
    requires Positive(store)
    ensures 0 <= Owed(store, ip)
  {
    PartOwed(Knocks.ClientsOf(store, ip), Knocks.ClientsOf(store, ip));
  }
}
