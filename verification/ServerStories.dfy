/**
 * What each handler must have done by the time it dials, relays or gives back its slot:
 * its own history, counted, against the state it is in.
 */
module ServerStories {
  import opened Base
  import opened ConnectionSlots
  import opened Servers

  /** The handler an event belongs to. */
  function ConnOf(e: Event): Option<nat> {
    match e
    case Passed(check, _, _) => CheckConn(check)
    case Barred(check, _, _) => CheckConn(check)
    case Banned(check, _, _) => CheckConn(check)
    case Recorded(check, _, _) => CheckConn(check)
    case Revoked(OfConn(c), _, _) => Some(c)
    case Paid(c, _, _, _) => Some(c)
    case Unpaid(c, _) => Some(c)
    case Found(c, _, _, _) => Some(c)
    case Removed(c, _, _, _, _) => Some(c)
    case Purged(c, _) => Some(c)
    case FirewallAsked(c, _, _) => Some(c)
    case SlotAsked(c, _, _) => Some(c)
    case Authenticated(c, _) => Some(c)
    case LookedUp(c, _, _) => Some(c)
    case ClientSlotAsked(c, _, _) => Some(c)
    case Dialed(c, _, _, _, _) => Some(c)
    case Wrapped(c, _) => Some(c)
    case Relayed(c) => Some(c)
    case ClientLeft(c, _) => Some(c)
    case Left(c, _) => Some(c)
    case _ => None
  }

  function CheckConn(check: Check): Option<nat> {
    match check
    case ByIP(c) => Some(c)
    case ByClient(c) => Some(c)
    case _ => None
  }

  /**
   * A handler's history in numbers, for the address it serves and the client it works for.
   * `stray` counts what was done with another address, client or key, or out of place.
   */
  datatype Story = Story(
    ip: string, client: string, stray: nat,
    passes: nat, slots: nat, peers: nat, clientPasses: nat, known: nat, access: nat, clientSlots: nat,
    payments: nat, removals: nat, due: nat, revokes: nat, dials: nat, links: nat, wraps: nat,
    faults: nat, ipFailures: nat, clientFailures: nat, closes: nat, drops: nat, clientLeaves: nat)

  function Fresh(ip: string): Story {
    Story(ip, "", 0, 0, 0, 0, 0, 0, 0, 0, 0, 0, 0, 0, 0, 0, 0, 0, 0, 0, 0, 0, 0)
  }

  function Stray(s: Story): Story {
    s.(stray := s.stray + 1)
  }

  function Fault(s: Story): Story {
    s.(faults := s.faults + 1)
  }

  function One(yes: bool): nat {
    if yes then 1 else 0
  }

  /** A ban check passed or not. */
  function ToldCheck(s: Story, check: Check, key: string, passed: bool): Story {
    if check.ByIP? then
      if key != IPKey(s.ip) then Stray(s) else s.(passes := s.passes + One(passed))
    else
      if key != ClientKey(s.client) || s.peers == 0 then Stray(s)
      else if passed then s.(clientPasses := s.clientPasses + 1) else Fault(s)
  }

  /** A failure recorded, whether it led to a ban or not. */
  function ToldFailure(s: Story, check: Check, key: string): Story {
    if s.faults == 0 then Stray(s)
    else if check.ByIP? && key == IPKey(s.ip) then s.(ipFailures := s.ipFailures + 1)
    else if check.ByClient? && key == ClientKey(s.client) && s.peers > 0 then s.(clientFailures := s.clientFailures + 1)
    else Stray(s)
  }

  /** A call on the knock store or on the firewall: before a fault it serves the dial, after it the clean-up. */
  function ToldAccess(cfg: Config, s: Story, e: Event): Story {
    match e
    case Paid(_, ip, client, last) =>
      if ip == s.ip && s.peers == 0 && s.payments == 0 && s.faults == 0
      then s.(client := client, payments := 1, due := s.due + One(last)) else Stray(s)
    case Unpaid(_, ip) => if ip == s.ip then s else Stray(s)
    case Found(_, ip, client, yes) =>
      if ip != s.ip || client != s.client then Stray(s)
      else if yes then s.(access := s.access + 1) else if cfg.checker then s else Fault(s)
    case FirewallAsked(_, ip, open) =>
      if ip != s.ip then Stray(s) else if open then s.(access := s.access + 1) else Fault(s)
    case Removed(_, ip, client, last, _) =>
      if ip != s.ip || client != s.client || s.peers == 0 then Stray(s)
      else if s.faults == 0 then s.(removals := s.removals + 1, due := s.due + One(last))
      else if client != "" then s.(drops := s.drops + 1) else Stray(s)
    case Purged(_, ip) =>
      if ip == s.ip && s.faults > 0 && s.client == "" then s.(drops := s.drops + 1) else Stray(s)
    case Revoked(_, ip, _) =>
      if ip != s.ip then Stray(s)
      else if s.faults > 0 then s.(closes := s.closes + 1)
      else if s.revokes < s.due then s.(revokes := s.revokes + 1) else Stray(s)
    case _ => s
  }

  function ToldOwn(s: Story, e: Event): Story {
    match e
    case SlotAsked(_, ip, ok) => if ip == s.ip then s.(slots := s.slots + One(ok)) else Stray(s)
    case Authenticated(_, None) => Fault(s)
    case Authenticated(_, Some(client)) =>
      if s.peers == 0 && s.payments == 0 && s.faults == 0 then s.(client := client, peers := 1) else Stray(s)
    case LookedUp(_, client, known) =>
      if client != s.client then Stray(s) else if known then s.(known := s.known + 1) else Fault(s)
    case ClientSlotAsked(_, client, ok) =>
      if client == s.client then s.(clientSlots := s.clientSlots + One(ok)) else Stray(s)
    case Dialed(_, ip, client, _, ok) =>
      if ip == s.ip && client == s.client then s.(dials := s.dials + 1, links := s.links + One(ok)) else Stray(s)
    case Wrapped(_, ok) => if s.links == 0 then Stray(s) else if ok then s.(wraps := s.wraps + 1) else Fault(s)
    case ClientLeft(_, client) => if client == s.client then s.(clientLeaves := s.clientLeaves + 1) else Stray(s)
    case Left(_, ip) => if ip == s.ip then s else Stray(s)
    case _ => s
  }

  function Told(cfg: Config, s: Story, e: Event): Story {
    if e.Passed? || e.Barred? then ToldCheck(s, e.check, e.key, e.Passed?)
    else if e.Banned? || e.Recorded? then ToldFailure(s, e.check, e.key)
    else if e.Paid? || e.Unpaid? || e.Found? || e.FirewallAsked? || e.Removed? || e.Purged? || e.Revoked?
    then ToldAccess(cfg, s, e)
    else ToldOwn(s, e)
  }

  function StoryOf(cfg: Config, log: seq<Event>, c: nat, ip: string): Story {
    if log == [] then Fresh(ip)
    else
      var n := |log| - 1;
      var s := StoryOf(cfg, log[..n], c, ip);
      if ConnOf(log[n]) == Some(c) then Told(cfg, s, log[n]) else s
  }

  // ---------------------------------------------------------------------------
  // Where a handler stands
  // ---------------------------------------------------------------------------

  /** The way to the dial in proxy mode, step by step. */
  function OnTheWay(ip: string, client: string, steps: nat): Story {
    Story(ip, client, 0, One(steps >= 1), One(steps >= 2), One(steps >= 3), One(steps >= 4), One(steps >= 5),
      One(steps >= 6), One(steps >= 7), 0, 0, 0, 0, 0, 0, 0, 0, 0, 0, 0, 0, 0)
  }

  /** What a dial rests on. */
  predicate DialRests(cfg: Config, s: Story) {
    && s.stray == 0 && s.passes == 1 && s.slots == 1 && s.dials == 0
    && s.faults == 0 && s.ipFailures == 0 && s.clientFailures == 0
    && (!cfg.direct ==>
          s.peers == 1 && s.clientPasses == 1 && s.known == 1 && s.access == 1 && s.clientSlots == 1
          && s.payments == 0 && s.removals == One(cfg.removeAfterAuth) && s.revokes == s.due <= s.removals)
    && (cfg.direct ==>
          s.payments == 1 && s.peers == 0 && s.removals == 0 && s.due <= 1
          && s.revokes == if cfg.removeAfterFirst then s.due else 0)
  }

  /** What a relay rests on, beside the dial. */
  predicate RelayRests(cfg: Config, s: Story) {
    && s.stray == 0 && s.faults == 0 && s.dials == 1 && s.links == 1
    && s.wraps == One(cfg.encrypted && !cfg.direct)
  }

  /** After a fault both failures are recorded and the knock is thrown away; without one nothing is. */
  predicate Settled(cfg: Config, s: Story) {
    && s.stray == 0 && s.faults <= 1 && (s.faults == 1 ==> s.payments == 0)
    && s.ipFailures == s.faults
    && s.clientFailures == (if s.faults == 1 then One(s.client != "") else 0)
    && s.closes == s.drops == (if s.faults == 1 then One(cfg.removeAfterAuth) else 0)
  }

  predicate Failing(s: Story, ipFailures: nat, clientFailures: nat, closes: nat) {
    && s.faults == 1 && s.ipFailures == ipFailures && s.clientFailures == clientFailures
    && s.closes == closes && s.drops == 0 && s.payments == 0
  }

  predicate Entering(cfg: Config, h: Handler, s: Story) {
    match h.pc
    case BanCheck => h.client == "" && s == Fresh(h.ip)
    case AcquireIP => h.client == "" && s == OnTheWay(h.ip, "", 1)
    case Consume => h.client == "" && s == OnTheWay(h.ip, "", 2)
    case Auth => h.client == "" && s == OnTheWay(h.ip, "", 2)
    case ClientBan => s == OnTheWay(h.ip, h.client, 3)
    case Lookup => s == OnTheWay(h.ip, h.client, 4)
    case Access => s == OnTheWay(h.ip, h.client, 5)
    case Check => s == OnTheWay(h.ip, h.client, 5)
    case AcquireClient => s == OnTheWay(h.ip, h.client, 6)
    case RemoveOne => cfg.removeAfterAuth && s == OnTheWay(h.ip, h.client, 7)
    case RevokeOne => cfg.removeAfterAuth && s == OnTheWay(h.ip, h.client, 7).(removals := 1, due := 1)
    case DirectRevoke =>
      cfg.removeAfterFirst && s == OnTheWay(h.ip, "", 2).(client := h.client, payments := 1, due := 1)
    case _ => false
  }

  predicate Serving(cfg: Config, h: Handler, s: Story) {
    match h.pc
    case Dial => DialRests(cfg, s) && s.links == 0 && s.wraps == 0
    case WrapUp => s.faults == 0 && s.dials == 1 && s.links == 1 && s.wraps == 0 && s.payments == 0
                   && cfg.encrypted && !cfg.direct
    case Relay => RelayRests(cfg, s)
    case _ => false
  }

  predicate Recovering(cfg: Config, h: Handler, s: Story) {
    match h.pc
    case FailIP => Failing(s, 0, 0, 0)
    case FailIPCount => Failing(s, 1, 0, 0)
    case FailClient => Failing(s, 1, 0, 0) && h.client != ""
    case FailClientCount => Failing(s, 1, One(h.client != ""), 0)
    case FailRevoke => Failing(s, 1, One(h.client != ""), 0)
    case FailRemove => Failing(s, 1, One(h.client != ""), 1) && cfg.removeAfterAuth
    case _ => false
  }

  /** Nothing recorded and nothing thrown away yet, unless there was a fault. */
  predicate Clean(s: Story) {
    s.faults == 0 ==> s.ipFailures == 0 && s.clientFailures == 0 && s.closes == 0 && s.drops == 0
  }

  predicate Stands(cfg: Config, h: Handler, s: Story) {
    && s.ip == h.ip && s.client == h.client && s.stray == 0 && Clean(s)
    && (h.client != "" && !cfg.direct ==> s.peers == 1)
    && s.clientSlots == s.clientLeaves + One(h.clientSlot)
    && (Entering(cfg, h, s) || Serving(cfg, h, s) || Recovering(cfg, h, s)
        || ((h.pc.ReleaseClient? || h.pc.ReleaseIP? || h.pc.Close?) && Settled(cfg, s)))
    && (h.pc.ReleaseClient? ==> h.clientSlot)
    && (h.pc.ReleaseIP? || h.pc.Close? ==> !h.clientSlot)
  }

  function Next(cfg: Config, s: Story, more: seq<Event>): Story
    requires |more| <= 1
  {
    if more == [] then s else Told(cfg, s, more[0])
  }

  // ---------------------------------------------------------------------------
  // One step
  // ---------------------------------------------------------------------------

  lemma CheckedNext(cfg: Config, sh: Shared, c: nat, h: Handler, ch: Choice, s: Story)
    requires Stands(cfg, h, s) && OfMode(cfg, h.pc) && h.pc.BanCheck?
    ensures Stands(cfg, After(cfg, sh, h, ch), Next(cfg, s, HandlerEvents(cfg, sh, c, h, ch)))
  {
    hide IPKey, ClientKey, IPFull, ClientIsFull, FirewallAllows, NextGround;
  }

  lemma SlotNext(cfg: Config, sh: Shared, c: nat, h: Handler, ch: Choice, s: Story)
    requires Stands(cfg, h, s) && OfMode(cfg, h.pc) && h.pc.AcquireIP?
    ensures Stands(cfg, After(cfg, sh, h, ch), Next(cfg, s, HandlerEvents(cfg, sh, c, h, ch)))
  {
    hide IPKey, ClientKey, IPFull, ClientIsFull, FirewallAllows, NextGround;
  }

  lemma PaidNext(cfg: Config, sh: Shared, c: nat, h: Handler, ch: Choice, s: Story)
    requires Stands(cfg, h, s) && OfMode(cfg, h.pc) && h.pc.Consume?
    ensures Stands(cfg, After(cfg, sh, h, ch), Next(cfg, s, HandlerEvents(cfg, sh, c, h, ch)))
  {
    hide IPKey, ClientKey, IPFull, ClientIsFull, FirewallAllows, NextGround;
  }

  lemma PaidRevokedNext(cfg: Config, sh: Shared, c: nat, h: Handler, ch: Choice, s: Story)
    requires Stands(cfg, h, s) && OfMode(cfg, h.pc) && h.pc.DirectRevoke?
    ensures Stands(cfg, After(cfg, sh, h, ch), Next(cfg, s, HandlerEvents(cfg, sh, c, h, ch)))
  {
    hide IPKey, ClientKey, IPFull, ClientIsFull, FirewallAllows, NextGround;
  }

  lemma PeerNext(cfg: Config, sh: Shared, c: nat, h: Handler, ch: Choice, s: Story)
    requires Stands(cfg, h, s) && OfMode(cfg, h.pc) && h.pc.Auth?
    ensures Stands(cfg, After(cfg, sh, h, ch), Next(cfg, s, HandlerEvents(cfg, sh, c, h, ch)))
  {
    hide IPKey, ClientKey, IPFull, ClientIsFull, FirewallAllows, NextGround;
  }

  lemma ClientCheckedNext(cfg: Config, sh: Shared, c: nat, h: Handler, ch: Choice, s: Story)
    requires Stands(cfg, h, s) && OfMode(cfg, h.pc) && h.pc.ClientBan?
    ensures Stands(cfg, After(cfg, sh, h, ch), Next(cfg, s, HandlerEvents(cfg, sh, c, h, ch)))
  {
    hide IPKey, ClientKey, IPFull, ClientIsFull, FirewallAllows, NextGround;
  }

  lemma KnownNext(cfg: Config, sh: Shared, c: nat, h: Handler, ch: Choice, s: Story)
    requires Stands(cfg, h, s) && OfMode(cfg, h.pc) && h.pc.Lookup?
    ensures Stands(cfg, After(cfg, sh, h, ch), Next(cfg, s, HandlerEvents(cfg, sh, c, h, ch)))
  {
    hide IPKey, ClientKey, IPFull, ClientIsFull, FirewallAllows, NextGround;
  }

  lemma AccessNext(cfg: Config, sh: Shared, c: nat, h: Handler, ch: Choice, s: Story)
    requires Stands(cfg, h, s) && OfMode(cfg, h.pc) && h.pc.Access?
    ensures Stands(cfg, After(cfg, sh, h, ch), Next(cfg, s, HandlerEvents(cfg, sh, c, h, ch)))
  {
    hide IPKey, ClientKey, IPFull, ClientIsFull, FirewallAllows, NextGround;
  }

  lemma FirewallNext(cfg: Config, sh: Shared, c: nat, h: Handler, ch: Choice, s: Story)
    requires Stands(cfg, h, s) && OfMode(cfg, h.pc) && h.pc.Check?
    ensures Stands(cfg, After(cfg, sh, h, ch), Next(cfg, s, HandlerEvents(cfg, sh, c, h, ch)))
  {
    hide IPKey, ClientKey, IPFull, ClientIsFull, FirewallAllows, NextGround;
  }

  lemma ClientSlotNext(cfg: Config, sh: Shared, c: nat, h: Handler, ch: Choice, s: Story)
    requires Stands(cfg, h, s) && OfMode(cfg, h.pc) && h.pc.AcquireClient?
    ensures Stands(cfg, After(cfg, sh, h, ch), Next(cfg, s, HandlerEvents(cfg, sh, c, h, ch)))
  {
    hide IPKey, ClientKey, IPFull, ClientIsFull, FirewallAllows, NextGround;
  }

  lemma RemovedNext(cfg: Config, sh: Shared, c: nat, h: Handler, ch: Choice, s: Story)
    requires Stands(cfg, h, s) && OfMode(cfg, h.pc) && h.pc.RemoveOne?
    ensures Stands(cfg, After(cfg, sh, h, ch), Next(cfg, s, HandlerEvents(cfg, sh, c, h, ch)))
  {
    hide IPKey, ClientKey, IPFull, ClientIsFull, FirewallAllows, NextGround;
  }

  lemma RemovedRevokedNext(cfg: Config, sh: Shared, c: nat, h: Handler, ch: Choice, s: Story)
    requires Stands(cfg, h, s) && OfMode(cfg, h.pc) && h.pc.RevokeOne?
    ensures Stands(cfg, After(cfg, sh, h, ch), Next(cfg, s, HandlerEvents(cfg, sh, c, h, ch)))
  {
    hide IPKey, ClientKey, IPFull, ClientIsFull, FirewallAllows, NextGround;
  }

  lemma DialedNext(cfg: Config, sh: Shared, c: nat, h: Handler, ch: Choice, s: Story)
    requires Stands(cfg, h, s) && OfMode(cfg, h.pc) && h.pc.Dial?
    ensures Stands(cfg, After(cfg, sh, h, ch), Next(cfg, s, HandlerEvents(cfg, sh, c, h, ch)))
  {
    hide IPKey, ClientKey, IPFull, ClientIsFull, FirewallAllows, NextGround;
  }

  lemma WrappedNext(cfg: Config, sh: Shared, c: nat, h: Handler, ch: Choice, s: Story)
    requires Stands(cfg, h, s) && OfMode(cfg, h.pc) && h.pc.WrapUp?
    ensures Stands(cfg, After(cfg, sh, h, ch), Next(cfg, s, HandlerEvents(cfg, sh, c, h, ch)))
  {
    hide IPKey, ClientKey, IPFull, ClientIsFull, FirewallAllows, NextGround;
  }

  lemma RelayedNext(cfg: Config, sh: Shared, c: nat, h: Handler, ch: Choice, s: Story)
    requires Stands(cfg, h, s) && OfMode(cfg, h.pc) && h.pc.Relay?
    ensures Stands(cfg, After(cfg, sh, h, ch), Next(cfg, s, HandlerEvents(cfg, sh, c, h, ch)))
  {
    hide IPKey, ClientKey, IPFull, ClientIsFull, FirewallAllows, NextGround;
  }

  lemma FailedIPNext(cfg: Config, sh: Shared, c: nat, h: Handler, ch: Choice, s: Story)
    requires Stands(cfg, h, s) && OfMode(cfg, h.pc) && h.pc.FailIP?
    ensures Stands(cfg, After(cfg, sh, h, ch), Next(cfg, s, HandlerEvents(cfg, sh, c, h, ch)))
  {
    hide IPKey, ClientKey, IPFull, ClientIsFull, FirewallAllows, NextGround;
  }

  lemma IPCountedNext(cfg: Config, sh: Shared, c: nat, h: Handler, ch: Choice, s: Story)
    requires Stands(cfg, h, s) && OfMode(cfg, h.pc) && h.pc.FailIPCount?
    ensures Stands(cfg, After(cfg, sh, h, ch), Next(cfg, s, HandlerEvents(cfg, sh, c, h, ch)))
  {
    hide IPKey, ClientKey, IPFull, ClientIsFull, FirewallAllows, NextGround;
  }

  lemma FailedClientNext(cfg: Config, sh: Shared, c: nat, h: Handler, ch: Choice, s: Story)
    requires Stands(cfg, h, s) && OfMode(cfg, h.pc) && h.pc.FailClient?
    ensures Stands(cfg, After(cfg, sh, h, ch), Next(cfg, s, HandlerEvents(cfg, sh, c, h, ch)))
  {
    hide IPKey, ClientKey, IPFull, ClientIsFull, FirewallAllows, NextGround;
  }

  lemma ClientCountedNext(cfg: Config, sh: Shared, c: nat, h: Handler, ch: Choice, s: Story)
    requires Stands(cfg, h, s) && OfMode(cfg, h.pc) && h.pc.FailClientCount?
    ensures Stands(cfg, After(cfg, sh, h, ch), Next(cfg, s, HandlerEvents(cfg, sh, c, h, ch)))
  {
    hide IPKey, ClientKey, IPFull, ClientIsFull, FirewallAllows, NextGround;
  }

  lemma ClosedNext(cfg: Config, sh: Shared, c: nat, h: Handler, ch: Choice, s: Story)
    requires Stands(cfg, h, s) && OfMode(cfg, h.pc) && h.pc.FailRevoke?
    ensures Stands(cfg, After(cfg, sh, h, ch), Next(cfg, s, HandlerEvents(cfg, sh, c, h, ch)))
  {
    hide IPKey, ClientKey, IPFull, ClientIsFull, FirewallAllows, NextGround;
  }

  lemma DroppedNext(cfg: Config, sh: Shared, c: nat, h: Handler, ch: Choice, s: Story)
    requires Stands(cfg, h, s) && OfMode(cfg, h.pc) && h.pc.FailRemove?
    ensures Stands(cfg, After(cfg, sh, h, ch), Next(cfg, s, HandlerEvents(cfg, sh, c, h, ch)))
  {
    hide IPKey, ClientKey, IPFull, ClientIsFull, FirewallAllows, NextGround;
  }

  lemma ClientLeftNext(cfg: Config, sh: Shared, c: nat, h: Handler, ch: Choice, s: Story)
    requires Stands(cfg, h, s) && OfMode(cfg, h.pc) && h.pc.ReleaseClient?
    ensures Stands(cfg, After(cfg, sh, h, ch), Next(cfg, s, HandlerEvents(cfg, sh, c, h, ch)))
  {
    hide IPKey, ClientKey, IPFull, ClientIsFull, FirewallAllows, NextGround;
  }

  lemma LeftNext(cfg: Config, sh: Shared, c: nat, h: Handler, ch: Choice, s: Story)
    requires Stands(cfg, h, s) && OfMode(cfg, h.pc) && h.pc.ReleaseIP?
    ensures Stands(cfg, After(cfg, sh, h, ch), Next(cfg, s, HandlerEvents(cfg, sh, c, h, ch)))
  {
    hide IPKey, ClientKey, IPFull, ClientIsFull, FirewallAllows, NextGround;
  }

  /** One step of a handler keeps its story in line with where it stands. */
  lemma StoryGoesOn(cfg: Config, sh: Shared, c: nat, h: Handler, ch: Choice, s: Story)
    requires Stands(cfg, h, s) && OfMode(cfg, h.pc) && Running(h.pc)
    ensures Stands(cfg, After(cfg, sh, h, ch), Next(cfg, s, HandlerEvents(cfg, sh, c, h, ch)))
  {
    hide Stands, OfMode, After, Next, HandlerEvents;
    match h.pc
    case AtLoop => assert false;
    case Queued => assert false;
    case BanCheck => CheckedNext(cfg, sh, c, h, ch, s);
    case AcquireIP => SlotNext(cfg, sh, c, h, ch, s);
    case Consume => PaidNext(cfg, sh, c, h, ch, s);
    case DirectRevoke => PaidRevokedNext(cfg, sh, c, h, ch, s);
    case Auth => PeerNext(cfg, sh, c, h, ch, s);
    case ClientBan => ClientCheckedNext(cfg, sh, c, h, ch, s);
    case Lookup => KnownNext(cfg, sh, c, h, ch, s);
    case Access => AccessNext(cfg, sh, c, h, ch, s);
    case Check => FirewallNext(cfg, sh, c, h, ch, s);
    case AcquireClient => ClientSlotNext(cfg, sh, c, h, ch, s);
    case RemoveOne => RemovedNext(cfg, sh, c, h, ch, s);
    case RevokeOne => RemovedRevokedNext(cfg, sh, c, h, ch, s);
    case Dial => DialedNext(cfg, sh, c, h, ch, s);
    case WrapUp => WrappedNext(cfg, sh, c, h, ch, s);
    case Relay => RelayedNext(cfg, sh, c, h, ch, s);
    case FailIP => FailedIPNext(cfg, sh, c, h, ch, s);
    case FailIPCount => IPCountedNext(cfg, sh, c, h, ch, s);
    case FailClient => FailedClientNext(cfg, sh, c, h, ch, s);
    case FailClientCount => ClientCountedNext(cfg, sh, c, h, ch, s);
    case FailRevoke => ClosedNext(cfg, sh, c, h, ch, s);
    case FailRemove => DroppedNext(cfg, sh, c, h, ch, s);
    case ReleaseClient => ClientLeftNext(cfg, sh, c, h, ch, s);
    case ReleaseIP => LeftNext(cfg, sh, c, h, ch, s);
    case Close => assert false;
    case Closed => assert false;
  }
}
