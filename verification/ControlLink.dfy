/** The bridge's mirror of the channel table and the op stream to the relay: core/src/control_link.cpp. */
module ControlLink {
  import opened Ints
  import opened Registry

  /** The channel table after a list of operations. */
  function Fold(ops: seq<ChanOp>): Channels {
    if ops == [] then map[] else ApplyOp(Fold(ops[..|ops| - 1]), ops[|ops| - 1])
  }

  lemma FoldPush(ops: seq<ChanOp>, op: ChanOp)
    ensures Fold(ops + [op]) == ApplyOp(Fold(ops), op)
  {
    assert (ops + [op])[..|ops|] == ops;
  }

  /** The sending replica: a registry, the id allocator and the operations sent so far. */
  class ControlLink {
    const reg: Registry
    var nextChannel: u16
    var sent: seq<ChanOp>

    /** The mirror is what its own op stream says. */
    ghost predicate Valid()
      reads this, reg
    {
      reg.Valid() && reg.channels == Fold(sent)
    }

    constructor ()
      ensures Valid() && fresh(reg) && sent == [] && nextChannel == 1
    {
      reg := new Registry();
      nextChannel, sent := 1, [];
    }

    method Send(op: ChanOp)
      requires reg.Valid() && reg.channels == ApplyOp(Fold(sent), op)
      modifies this`sent
      ensures Valid() && sent == old(sent) + [op]
    {
      FoldPush(sent, op);
      sent := sent + [op];
    }

    /** Only makes sure there is an entry; the token goes to the relay by another packet. */
    method OnPlayerConnect(pid: u16)
      requires Valid()
      modifies reg
      ensures Valid() && pid in reg.players && sent == old(sent)
      ensures forall p :: p in old(reg.players) ==> p in reg.players && reg.players[p] == old(reg.players)[p]
    {
      var _ := reg.Touch(pid);
    }

    method CreateChannel(f: u8, positional: bool, prio: u8) returns (id: u16)
      requires Valid()
      modifies this, reg
      ensures Valid() && sent == old(sent) + [Create(id, f, positional, prio)]
      ensures id == old(nextChannel) && nextChannel == Inc16(id)
      ensures ChannelIs(old(reg.channels), reg.channels, id, f, positional, prio)
    {
      id := nextChannel;
      nextChannel := Inc16(nextChannel);
      reg.CreateChannel(id, f, positional, prio);
      Send(Create(id, f, positional, prio));
    }

    method DestroyChannel(cid: u16)
      requires Valid()
      modifies this, reg
      ensures Valid() && sent == old(sent) + [Destroy(cid)] && nextChannel == old(nextChannel)
      ensures cid !in reg.channels
      ensures forall c: u16 :: c != cid ==> Same(old(reg.channels), reg.channels, c)
    {
      OpByField(reg.channels, Destroy(cid));
      reg.DestroyChannel(cid);
      Send(Destroy(cid));
    }

    method JoinChannel(pid: u16, cid: u16)
      requires Valid()
      modifies this, reg
      ensures Valid() && sent == old(sent) + [Join(pid, cid)] && nextChannel == old(nextChannel)
      ensures cid in reg.channels ==> pid in reg.channels[cid].members
      ensures cid in old(reg.channels) ==>
                MembersAre(old(reg.channels), reg.channels, cid, old(reg.channels)[cid].members + {pid})
    {
      OpByField(reg.channels, Join(pid, cid));
      reg.JoinChannel(pid, cid);
      Send(Join(pid, cid));
    }

    method LeaveChannel(pid: u16, cid: u16)
      requires Valid()
      modifies this, reg
      ensures Valid() && sent == old(sent) + [Leave(pid, cid)] && nextChannel == old(nextChannel)
      ensures cid in reg.channels ==> pid !in reg.channels[cid].members
      ensures cid in old(reg.channels) ==>
                MembersAre(old(reg.channels), reg.channels, cid, old(reg.channels)[cid].members - {pid})
    {
      OpByField(reg.channels, Leave(pid, cid));
      reg.LeaveChannel(pid, cid);
      Send(Leave(pid, cid));
    }

    method SetChannelFilter(cid: u16, f: u8)
      requires Valid()
      modifies this, reg
      ensures Valid() && sent == old(sent) + [SetFilter(cid, f)] && nextChannel == old(nextChannel)
      ensures FilterIs(old(reg.channels), reg.channels, cid, f)
    {
      reg.SetFilter(cid, f);
      Send(SetFilter(cid, f));
    }

    method SetChannelPriority(cid: u16, prio: u8)
      requires Valid()
      modifies this, reg
      ensures Valid() && sent == old(sent) + [SetPrio(cid, prio)] && nextChannel == old(nextChannel)
      ensures PriorityIs(old(reg.channels), reg.channels, cid, prio)
    {
      reg.SetPriority(cid, prio);
      Send(SetPrio(cid, prio));
    }

    method OnPlayerDisconnect(pid: u16)
      requires Valid()
      modifies this, reg
      ensures Valid() && sent == old(sent) + [Gone(pid)] && nextChannel == old(nextChannel)
      ensures pid !in reg.players
      ensures forall c :: c in reg.channels ==> pid !in reg.channels[c].members
      ensures NowhereIs(old(reg.channels), reg.channels, pid)
    {
      OpByField(reg.channels, Gone(pid));
      reg.RemoveFromAllChannels(pid);
      GoneTwice(old(reg.channels), pid);
      reg.RemovePlayer(pid);
      Send(Gone(pid));
    }
  }

  /** The bridge pulls the player from all channels twice; the second time changes nothing. */
  lemma GoneTwice(cs: Channels, pid: u16)
    ensures ApplyOp(ApplyOp(cs, Gone(pid)), Gone(pid)) == ApplyOp(cs, Gone(pid))
  {
    WithoutStranger(Without(cs, pid), pid);
  }

  /** The relay's dispatch of one channel operation. */
  method Apply(reg: Registry, op: ChanOp)
    requires reg.Valid()
    modifies reg
    ensures reg.Valid() && reg.channels == ApplyOp(old(reg.channels), op)
    ensures reg.players == ApplyToPlayers(old(reg.players), old(reg.channels), op)
  {
    match op
    case Create(id, f, positional, prio) => reg.CreateChannel(id, f, positional, prio);
    case Destroy(id) => reg.DestroyChannel(id);
    case Join(pid, id) => reg.JoinChannel(pid, id);
    case Leave(pid, id) => reg.LeaveChannel(pid, id);
    case SetFilter(id, f) => reg.SetFilter(id, f);
    case SetPrio(id, prio) => reg.SetPriority(id, prio);
    case Gone(pid) => reg.RemovePlayer(pid);
  }

  /** One step of the two replicas: a bridge call, the arrival of the oldest op, or a relay-only touch. */
  datatype Event =
    | Connect(pid: u16)
    | Call(op: ChanOp)
    | Arrival
    | RelayTouch(pid: u16)

  /** The operations a run sends, with the ids the allocator gives out, and the next id. */
  function OpsOf(events: seq<Event>): (seq<ChanOp>, u16) {
    if events == [] then ([], 1)
    else
      var (ops, next) := OpsOf(events[..|events| - 1]);
      var e := events[|events| - 1];
      if !e.Call? then (ops, next)
      else (ops + [Numbered(e.op, next)], if e.op.Create? then Inc16(next) else next)
  }

  /** The operation as it is sent: a created channel has the allocator's id. */
  function Numbered(op: ChanOp, id: u16): ChanOp {
    match op
    case Create(_, f, positional, prio) => Create(id, f, positional, prio)
    case _ => op
  }

  /** How many of the operations arrive. */
  function Arrived(events: seq<Event>): (n: nat)
    ensures n <= |OpsOf(events).0|
  {
    if events == [] then 0
    else
      var n := Arrived(events[..|events| - 1]);
      if events[|events| - 1].Arrival? && n < |OpsOf(events[..|events| - 1]).0| then n + 1 else n
  }

  /** Membership seen from the player's side is settled by the channel table. */
  lemma MembershipSettled(ps: Players, qs: Players, cs: Channels, p: u16)
    requires Symmetric(ps, cs) && Symmetric(qs, cs)
    ensures PlayerOr(ps, p).channels == PlayerOr(qs, p).channels
  {
    assert forall c :: c in PlayerOr(ps, p).channels <==> c in cs && p in cs[c].members;
    assert forall c :: c in PlayerOr(qs, p).channels <==> c in cs && p in cs[c].members;
  }

  /**
    Every interleaving of bridge calls and in-order, loss-free delivery: the relay's channel table
    is the mirror as of the last delivered operation, and the mirror itself once all are delivered.
   */
  method Replicate(events: seq<Event>)
    returns (mirror: Channels, relay: Channels, sent: seq<ChanOp>, delivered: nat,
             mirrorPlayers: Players, relayPlayers: Players)
    ensures sent == OpsOf(events).0 && delivered == Arrived(events)
    ensures mirror == Fold(sent) && relay == Fold(sent[..delivered])
    ensures delivered == |sent| ==> relay == mirror
    ensures delivered == |sent| ==>
              forall p :: PlayerOr(mirrorPlayers, p).channels == PlayerOr(relayPlayers, p).channels
    ensures Filed(mirrorPlayers, mirror) && Symmetric(mirrorPlayers, mirror)
    ensures Filed(relayPlayers, relay) && Symmetric(relayPlayers, relay)
  {
    hide Fold, Symmetric, Filed, ApplyOp, ApplyToPlayers;
    var link := new ControlLink();
    var reg := new Registry();
    delivered := 0;
    NothingSent();
    assert link.sent[..0] == [];
    for n := 0 to |events|
      invariant fresh(link) && fresh(link.reg) && fresh(reg) && reg != link.reg
      invariant link.Valid() && reg.Valid() && delivered <= |link.sent|
      invariant reg.channels == Fold(link.sent[..delivered])
      invariant (link.sent, link.nextChannel) == OpsOf(events[..n]) && delivered == Arrived(events[..n])
    {
      assert events[..n + 1][..n] == events[..n];
      ghost var before := link.sent;
      match events[n] {
        case Connect(pid) => link.OnPlayerConnect(pid);
        case Call(op) => Invoke(link, op);
        case Arrival =>
          if delivered < |link.sent| {
            var op := link.sent[delivered];
            Apply(reg, op);
            FoldPush(link.sent[..delivered], op);
            delivered := delivered + 1;
            assert link.sent[..delivered] == link.sent[..delivered - 1] + [op];
          }
        case RelayTouch(pid) => var _ := reg.Touch(pid);
      }
      assert link.sent[..delivered] == before[..delivered];
    }
    assert events[..|events|] == events;
    sent := link.sent;
    mirror, relay := link.reg.channels, reg.channels;
    mirrorPlayers, relayPlayers := link.reg.players, reg.players;
    assert sent[..|sent|] == sent;
    if delivered == |sent| {
      forall p: u16 ensures PlayerOr(mirrorPlayers, p).channels == PlayerOr(relayPlayers, p).channels {
        MembershipSettled(mirrorPlayers, relayPlayers, mirror, p);
      }
    }
  }

  lemma NothingSent()
    ensures Fold([]) == map[]
  {
  }

  /** The bridge call behind an operation; channels are opened by `CreateChannel` only. */
  method Invoke(link: ControlLink, op: ChanOp)
    requires link.Valid()
    modifies link, link.reg
    ensures link.Valid()
    ensures link.sent == old(link.sent) + [Numbered(op, old(link.nextChannel))]
    ensures link.nextChannel == if op.Create? then Inc16(old(link.nextChannel)) else old(link.nextChannel)
  {
    match op
    case Create(_, f, positional, prio) => var _ := link.CreateChannel(f, positional, prio);
    case Destroy(id) => link.DestroyChannel(id);
    case Join(pid, id) => link.JoinChannel(pid, id);
    case Leave(pid, id) => link.LeaveChannel(pid, id);
    case SetFilter(id, f) => link.SetChannelFilter(id, f);
    case SetPrio(id, prio) => link.SetChannelPriority(id, prio);
    case Gone(pid) => link.OnPlayerDisconnect(pid);
  }
}
