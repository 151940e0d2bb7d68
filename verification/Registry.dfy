/** Players, channels and the two-way membership relation: core/src/registry.cpp. */
module Registry {
  import opened Ints

  const FILTER_NONE: u8 := 0
  const FILTER_RADIO: u8 := 1

  const POLICY_DUCK: u8 := 1
  const POLICY_EXCLUSIVE: u8 := 2

  const RANGE_WHISPER: u8 := 0
  const RANGE_NORMAL: u8 := 1
  const RANGE_SHOUT: u8 := 2

  datatype Vec3 = Vec3(x: real, y: real, z: real)

  datatype Player = Player(
    id: u16, pos: Vec3, interior: u16, vworld: u16, vehicle: u8,
    muted: bool, deafen: bool, alive: bool, spectator: bool,
    range: u8, rangeOverride: real,
    transmitting: bool, channelMask: u32, speakerphone: bool,
    audioActive: bool, lastAudioTick: u32,
    policy: u8, duckLevel: real, proximityFloor: real,
    channels: set<u16>, mutedTargets: set<u16>)

  datatype Channel = Channel(id: u16, filter: u8, positional: bool, priority: u8, members: set<u16>)

  /** A player entry as it is first created. */
  function Newcomer(id: u16): Player {
    Player(id, Vec3(0.0, 0.0, 0.0), 0, 0, 0,
           false, false, true, false,
           RANGE_NORMAL, -1.0,
           false, 0, false,
           false, 0,
           POLICY_DUCK, 0.5, 0.25,
           {}, {})
  }

  type Players = map<u16, Player>
  type Channels = map<u16, Channel>

  /** Entries are filed under their own id. */
  ghost predicate Filed(ps: Players, cs: Channels) {
    && (forall p :: p in ps ==> ps[p].id == p)
    && (forall c :: c in cs ==> cs[c].id == c)
  }

  /** A player is in a channel's member set exactly when the channel is in the player's set. */
  ghost predicate Symmetric(ps: Players, cs: Channels) {
    && (forall p, c :: p in ps && c in ps[p].channels ==> c in cs && p in cs[c].members)
    && (forall p, c :: c in cs && p in cs[c].members ==> p in ps && c in ps[p].channels)
  }

  // ---- what each operation does to the channel table ----

  datatype ChanOp =
    | Create(id: u16, filter: u8, positional: bool, prio: u8)
    | Destroy(id: u16)
    | Join(pid: u16, id: u16)
    | Leave(pid: u16, id: u16)
    | SetFilter(id: u16, filter: u8)
    | SetPrio(id: u16, prio: u8)
    | Gone(pid: u16)

  /** The channel table after one operation: a function of the channel table alone. */
  function ApplyOp(cs: Channels, op: ChanOp): Channels {
    match op
    case Create(id, f, pos, prio) =>
      cs[id := Channel(id, f, pos, prio, if id in cs then cs[id].members else {})]
    case Destroy(id) => cs - {id}
    case Join(pid, id) =>
      if id in cs then cs[id := cs[id].(members := cs[id].members + {pid})] else cs
    case Leave(pid, id) =>
      if id in cs then cs[id := cs[id].(members := cs[id].members - {pid})] else cs
    case SetFilter(id, f) => if id in cs then cs[id := cs[id].(filter := f)] else cs
    case SetPrio(id, prio) => if id in cs then cs[id := cs[id].(priority := prio)] else cs
    case Gone(pid) => Without(cs, pid)
  }

  /** Every channel without the given member. */
  function Without(cs: Channels, pid: u16): Channels {
    map c | c in cs :: cs[c].(members := cs[c].members - {pid})
  }

  function PlayerOr(ps: Players, id: u16): (p: Player) {
    if id in ps then ps[id] else Newcomer(id)
  }

  /** The player table after one operation. */
  function ApplyToPlayers(ps: Players, cs: Channels, op: ChanOp): Players {
    match op
    case Destroy(id) =>
      if id !in cs then ps
      else map p | p in ps :: if p in cs[id].members then ps[p].(channels := ps[p].channels - {id}) else ps[p]
    case Join(pid, id) =>
      if id !in cs then ps
      else ps[pid := PlayerOr(ps, pid).(channels := PlayerOr(ps, pid).channels + {id})]
    case Leave(pid, id) =>
      if pid in ps then ps[pid := ps[pid].(channels := ps[pid].channels - {id})] else ps
    case Gone(pid) => ps - {pid}
    case _ => ps
  }

  lemma WithoutStranger(cs: Channels, pid: u16)
    requires forall c :: c in cs ==> pid !in cs[c].members
    ensures Without(cs, pid) == cs
  {
    forall c | c in cs ensures Without(cs, pid)[c] == cs[c] {
      assert cs[c].members - {pid} == cs[c].members;
    }
  }

  /** Nothing about the channel changed. */
  predicate Same(cs: Channels, cs': Channels, c: u16) {
    (c in cs <==> c in cs') && (c in cs ==> cs'[c] == cs[c])
  }

  /** Only the filter of an existing channel is another one. */
  ghost predicate FilterIs(cs: Channels, cs': Channels, id: u16, f: u8) {
    && (forall c: u16 :: c != id ==> Same(cs, cs', c)) && (id in cs <==> id in cs')
    && (id in cs ==>
          var was, now := cs[id], cs'[id];
          && now.filter == f && now.priority == was.priority && now.positional == was.positional
          && now.members == was.members && now.id == was.id)
  }

  /** Only the priority of an existing channel is another one. */
  ghost predicate PriorityIs(cs: Channels, cs': Channels, id: u16, prio: u8) {
    && (forall c: u16 :: c != id ==> Same(cs, cs', c)) && (id in cs <==> id in cs')
    && (id in cs ==>
          var was, now := cs[id], cs'[id];
          && now.priority == prio && now.filter == was.filter && now.positional == was.positional
          && now.members == was.members && now.id == was.id)
  }

  /** Only who is in an existing channel is different. */
  ghost predicate MembersAre(cs: Channels, cs': Channels, id: u16, members: set<u16>) {
    && (forall c: u16 :: c != id ==> Same(cs, cs', c)) && (id in cs <==> id in cs')
    && (id in cs ==>
          var was, now := cs[id], cs'[id];
          && now.members == members && now.filter == was.filter && now.priority == was.priority
          && now.positional == was.positional && now.id == was.id)
  }

  /** The channel is there as described, with the members it had, and no other is touched. */
  ghost predicate ChannelIs(cs: Channels, cs': Channels, id: u16, f: u8, positional: bool, prio: u8) {
    && (forall c: u16 :: c != id ==> Same(cs, cs', c)) && id in cs'
    && cs'[id].id == id && cs'[id].filter == f && cs'[id].positional == positional && cs'[id].priority == prio
    && cs'[id].members == if id in cs then cs[id].members else {}
  }

  /** The player is in no channel any more, and that is all. */
  ghost predicate NowhereIs(cs: Channels, cs': Channels, pid: u16) {
    && cs'.Keys == cs.Keys
    && forall c :: c in cs ==>
         var was, now := cs[c], cs'[c];
         && now.members == was.members - {pid} && now.filter == was.filter && now.priority == was.priority
         && now.positional == was.positional && now.id == was.id
  }

  /** What each operation does to the channel table, field by field. */
  lemma OpByField(cs: Channels, op: ChanOp)
    ensures var cs' := ApplyOp(cs, op);
            match op
            case Create(id, f, positional, prio) => ChannelIs(cs, cs', id, f, positional, prio)
            case Destroy(id) => id !in cs' && forall c: u16 :: c != id ==> Same(cs, cs', c)
            case Join(pid, id) => MembersAre(cs, cs', id, if id in cs then cs[id].members + {pid} else {})
            case Leave(pid, id) => MembersAre(cs, cs', id, if id in cs then cs[id].members - {pid} else {})
            case SetFilter(id, f) => FilterIs(cs, cs', id, f)
            case SetPrio(id, prio) => PriorityIs(cs, cs', id, prio)
            case Gone(pid) => NowhereIs(cs, cs', pid)
  {
  }

  lemma OpKeepsFiled(ps: Players, cs: Channels, op: ChanOp)
    requires Filed(ps, cs)
    ensures Filed(ApplyToPlayers(ps, cs, op), ApplyOp(cs, op))
  {
  }

  lemma DestroyKeepsSymmetry(ps: Players, cs: Channels, id: u16)
    requires Symmetric(ps, cs)
    ensures Symmetric(ApplyToPlayers(ps, cs, Destroy(id)), ApplyOp(cs, Destroy(id)))
  {
  }

  lemma JoinKeepsSymmetry(ps: Players, cs: Channels, pid: u16, id: u16)
    requires Symmetric(ps, cs)
    ensures Symmetric(ApplyToPlayers(ps, cs, Join(pid, id)), ApplyOp(cs, Join(pid, id)))
  {
  }

  lemma LeaveKeepsSymmetry(ps: Players, cs: Channels, pid: u16, id: u16)
    requires Symmetric(ps, cs)
    ensures Symmetric(ApplyToPlayers(ps, cs, Leave(pid, id)), ApplyOp(cs, Leave(pid, id)))
  {
  }

  /** Every operation keeps the membership relation two-way. */
  lemma OpKeepsSymmetry(ps: Players, cs: Channels, op: ChanOp)
    requires Filed(ps, cs) && Symmetric(ps, cs)
    ensures Filed(ApplyToPlayers(ps, cs, op), ApplyOp(cs, op))
    ensures Symmetric(ApplyToPlayers(ps, cs, op), ApplyOp(cs, op))
  {
    OpKeepsFiled(ps, cs, op);
    match op
    case Destroy(id) => DestroyKeepsSymmetry(ps, cs, id);
    case Join(pid, id) => JoinKeepsSymmetry(ps, cs, pid, id);
    case Leave(pid, id) => LeaveKeepsSymmetry(ps, cs, pid, id);
    case _ =>
  }

  class Registry {
    var players: Players
    var channels: Channels

    ghost predicate Valid()
      reads this
    {
      Filed(players, channels) && Symmetric(players, channels)
    }

    constructor ()
      ensures Valid() && players == map[] && channels == map[]
    {
      players, channels := map[], map[];
    }

    /** Get or create. */
    method Touch(id: u16) returns (p: Player)
      requires Valid()
      modifies this`players
      ensures Valid()
      ensures p == PlayerOr(old(players), id) && players == old(players)[id := p]
    {
      if id !in players {
        players := players[id := Newcomer(id)];
      }
      p := players[id];
    }

    /** Overwrites the record of a player, leaving memberships alone. */
    method Put(id: u16, p: Player)
      requires Valid() && id in players && p.id == id && p.channels == players[id].channels
      modifies this`players
      ensures Valid() && players == old(players)[id := p]
    {
      players := players[id := p];
    }

    method RemoveFromAllChannels(pid: u16)
      requires Valid()
      modifies this
      ensures Valid() && channels == ApplyOp(old(channels), Gone(pid))
      ensures pid !in old(players) ==> players == old(players)
      ensures pid in old(players) ==>
                players == old(players)[pid := old(players)[pid].(channels := {})]
    {
      if pid !in players {
        WithoutStranger(channels, pid);
        return;
      }
      LeaveEach(pid, players[pid].channels);
      players := players[pid := players[pid].(channels := {})];
    }

    /** Takes the player out of the listed channels, which are all of theirs. */
    method LeaveEach(pid: u16, mine: set<u16>)
      requires forall c :: c in channels && c !in mine ==> pid !in channels[c].members
      modifies this`channels
      ensures channels == Without(old(channels), pid)
    {
      ghost var goal := Without(channels, pid);
      forall c | c in channels && c !in mine ensures channels[c] == goal[c] {
        assert channels[c].members - {pid} == channels[c].members;
      }
      var todo := mine;
      while todo != {}
        invariant todo <= mine && channels.Keys == goal.Keys
        invariant forall c :: c in channels && c !in todo ==> channels[c] == goal[c]
        invariant forall c :: c in channels && c in todo ==> channels[c] == old(channels)[c]
        decreases todo
      {
        var cid :| cid in todo;
        if cid in channels {
          channels := channels[cid := channels[cid].(members := channels[cid].members - {pid})];
        }
        todo := todo - {cid};
      }
    }

    method RemovePlayer(id: u16)
      requires Valid()
      modifies this
      ensures Valid()
      ensures players == ApplyToPlayers(old(players), old(channels), Gone(id))
      ensures channels == ApplyOp(old(channels), Gone(id))
    {
      RemoveFromAllChannels(id);
      players := players - {id};
    }

    method CreateChannel(id: u16, f: u8, positional: bool, prio: u8)
      requires Valid()
      modifies this`channels
      ensures Valid() && channels == ApplyOp(old(channels), Create(id, f, positional, prio))
      ensures ChannelIs(old(channels), channels, id, f, positional, prio)
    {
      OpByField(channels, Create(id, f, positional, prio));
      OpKeepsSymmetry(players, channels, Create(id, f, positional, prio));
      if id !in channels {
        channels := channels[id := Channel(id, FILTER_NONE, false, 100, {})];
      }
      channels := channels[id := channels[id].(id := id, filter := f, positional := positional, priority := prio)];
      assert channels == ApplyOp(old(channels), Create(id, f, positional, prio));
    }

    method DestroyChannel(id: u16)
      requires Valid()
      modifies this
      ensures Valid()
      ensures players == ApplyToPlayers(old(players), old(channels), Destroy(id))
      ensures channels == ApplyOp(old(channels), Destroy(id))
    {
      OpKeepsSymmetry(players, channels, Destroy(id));
      if id !in channels {
        assert channels - {id} == channels;
        return;
      }
      EvictMembers(id);
      channels := channels - {id};
    }

    /** Takes the channel out of each member's set. */
    method EvictMembers(id: u16)
      requires id in channels
      modifies this`players
      ensures players == ApplyToPlayers(old(players), channels, Destroy(id))
    {
      ghost var goal := ApplyToPlayers(players, channels, Destroy(id));
      var todo := channels[id].members;
      while todo != {}
        invariant todo <= channels[id].members && players.Keys == goal.Keys
        invariant forall p :: p in players && p !in todo ==> players[p] == goal[p]
        invariant forall p :: p in players && p in todo ==> players[p] == old(players)[p]
        decreases todo
      {
        var pid :| pid in todo;
        if pid in players {
          players := players[pid := players[pid].(channels := players[pid].channels - {id})];
        }
        todo := todo - {pid};
      }
    }

    method JoinChannel(pid: u16, cid: u16)
      requires Valid()
      modifies this
      ensures Valid()
      ensures players == ApplyToPlayers(old(players), old(channels), Join(pid, cid))
      ensures channels == ApplyOp(old(channels), Join(pid, cid))
    {
      OpKeepsSymmetry(players, channels, Join(pid, cid));
      if cid !in channels { return; }
      channels := channels[cid := channels[cid].(members := channels[cid].members + {pid})];
      if pid !in players {
        players := players[pid := Newcomer(pid)];
      }
      players := players[pid := players[pid].(channels := players[pid].channels + {cid})];
      assert players == ApplyToPlayers(old(players), old(channels), Join(pid, cid));
    }

    method LeaveChannel(pid: u16, cid: u16)
      requires Valid()
      modifies this
      ensures Valid()
      ensures players == ApplyToPlayers(old(players), old(channels), Leave(pid, cid))
      ensures channels == ApplyOp(old(channels), Leave(pid, cid))
    {
      OpKeepsSymmetry(players, channels, Leave(pid, cid));
      if cid in channels {
        channels := channels[cid := channels[cid].(members := channels[cid].members - {pid})];
      }
      if pid in players {
        players := players[pid := players[pid].(channels := players[pid].channels - {cid})];
      }
    }

    method SetFilter(cid: u16, f: u8)
      requires Valid()
      modifies this`channels
      ensures Valid() && channels == ApplyOp(old(channels), ChanOp.SetFilter(cid, f))
      ensures FilterIs(old(channels), channels, cid, f)
    {
      OpByField(channels, ChanOp.SetFilter(cid, f));
      OpKeepsSymmetry(players, channels, ChanOp.SetFilter(cid, f));
      if cid in channels {
        channels := channels[cid := channels[cid].(filter := f)];
      }
    }

    method SetPriority(cid: u16, prio: u8)
      requires Valid()
      modifies this`channels
      ensures Valid() && channels == ApplyOp(old(channels), SetPrio(cid, prio))
      ensures PriorityIs(old(channels), channels, cid, prio)
    {
      OpByField(channels, SetPrio(cid, prio));
      OpKeepsSymmetry(players, channels, SetPrio(cid, prio));
      if cid in channels {
        channels := channels[cid := channels[cid].(priority := prio)];
      }
    }
  }
}
