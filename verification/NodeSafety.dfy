/** What one member keeps whatever claims reach it, true or forged, in any order. */
module NodeSafety {
  import opened Types
  import opened Node

  // ---------- Events ----------

  /** The membership a listener rebuilds from the events it has received. */
  function Replay(events: Log): map<Id, Member> {
    match events
    case Quiet => map[]
    case Then(before, e) =>
      if e.kind == NodeLeave then Replay(before) - {e.node.id} else Replay(before)[e.node.id := e.node]
  }

  /** Every event makes sense to that listener: exactly the joins are about unknown members. */
  predicate Sensible(events: Log) {
    match events
    case Quiet => true
    case Then(before, e) => Sensible(before) && (e.kind == NodeJoin <==> e.node.id !in Replay(before))
  }

  function Active(table: map<Id, Entry>): map<Id, Member> {
    map id | id in table && !table[id].DeadOrLeft() :: MemberOf(id, table[id])
  }

  ghost predicate EventsExact(events: Log, table: map<Id, Entry>) {
    Sensible(events) && Replay(events) == Active(table)
  }

  // ---------- The invariant, member by member ----------

  /** A queued claim describes the entry it is named after, at that entry's lives or a later one. */
  predicate Describes(c: Claim, e: Entry) {
    match c
    case Alive(lives, _, _, tags) => e.state == StateAlive && lives == e.lives && tags == e.tags
    case Suspect(lives, _, _) => e.state == StateSuspect && lives >= e.lives
    case Dead(lives, _, left) => e.state == (if left then StateLeft else StateDead) && lives == e.lives
    case Remote(_, _, _, _, _) => false
  }

  predicate IsSuspect(m: Node, id: Id) {
    id in m.table && m.table[id].state == StateSuspect
  }

  /** The suspicions are an index of the suspects. */
  predicate Indexed(m: Node, id: Id) {
    id in m.suspicions <==> IsSuspect(m, id)
  }

  /** A member never suspects itself, and gives itself up only after it has left. */
  predicate OwnEntrySound(m: Node, id: Id) {
    id == m.id && id in m.table ==> m.table[id].state == StateAlive || (m.left && m.table[id].DeadOrLeft())
  }

  predicate GossipFresh(m: Node, id: Id) {
    id in m.gossip ==>
      id != NO_ID && m.gossip[id].id == id && (id in m.table ==> Describes(m.gossip[id], m.table[id]))
  }

  /** A suspect is on its way to a verdict: its own timer is armed, or its kill is decided. */
  predicate Watched(m: Node, id: Id) {
    IsSuspect(m, id) ==>
      Timer(id, m.table[id].lives) in m.timers || Dead(m.table[id].lives, id, false) in m.kills
  }

  predicate CellInv(m: Node, id: Id) {
    Indexed(m, id) && OwnEntrySound(m, id) && GossipFresh(m, id) && Watched(m, id)
  }

  ghost predicate NodeInv(m: Node) {
    (forall id :: CellInv(m, id)) && EventsExact(m.events, m.table)
  }

  // ---------- Framing ----------

  /** What `m` and `m'` hold about `id` is the same. */
  predicate SameCell(m: Node, m': Node, id: Id) {
    && (id in m.table <==> id in m'.table)
    && (id in m.table ==> m.table[id] == m'.table[id])
    && (id in m.suspicions <==> id in m'.suspicions)
    && (id in m.suspicions ==> m.suspicions[id] == m'.suspicions[id])
    && (id in m.gossip <==> id in m'.gossip)
    && (id in m.gossip ==> m.gossip[id] == m'.gossip[id])
  }

  /** `m'` differs from `m` in what it holds about `id`, and may have more armed timers. */
  ghost predicate OnlyAt(m: Node, m': Node, id: Id) {
    && m'.id == m.id && m'.addr == m.addr && m'.config == m.config
    && m'.left == m.left && m'.kills == m.kills && m'.probes == m.probes
    && m.timers <= m'.timers
    && (forall x :: x != id ==> SameCell(m, m', x))
  }

  lemma AliveOnlyAt(m: Node, a: AliveClaim, now: int)
    ensures OnlyAt(m, AliveNode(m, a, now), a.id)
  {
  }

  lemma RefuteOnlyAt(m: Node, lives: nat)
    requires m.id in m.table
    ensures OnlyAt(m, Refute(m, lives), m.id)
  {
  }

  lemma StartSuspicionOnlyAt(m: Node, s: SuspectClaim, now: int)
    requires s.id in m.table
    ensures OnlyAt(m, StartSuspicion(m, s, now), s.id)
  {
  }

  lemma ConfirmSuspicionOnlyAt(m: Node, s: SuspectClaim)
    requires s.id in m.suspicions
    ensures OnlyAt(m, ConfirmSuspicion(m, s), s.id)
  {
  }

  lemma SuspectOnlyAt(m: Node, s: SuspectClaim, now: int)
    ensures OnlyAt(m, SuspectNode(m, s, now), s.id)
  {
    if s.id !in m.table || s.lives < m.table[s.id].lives {
    } else if s.id in m.suspicions {
      ConfirmSuspicionOnlyAt(m, s);
    } else if s.id == m.id {
      RefuteOnlyAt(m, s.lives);
    } else {
      StartSuspicionOnlyAt(m, s, now);
    }
  }

  lemma DeadOnlyAt(m: Node, d: DeadClaim, now: int)
    ensures OnlyAt(m, DeadNode(m, d, now), d.id)
  {
  }

  /** A handler touches only what is held about the subject of its claim. */
  lemma HandleOnlyAt(m: Node, c: Claim, now: int)
    ensures OnlyAt(m, Handle(m, c, now), c.id)
  {
    match c
    case Alive(_, _, _, _) => AliveOnlyAt(m, c, now);
    case Suspect(_, _, _) => SuspectOnlyAt(m, c, now);
    case Dead(_, _, _) => DeadOnlyAt(m, c, now);
    case Remote(lives, id, addr, tags, _) =>
      match c.state {
        case StateAlive => AliveOnlyAt(m, Alive(lives, id, addr, tags), now);
        case StateLeft => DeadOnlyAt(m, Dead(lives, id, true), now);
        case _ => SuspectOnlyAt(m, Suspect(lives, id, m.id), now);
      }
  }

  lemma FrameKeeps(m: Node, m': Node, id: Id)
    requires OnlyAt(m, m', id)
    requires forall x :: x != id ==> CellInv(m, x)
    requires CellInv(m', id)
    ensures forall x :: CellInv(m', x)
  {
    forall x ensures CellInv(m', x) {
      if x != id {
        assert SameCell(m, m', x) && CellInv(m, x);
      }
    }
  }

  // ---------- The events follow the table ----------

  lemma JoinIsExact(events: Log, table: map<Id, Entry>, id: Id, e: Entry)
    requires EventsExact(events, table)
    requires !e.DeadOrLeft() && (id in table ==> table[id].DeadOrLeft())
    ensures EventsExact(Then(events, Event(NodeJoin, MemberOf(id, e))), table[id := e])
  {
    assert Active(table[id := e]) == Active(table)[id := MemberOf(id, e)];
  }

  lemma UpdateIsExact(events: Log, table: map<Id, Entry>, id: Id, e: Entry)
    requires EventsExact(events, table)
    requires !e.DeadOrLeft() && id in table && !table[id].DeadOrLeft()
    ensures EventsExact(Then(events, Event(NodeUpdate, MemberOf(id, e))), table[id := e])
    ensures MemberOf(id, e) == MemberOf(id, table[id]) ==> EventsExact(events, table[id := e])
  {
    assert Active(table[id := e]) == Active(table)[id := MemberOf(id, e)];
    assert MemberOf(id, e) == MemberOf(id, table[id]) ==> Active(table)[id := MemberOf(id, e)] == Active(table);
  }

  lemma LeaveIsExact(events: Log, table: map<Id, Entry>, id: Id, e: Entry)
    requires EventsExact(events, table)
    requires e.DeadOrLeft() && id in table && !table[id].DeadOrLeft()
    ensures EventsExact(Then(events, Event(NodeLeave, MemberOf(id, table[id]))), table[id := e])
  {
    assert Active(table[id := e]) == Active(table) - {id};
  }

  lemma AliveEventsExact(m: Node, a: AliveClaim, now: int)
    requires EventsExact(m.events, m.table)
    ensures EventsExact(AliveNode(m, a, now).events, AliveNode(m, a, now).table)
  {
    if a.id !in m.table {
      JoinIsExact(m.events, m.table, a.id, Entry(a.addr, a.tags, a.lives, StateAlive, now));
    } else {
      var e, e' := m.table[a.id], AliveEntry(m.table[a.id], a, now);
      if e.DeadOrLeft() {
        JoinIsExact(m.events, m.table, a.id, e');
        UpdateIsExact(Then(m.events, Event(NodeJoin, MemberOf(a.id, e'))), m.table[a.id := e'], a.id, e');
        assert m.table[a.id := e'][a.id := e'] == m.table[a.id := e'];
      } else {
        UpdateIsExact(m.events, m.table, a.id, e');
      }
    }
  }

  lemma SuspectEventsExact(m: Node, s: SuspectClaim, now: int)
    requires EventsExact(m.events, m.table)
    ensures EventsExact(SuspectNode(m, s, now).events, SuspectNode(m, s, now).table)
  {
    if s.id in m.table && m.table[s.id].state == StateAlive {
      UpdateIsExact(m.events, m.table, s.id, SuspectNode(m, s, now).table[s.id]);
    }
  }

  lemma DeadEventsExact(m: Node, d: DeadClaim, now: int)
    requires EventsExact(m.events, m.table)
    ensures EventsExact(DeadNode(m, d, now).events, DeadNode(m, d, now).table)
  {
    if d.id in m.table && !m.table[d.id].DeadOrLeft() {
      var e' := DeadNode(m, d, now).table[d.id];
      if e'.DeadOrLeft() {
        LeaveIsExact(m.events, m.table, d.id, e');
      } else {
        UpdateIsExact(m.events, m.table, d.id, e');
      }
    }
  }

  // ---------- Each handler keeps the invariant ----------

  lemma AliveKeeps(m: Node, a: AliveClaim, now: int)
    requires NodeInv(m)
    ensures NodeInv(AliveNode(m, a, now))
  {
    AliveEventsExact(m, a, now);
    AliveOnlyAt(m, a, now);
    assert CellInv(m, a.id);
    FrameKeeps(m, AliveNode(m, a, now), a.id);
  }

  lemma SuspectKeeps(m: Node, s: SuspectClaim, now: int)
    requires NodeInv(m)
    ensures NodeInv(SuspectNode(m, s, now))
  {
    SuspectEventsExact(m, s, now);
    SuspectOnlyAt(m, s, now);
    assert CellInv(m, s.id);
    FrameKeeps(m, SuspectNode(m, s, now), s.id);
  }

  /** Also when the suspect `d.id` was watched only by the kill `d` that is being applied. */
  lemma DeadKeeps(m: Node, d: DeadClaim, now: int)
    requires forall x :: x != d.id ==> CellInv(m, x)
    requires Indexed(m, d.id) && OwnEntrySound(m, d.id) && GossipFresh(m, d.id)
    requires Watched(m, d.id) || Watched(m.(kills := m.kills + multiset{d}), d.id)
    requires EventsExact(m.events, m.table)
    ensures NodeInv(DeadNode(m, d, now))
  {
    DeadEventsExact(m, d, now);
    DeadOnlyAt(m, d, now);
    FrameKeeps(m, DeadNode(m, d, now), d.id);
  }

  lemma HandleKeeps(m: Node, c: Claim, now: int)
    requires NodeInv(m)
    ensures NodeInv(Handle(m, c, now))
  {
    match c
    case Alive(_, _, _, _) => AliveKeeps(m, c, now);
    case Suspect(_, _, _) => SuspectKeeps(m, c, now);
    case Dead(_, _, _) =>
      assert CellInv(m, c.id);
      DeadKeeps(m, c, now);
    case Remote(lives, id, addr, tags, _) =>
      assert CellInv(m, id);
      AliveKeeps(m, Alive(lives, id, addr, tags), now);
      SuspectKeeps(m, Suspect(lives, id, m.id), now);
      DeadKeeps(m, Dead(lives, id, true), now);
  }

  /** A decided kill is spent whether or not its target is still the suspect it was decided for. */
  lemma KillKeeps(m: Node, d: DeadClaim, now: int)
    requires NodeInv(m)
    ensures NodeInv(RunKill(m, d, now))
  {
    if d in m.kills {
      var m0 := m.(kills := m.kills - multiset{d});
      assert m0.kills + multiset{d} == m.kills;
      forall x ensures x != d.id ==> CellInv(m0, x) {
        assert CellInv(m, x);
      }
      assert CellInv(m, d.id);
      DeadKeeps(m0, d, now);
    }
  }

  lemma FireKeeps(m: Node, t: Timer)
    requires NodeInv(m)
    ensures NodeInv(FireTimer(m, t))
  {
    forall x ensures CellInv(FireTimer(m, t), x) {
      assert CellInv(m, x);
    }
  }

  lemma LeaveKeeps(m: Node)
    requires NodeInv(m)
    ensures NodeInv(BeginLeave(m))
  {
    forall x ensures CellInv(BeginLeave(m), x) {
      assert CellInv(m, x);
    }
  }

  lemma UpdateTagsKeeps(m: Node, tags: Bytes, now: int)
    requires NodeInv(m)
    ensures NodeInv(UpdateTags(m, tags, now))
  {
    if m.id in m.table {
      var m0 := m.(lives := m.lives + 1);
      forall x ensures CellInv(m0, x) {
        assert CellInv(m, x);
      }
      AliveKeeps(m0, Alive(m.lives + 1, m.id, m.table[m.id].addr, tags), now);
    }
  }

  lemma ReapKeeps(m: Node, now: int)
    requires NodeInv(m)
    ensures NodeInv(Reap(m, now))
  {
    assert Active(Reap(m, now).table) == Active(m.table);
    forall x ensures CellInv(Reap(m, now), x) {
      assert CellInv(m, x);
    }
  }

  lemma FinishKeeps(m: Node, name: Id)
    requires NodeInv(m)
    ensures NodeInv(FinishBroadcast(m, name))
  {
    forall x ensures CellInv(FinishBroadcast(m, name), x) {
      assert CellInv(m, x);
    }
  }

  lemma ProbeKeeps(m: Node, id: Id)
    requires NodeInv(m)
    ensures NodeInv(BeginProbe(m, id))
  {
    forall x ensures CellInv(BeginProbe(m, id), x) {
      assert CellInv(m, x);
    }
  }

  lemma StepKeeps(m: Node, op: Op, now: int)
    requires NodeInv(m)
    ensures NodeInv(Step(m, op, now))
  {
    match op
    case Deliver(c) => HandleKeeps(m, c, now);
    case Fire(t) => FireKeeps(m, t);
    case Kill(d) => KillKeeps(m, d, now);
    case Probe(id) => ProbeKeeps(m, id);
    case ProbeFailed(s) => SuspectKeeps(m, s, now);
    case CallLeave => LeaveKeeps(m);
    case CallUpdateTags(tags) => UpdateTagsKeeps(m, tags, now);
    case RunReap => ReapKeeps(m, now);
    case Finish(name) => FinishKeeps(m, name);
  }

  lemma BootKeeps(id: Id, addr: Address, config: Config, tags: Bytes, now: int)
    ensures NodeInv(Boot(id, addr, config, tags, now))
  {
    var m := Blank(id, addr, config).(lives := 1);
    assert Active(m.table) == map[];
    AliveKeeps(m, Alive(1, id, addr, tags), now);
  }

  /** Index, own entry, gossip, events and timers are right after every run of a member. */
  lemma {:induction false} RunKeeps(m: Node, ops: seq<TimedOp>)
    requires NodeInv(m)
    ensures NodeInv(Run(m, ops))
  {
    if ops != [] {
      var rest, last := ops[..|ops| - 1], ops[|ops| - 1];
      RunKeeps(m, rest);
      StepKeeps(Run(m, rest), last.op, last.now);
    }
  }
}
