/** Properties of whole runs of one member, for every sequence of steps and every claim delivered. */
module NodeRuns {
  import opened Types
  import opened Node
  import opened NodeSafety

  // ---------- Knowledge only moves forward ----------

  function Severity(s: StateType): (r: nat) {
    match s
    case StateAlive => 0
    case StateSuspect => 1
    case _ => 2
  }

  /** Later news: a higher lives number, or a graver state at the same one. */
  predicate Outranks(e': Entry, e: Entry) {
    e'.lives > e.lives || (e'.lives == e.lives && Severity(e'.state) > Severity(e.state))
  }

  predicate Forward(e: Entry, e': Entry) {
    e' == e || (Outranks(e', e) && e'.addr == e.addr)
  }

  lemma AliveForward(m: Node, a: AliveClaim, now: int)
    requires a.id in m.table
    ensures a.id in AliveNode(m, a, now).table && Forward(m.table[a.id], AliveNode(m, a, now).table[a.id])
  {
  }

  lemma SuspectForward(m: Node, s: SuspectClaim, now: int)
    requires s.id in m.table
    ensures s.id in SuspectNode(m, s, now).table && Forward(m.table[s.id], SuspectNode(m, s, now).table[s.id])
  {
  }

  lemma DeadForward(m: Node, d: DeadClaim, now: int)
    requires d.id in m.table
    ensures d.id in DeadNode(m, d, now).table && Forward(m.table[d.id], DeadNode(m, d, now).table[d.id])
  {
  }

  lemma HandleForward(m: Node, c: Claim, now: int, id: Id)
    requires id in m.table
    ensures id in Handle(m, c, now).table
    ensures Forward(m.table[id], Handle(m, c, now).table[id])
  {
    if id != c.id {
      HandleOnlyAt(m, c, now);
      assert SameCell(m, Handle(m, c, now), id);
    } else {
      match c
      case Alive(_, _, _, _) => AliveForward(m, c, now);
      case Suspect(_, _, _) => SuspectForward(m, c, now);
      case Dead(_, _, _) => DeadForward(m, c, now);
      case Remote(lives, _, addr, tags, _) =>
        AliveForward(m, Alive(lives, id, addr, tags), now);
        SuspectForward(m, Suspect(lives, id, m.id), now);
        DeadForward(m, Dead(lives, id, true), now);
    }
  }

  lemma KillForward(m: Node, d: DeadClaim, now: int, id: Id)
    requires id in m.table
    ensures id in RunKill(m, d, now).table && Forward(m.table[id], RunKill(m, d, now).table[id])
  {
    HandleForward(m.(kills := m.kills - multiset{d}), d, now, id);
  }

  lemma UpdateTagsForward(m: Node, tags: Bytes, now: int, id: Id)
    requires id in m.table
    ensures id in UpdateTags(m, tags, now).table && Forward(m.table[id], UpdateTags(m, tags, now).table[id])
  {
    if m.id in m.table {
      HandleForward(m.(lives := m.lives + 1), Alive(m.lives + 1, m.id, m.table[m.id].addr, tags), now, id);
    }
  }

  /** While a member stays in the table, a step leaves its entry alone or moves it strictly forward. */
  lemma StepForward(m: Node, op: Op, now: int, id: Id)
    requires id in m.table && id in Step(m, op, now).table
    ensures Forward(m.table[id], Step(m, op, now).table[id])
  {
    match op
    case Deliver(c) => HandleForward(m, c, now, id);
    case Kill(d) => KillForward(m, d, now, id);
    case ProbeFailed(s) => HandleForward(m, s, now, id);
    case CallUpdateTags(tags) => UpdateTagsForward(m, tags, now, id);
    case _ =>
  }

  /** The states that a run passes through, the first and the last included. */
  function Trace(m: Node, ops: seq<TimedOp>): (tr: seq<Node>)
    ensures |tr| == |ops| + 1
  {
    if ops == [] then [m]
    else
      var rest, last := Trace(m, ops[..|ops| - 1]), ops[|ops| - 1];
      rest + [Step(rest[|ops| - 1], last.op, last.now)]
  }

  lemma {:induction false} TraceIsRun(m: Node, ops: seq<TimedOp>, k: nat)
    requires k <= |ops|
    ensures Trace(m, ops)[k] == Run(m, ops[..k])
  {
    if k == |ops| {
      assert ops[..k] == ops;
      if k > 0 {
        TraceIsRun(m, ops[..k - 1], k - 1);
        assert ops[..k - 1][..k - 1] == ops[..k - 1];
      }
    } else {
      TraceIsRun(m, ops[..|ops| - 1], k);
      assert ops[..|ops| - 1][..k] == ops[..k];
    }
  }

  predicate ForwardAt(tr: seq<Node>, id: Id, k: nat)
    requires k + 1 < |tr|
  {
    id in tr[k].table && id in tr[k + 1].table ==> Forward(tr[k].table[id], tr[k + 1].table[id])
  }

  lemma {:induction false} TraceForward(m: Node, ops: seq<TimedOp>, id: Id, k: nat)
    requires k < |ops|
    ensures ForwardAt(Trace(m, ops), id, k)
  {
    var rest, last := Trace(m, ops[..|ops| - 1]), ops[|ops| - 1];
    if k < |ops| - 1 {
      TraceForward(m, ops[..|ops| - 1], id, k);
      assert ForwardAt(rest, id, k);
    } else {
      LastForward(rest[k], last, id);
    }
  }

  lemma LastForward(m: Node, last: TimedOp, id: Id)
    ensures var m' := Step(m, last.op, last.now);
            id in m.table && id in m'.table ==> Forward(m.table[id], m'.table[id])
  {
    if id in m.table && id in Step(m, last.op, last.now).table {
      StepForward(m, last.op, last.now, id);
    }
  }

  /** `id` stays in the table from state `i` to state `j`. */
  ghost predicate Resident(tr: seq<Node>, id: Id, i: nat, j: nat)
    requires i <= j < |tr|
  {
    forall k :: i <= k <= j ==> id in tr[k].table
  }

  lemma {:induction false} StatesForward(tr: seq<Node>, id: Id, i: nat, j: nat)
    requires i <= j < |tr| && Resident(tr, id, i, j)
    requires forall k: nat :: k + 1 < |tr| ==> ForwardAt(tr, id, k)
    ensures id in tr[i].table && id in tr[j].table && Forward(tr[i].table[id], tr[j].table[id])
    decreases j
  {
    if i < j {
      StatesForward(tr, id, i, j - 1);
      assert ForwardAt(tr, id, j - 1);
    }
  }

  /** No interleaving of old messages rolls an entry back. */
  lemma {:induction false} RunForward(m: Node, ops: seq<TimedOp>, id: Id, i: nat, j: nat)
    requires i <= j <= |ops| && Resident(Trace(m, ops), id, i, j)
    ensures var tr := Trace(m, ops);
            id in tr[i].table && id in tr[j].table && Forward(tr[i].table[id], tr[j].table[id])
  {
    forall k: nat | k < |ops| ensures ForwardAt(Trace(m, ops), id, k) {
      TraceForward(m, ops, id, k);
    }
    StatesForward(Trace(m, ops), id, i, j);
  }

  /** Step `k` starts a suspicion of `id` at `lives`. */
  predicate Suspects(tr: seq<Node>, id: Id, k: nat, lives: nat)
    requires k + 1 < |tr|
  {
    !IsSuspect(tr[k], id) && IsSuspect(tr[k + 1], id) && tr[k + 1].table[id].lives == lives
  }

  lemma StatesClimb(tr: seq<Node>, id: Id, i: nat, j: nat, l1: nat, l2: nat)
    requires i < j && j + 1 < |tr| && Resident(tr, id, i, j + 1)
    requires forall k: nat :: k + 1 < |tr| ==> ForwardAt(tr, id, k)
    requires Suspects(tr, id, i, l1) && Suspects(tr, id, j, l2)
    ensures l1 < l2
  {
    StatesForward(tr, id, i + 1, j);
    StatesForward(tr, id, j, j + 1);
  }

  /** Within one residence, each suspicion of a member is at a higher lives number than the one before. */
  lemma {:induction false} SuspicionsClimb(m: Node, ops: seq<TimedOp>, id: Id, i: nat, j: nat, l1: nat, l2: nat)
    requires i < j < |ops| && Resident(Trace(m, ops), id, i, j + 1)
    requires Suspects(Trace(m, ops), id, i, l1) && Suspects(Trace(m, ops), id, j, l2)
    ensures l1 < l2
  {
    forall k: nat | k < |ops| ensures ForwardAt(Trace(m, ops), id, k) {
      TraceForward(m, ops, id, k);
    }
    StatesClimb(Trace(m, ops), id, i, j, l1, l2);
  }

  // ---------- Timers ----------

  lemma OutlivedKill(m: Node, d: DeadClaim, now: int)
    requires d.id in m.table && m.table[d.id].lives > d.lives
    ensures RunKill(m, d, now) == m.(kills := m.kills - multiset{d})
  {
  }

  /** A refutation that lands between a timeout's check and its kill, or before either, defeats the
      kill: however long the kill is delayed, it changes nothing the member knows. */
  lemma {:induction false} RefutationDefeatsKill(m: Node, ops: seq<TimedOp>, i: nat, j: nat, d: DeadClaim, now: int)
    requires i <= j <= |ops| && Resident(Trace(m, ops), d.id, i, j)
    requires d.id in Trace(m, ops)[i].table && Trace(m, ops)[i].table[d.id].lives > d.lives
    ensures var m' := Trace(m, ops)[j];
            RunKill(m', d, now) == m'.(kills := m'.kills - multiset{d})
  {
    RunForward(m, ops, d.id, i, j);
    OutlivedKill(Trace(m, ops)[j], d, now);
  }

  lemma TimeoutDecides(m: Node, id: Id)
    requires CellInv(m, id) && IsSuspect(m, id)
    ensures var m' := FireTimer(m, Timer(id, m.table[id].lives));
            && Dead(m.table[id].lives, id, false) in m'.kills
            && m'.table == m.table && m'.events == m.events && m'.id == m.id
  {
  }

  lemma KillSucceeds(m: Node, id: Id, now: int)
    requires IsSuspect(m, id) && id != m.id && Dead(m.table[id].lives, id, false) in m.kills
    ensures var m' := RunKill(m, Dead(m.table[id].lives, id, false), now);
            && m'.table == m.table[id := m.table[id].(state := StateDead, changed := now)]
            && m'.events == Then(m.events, Event(NodeLeave, MemberOf(id, m.table[id])))
  {
  }

  /** No suspect is stuck: its timer's two steps, taken from here, end in its death. */
  lemma SuspectGetsVerdict(m: Node, id: Id, now: int)
    requires NodeInv(m) && IsSuspect(m, id)
    ensures var lives := m.table[id].lives;
            var m' := RunKill(FireTimer(m, Timer(id, lives)), Dead(lives, id, false), now);
            && m'.table == m.table[id := m.table[id].(state := StateDead, changed := now)]
            && m'.events == Then(m.events, Event(NodeLeave, MemberOf(id, m.table[id])))
  {
    assert CellInv(m, id) && CellInv(m, m.id);
    TimeoutDecides(m, id);
    KillSucceeds(FireTimer(m, Timer(id, m.table[id].lives)), id, now);
  }

  // ---------- Events ----------

  /** The joins and leaves of `id`, in order. */
  function Arrivals(events: Log, id: Id): seq<EventKind> {
    match events
    case Quiet => []
    case Then(before, e) =>
      if e.node.id == id && e.kind != NodeUpdate then Arrivals(before, id) + [e.kind] else Arrivals(before, id)
  }

  /** Joins and leaves alternate, starting with a join. */
  ghost predicate Alternating(kinds: seq<EventKind>) {
    forall k :: 0 <= k < |kinds| ==> kinds[k] == if k % 2 == 0 then NodeJoin else NodeLeave
  }

  lemma {:induction false} SensibleAlternates(events: Log, id: Id)
    requires Sensible(events)
    ensures Alternating(Arrivals(events, id))
    ensures id in Replay(events) <==> |Arrivals(events, id)| % 2 == 1
  {
    match events
    case Quiet =>
    case Then(before, e) => SensibleAlternates(before, id);
  }

  /** The event stream is an exact view: replaying it gives the live part of the table, and
      each member's joins and leaves alternate, through any number of reaps and returns. */
  lemma {:induction false} EventsTellMembership(
      id: Id, addr: Address, config: Config, tags: Bytes, now: int, ops: seq<TimedOp>, other: Id)
    ensures var m := Run(Boot(id, addr, config, tags, now), ops);
            && Replay(m.events) == Active(m.table) && |Replay(m.events)| == |Active(m.table)|
            && Alternating(Arrivals(m.events, other))
            && (other in Active(m.table) <==> |Arrivals(m.events, other)| % 2 == 1)
  {
    BootKeeps(id, addr, config, tags, now);
    RunKeeps(Boot(id, addr, config, tags, now), ops);
    SensibleAlternates(Run(Boot(id, addr, config, tags, now), ops).events, other);
  }

  /** Gossip is never stale: a message queued under the name of a known member is about that member,
      has the kind of its current state, and carries its lives number or, for a suspicion, a later one. */
  lemma {:induction false} GossipIsFresh(
      id: Id, addr: Address, config: Config, tags: Bytes, now: int, ops: seq<TimedOp>, name: Id)
    ensures var m := Run(Boot(id, addr, config, tags, now), ops);
            name in m.gossip && name in m.table ==>
              m.gossip[name].id == name && Describes(m.gossip[name], m.table[name])
  {
    BootKeeps(id, addr, config, tags, now);
    RunKeeps(Boot(id, addr, config, tags, now), ops);
    assert CellInv(Run(Boot(id, addr, config, tags, now), ops), name);
  }

  /** The suspicions are exactly the suspects, and each is watched by its own timer or a decided kill. */
  lemma {:induction false} SuspicionsAreWatchedSuspects(
      id: Id, addr: Address, config: Config, tags: Bytes, now: int, ops: seq<TimedOp>, other: Id)
    ensures var m := Run(Boot(id, addr, config, tags, now), ops);
            && (other in m.suspicions <==> IsSuspect(m, other))
            && (IsSuspect(m, other) ==>
                  || Timer(other, m.table[other].lives) in m.timers
                  || Dead(m.table[other].lives, other, false) in m.kills)
  {
    BootKeeps(id, addr, config, tags, now);
    RunKeeps(Boot(id, addr, config, tags, now), ops);
    assert CellInv(Run(Boot(id, addr, config, tags, now), ops), other);
  }
}
