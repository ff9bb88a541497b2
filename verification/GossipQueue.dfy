/** A member together with the transmit queue that holds its messages: what is queued about a known
    member is one message, and it is true of that member's entry. */
module GossipQueue {
  import opened Types
  import Confirmation
  import opened Node
  import opened NodeSafety
  import Queue
  import QR = QueueRuns

  // ---------- What a step broadcasts ----------

  function AliveSays(m: Node, a: AliveClaim): Option<Claim> {
    if HeedsAlive(m, a) then Some(a) else None
  }

  function SuspectSays(m: Node, s: SuspectClaim): Option<Claim> {
    if !HeedsSuspect(m, s) then None
    else if s.id in m.suspicions then if Confirmation.Confirm(m.suspicions[s.id], s.from).1 then Some(s) else None
    else if s.id == m.id then Some(Refutation(m, s.lives))
    else Some(s)
  }

  function DeadSays(m: Node, d: DeadClaim): Option<Claim> {
    if !HeedsDead(m, d) then None
    else if d.id == m.id && !m.left then Some(Refutation(m, d.lives))
    else Some(d)
  }

  function HandleSays(m: Node, c: Claim): Option<Claim> {
    match c
    case Alive(_, _, _, _) => AliveSays(m, c)
    case Suspect(_, _, _) => SuspectSays(m, c)
    case Dead(_, _, _) => DeadSays(m, c)
    case Remote(lives, id, addr, tags, state) =>
      match state
      case StateAlive => AliveSays(m, Alive(lives, id, addr, tags))
      case StateLeft => DeadSays(m, Dead(lives, id, true))
      case _ => SuspectSays(m, Suspect(lives, id, m.id))
  }

  function KillSays(m: Node, d: DeadClaim): Option<Claim> {
    if d in m.kills then DeadSays(m, d) else None
  }

  function FailProbeSays(m: Node, s: SuspectClaim): Option<Claim> {
    if s in m.probes then SuspectSays(m, s) else None
  }

  function UpdateTagsSays(m: Node, tags: Bytes): Option<Claim> {
    if |tags| > TAG_MAX_SIZE || m.id !in m.table then None
    else AliveSays(m.(lives := m.lives + 1), Alive(m.lives + 1, m.id, m.table[m.id].addr, tags))
  }

  /** The claim that a step hands to the queue, under the name of its subject. */
  function Says(m: Node, op: Op): Option<Claim> {
    match op
    case Deliver(c) => HandleSays(m, c)
    case Kill(d) => KillSays(m, d)
    case ProbeFailed(s) => FailProbeSays(m, s)
    case CallUpdateTags(tags) => UpdateTagsSays(m, tags)
    case _ => None
  }

  function Said(gossip: map<Id, Claim>, says: Option<Claim>): map<Id, Claim> {
    if says.None? then gossip else Broadcast(gossip, says.value.id, says.value)
  }

  lemma AliveSaid(m: Node, a: AliveClaim, now: int)
    ensures AliveNode(m, a, now).gossip == Said(m.gossip, AliveSays(m, a))
  {
  }

  lemma SuspectSaid(m: Node, s: SuspectClaim, now: int)
    ensures SuspectNode(m, s, now).gossip == Said(m.gossip, SuspectSays(m, s))
  {
  }

  lemma DeadSaid(m: Node, d: DeadClaim, now: int)
    ensures DeadNode(m, d, now).gossip == Said(m.gossip, DeadSays(m, d))
  {
  }

  lemma HandleSaid(m: Node, c: Claim, now: int)
    ensures Handle(m, c, now).gossip == Said(m.gossip, HandleSays(m, c))
  {
    match c
    case Alive(_, _, _, _) => AliveSaid(m, c, now);
    case Suspect(_, _, _) => SuspectSaid(m, c, now);
    case Dead(_, _, _) => DeadSaid(m, c, now);
    case Remote(lives, id, addr, tags, _) =>
      match c.state {
        case StateAlive => AliveSaid(m, Alive(lives, id, addr, tags), now);
        case StateLeft => DeadSaid(m, Dead(lives, id, true), now);
        case _ => SuspectSaid(m, Suspect(lives, id, m.id), now);
      }
  }

  lemma KillSaid(m: Node, d: DeadClaim, now: int)
    ensures RunKill(m, d, now).gossip == Said(m.gossip, KillSays(m, d))
  {
    var m0 := m.(kills := m.kills - multiset{d});
    DeadSaid(m0, d, now);
    assert DeadSays(m0, d) == DeadSays(m, d);
  }

  lemma UpdateTagsSaid(m: Node, tags: Bytes, now: int)
    ensures UpdateTags(m, tags, now).gossip == Said(m.gossip, UpdateTagsSays(m, tags))
  {
    if m.id in m.table {
      AliveSaid(m.(lives := m.lives + 1), Alive(m.lives + 1, m.id, m.table[m.id].addr, tags), now);
    }
  }

  lemma FailProbeSaid(m: Node, s: SuspectClaim, now: int)
    ensures FailProbe(m, s, now).gossip == Said(m.gossip, FailProbeSays(m, s))
  {
    SuspectSaid(m, s, now);
  }

  lemma QuietSaid(m: Node, t: Timer, id: Id, now: int)
    ensures FireTimer(m, t).gossip == m.gossip && BeginProbe(m, id).gossip == m.gossip
    ensures BeginLeave(m).gossip == m.gossip && Reap(m, now).gossip == m.gossip
  {
  }

  /** The messages by name change exactly by what a step says. */
  lemma StepSaid(m: Node, op: Op, now: int)
    requires !op.Finish?
    ensures Step(m, op, now).gossip == Said(m.gossip, Says(m, op))
  {
    match op
    case Deliver(c) => HandleSaid(m, c, now);
    case Fire(t) => QuietSaid(m, t, t.id, now);
    case Kill(d) => KillSaid(m, d, now);
    case Probe(id) => QuietSaid(m, Timer(id, 0), id, now);
    case ProbeFailed(s) => FailProbeSaid(m, s, now);
    case CallLeave => QuietSaid(m, Timer(m.id, 0), m.id, now);
    case CallUpdateTags(tags) => UpdateTagsSaid(m, tags, now);
    case RunReap => QuietSaid(m, Timer(m.id, 0), m.id, now);
  }

  // ---------- The member and its queue ----------

  datatype Joint = Joint(node: Node, queue: QR.Account)

  /** A step of the member, or a call on the queue that takes messages out. */
  datatype Work =
    | Own(op: Op, now: int)
    | Take(overhead: nat, size: int, limit: int)
    | Shrink(keep: nat)

  ghost predicate Holds(items: set<Queue.Item>, name: Id) {
    exists it :: it in items && it.name == name
  }

  /** The messages by name, once the queue holds just `items`. */
  ghost function Kept(gossip: map<Id, Claim>, items: set<Queue.Item>): map<Id, Claim> {
    map name | name in gossip && Holds(items, name) :: gossip[name]
  }

  /** Messages leave the queue only by its own calls, so the member's `Finish` is theirs to take. */
  ghost function Do(j: Joint, encode: Claim -> Bytes, w: Work): Joint {
    match w
    case Own(op, now) =>
      if op.Finish? then j
      else
        var says := Says(j.node, op);
        Joint(Step(j.node, op, now),
              if says.None? then j.queue else QR.QueueMsg(j.queue, says.value.id, encode(says.value)))
    case Take(overhead, size, limit) => Trimmed(j, QR.GetMessages(j.queue, overhead, size, limit))
    case Shrink(keep) => Trimmed(j, QR.Resize(j.queue, keep))
  }

  ghost function Trimmed(j: Joint, q: QR.Account): Joint {
    Joint(j.node.(gossip := Kept(j.node.gossip, q.items)), q)
  }

  /** The work done so far, oldest first. */
  datatype Works = Idle | Did(before: Works, work: Work)

  predicate LimitsWithin(works: Works, cap: int) {
    works.Did? ==> LimitsWithin(works.before, cap) && (works.work.Take? ==> works.work.limit <= cap)
  }

  ghost function Worked(start: Joint, encode: Claim -> Bytes, works: Works): Joint {
    match works
    case Idle => start
    case Did(before, w) => Do(Worked(start, encode, before), encode, w)
  }

  // ---------- The invariant ----------

  /** Under `name` the queue holds `msg` exactly if that encodes the member's claim of that name. */
  ghost predicate Mirror(items: set<Queue.Item>, gossip: map<Id, Claim>, encode: Claim -> Bytes, name: Id, msg: Bytes) {
    QR.Named(items, name, msg) <==> name in gossip && encode(gossip[name]) == msg
  }

  ghost predicate JointInv(j: Joint, encode: Claim -> Bytes, cap: int) {
    && NodeInv(j.node) && QR.QueueInv(j.queue, cap)
    && (forall name, msg :: Mirror(j.queue.items, j.node.gossip, encode, name, msg))
  }

  lemma QueuedMirror(q: QR.Account, gossip: map<Id, Claim>, encode: Claim -> Bytes, cap: int,
                     c: Claim, name: Id, msg: Bytes)
    requires QR.QueueInv(q, cap) && Mirror(q.items, gossip, encode, name, msg)
    ensures Mirror(QR.QueueMsg(q, c.id, encode(c)).items, Broadcast(gossip, c.id, c), encode, name, msg)
  {
    QR.NamesFollowCalls(q, cap, QR.Queued(c.id, encode(c)), name, msg);
  }

  /** After a call that puts nothing under a new name. */
  lemma TrimmedMirror(items: set<Queue.Item>, items': set<Queue.Item>, gossip: map<Id, Claim>,
                      encode: Claim -> Bytes, name: Id, msg: Bytes)
    requires forall m :: Mirror(items, gossip, encode, name, m)
    requires forall m :: QR.Named(items', name, m) ==> QR.Named(items, name, m)
    requires NO_ID !in gossip
    ensures Mirror(items', Kept(gossip, items'), encode, name, msg)
  {
    assert Mirror(items, gossip, encode, name, msg);
    if name in Kept(gossip, items') {
      var it :| it in items' && it.name == name;
      assert QR.Named(items', name, it.msg) && Mirror(items, gossip, encode, name, it.msg);
    }
  }

  lemma TrimmedNode(m: Node, items: set<Queue.Item>)
    requires NodeInv(m)
    ensures NodeInv(m.(gossip := Kept(m.gossip, items)))
  {
    forall x ensures CellInv(m.(gossip := Kept(m.gossip, items)), x) {
      assert CellInv(m, x);
    }
  }

  lemma TrimKeeps(j: Joint, encode: Claim -> Bytes, cap: int, call: QR.Call)
    requires JointInv(j, encode, cap) && !call.Queued? && (call.Taken? ==> call.limit <= cap)
    requires QR.QueueInv(QR.Apply(j.queue, call), cap)
    ensures JointInv(Trimmed(j, QR.Apply(j.queue, call)), encode, cap)
  {
    var q := QR.Apply(j.queue, call);
    TrimmedNode(j.node, q.items);
    assert CellInv(j.node, NO_ID);
    forall name, msg ensures Mirror(q.items, Kept(j.node.gossip, q.items), encode, name, msg) {
      forall m ensures QR.Named(q.items, name, m) ==> QR.Named(j.queue.items, name, m) {
        QR.NamesFollowCalls(j.queue, cap, call, name, m);
      }
      TrimmedMirror(j.queue.items, q.items, j.node.gossip, encode, name, msg);
    }
  }

  lemma OwnKeeps(j: Joint, encode: Claim -> Bytes, cap: int, op: Op, now: int)
    requires JointInv(j, encode, cap) && !op.Finish?
    ensures JointInv(Do(j, encode, Own(op, now)), encode, cap)
  {
    var j' := Do(j, encode, Own(op, now));
    var says := Says(j.node, op);
    StepKeeps(j.node, op, now);
    StepSaid(j.node, op, now);
    if says.Some? {
      QR.QueueMsgKeeps(j.queue, cap, says.value.id, encode(says.value));
      forall name, msg ensures Mirror(j'.queue.items, j'.node.gossip, encode, name, msg) {
        QueuedMirror(j.queue, j.node.gossip, encode, cap, says.value, name, msg);
      }
    }
  }

  lemma {:induction false} WorkKeeps(start: Joint, encode: Claim -> Bytes, works: Works, cap: int)
    requires JointInv(start, encode, cap) && LimitsWithin(works, cap)
    ensures JointInv(Worked(start, encode, works), encode, cap)
  {
    match works
    case Idle =>
    case Did(before, w) =>
      WorkKeeps(start, encode, before, cap);
      var j := Worked(start, encode, before);
      match w {
        case Own(op, now) =>
          if !op.Finish? {
            OwnKeeps(j, encode, cap, op, now);
          }
        case Take(overhead, size, limit) =>
          QR.GetMessagesKeeps(j.queue, cap, overhead, size, limit);
          TrimKeeps(j, encode, cap, QR.Taken(overhead, size, limit));
        case Shrink(keep) =>
          QR.ResizeKeeps(j.queue, cap, keep);
          TrimKeeps(j, encode, cap, QR.Resized(keep));
      }
  }

  // ---------- From start-up ----------

  /** A member that has started, with its announcement queued if it made one. */
  ghost function Started(id: Id, addr: Address, config: Config, tags: Bytes, now: int, encode: Claim -> Bytes): Joint {
    Do(Joint(Blank(id, addr, config).(lives := 1), QR.EMPTY), encode, Own(Deliver(Alive(1, id, addr, tags)), now))
  }

  lemma StartedKeeps(id: Id, addr: Address, config: Config, tags: Bytes, now: int, encode: Claim -> Bytes, cap: int)
    ensures Started(id, addr, config, tags, now, encode).node == Boot(id, addr, config, tags, now)
    ensures JointInv(Started(id, addr, config, tags, now, encode), encode, cap)
  {
    var m := Blank(id, addr, config).(lives := 1);
    assert Active(m.table) == map[];
    assert NodeInv(m);
    QR.EmptyIsSound(cap);
    forall name, msg ensures Mirror(QR.EMPTY.items, m.gossip, encode, name, msg) {}
    OwnKeeps(Joint(m, QR.EMPTY), encode, cap, Deliver(Alive(1, id, addr, tags)), now);
  }

  /** In every run of a member with its queue, at most one message is queued under a name, and under the
      name of a known member it encodes a claim about that member that describes its entry. */
  lemma {:induction false} QueuedIsFresh(
      id: Id, addr: Address, config: Config, tags: Bytes, now: int, encode: Claim -> Bytes,
      works: Works, cap: int, it: Queue.Item)
    requires LimitsWithin(works, cap)
    requires it in Worked(Started(id, addr, config, tags, now, encode), encode, works).queue.items && it.name != NO_ID
    ensures var j := Worked(Started(id, addr, config, tags, now, encode), encode, works);
            && it.name in j.node.gossip && it.msg == encode(j.node.gossip[it.name])
            && j.node.gossip[it.name].id == it.name
            && (it.name in j.node.table ==> Describes(j.node.gossip[it.name], j.node.table[it.name]))
            && (forall other :: other in j.queue.items && other.name == it.name ==> other == it)
  {
    StartedKeeps(id, addr, config, tags, now, encode, cap);
    var start := Started(id, addr, config, tags, now, encode);
    WorkKeeps(start, encode, works, cap);
    var j := Worked(start, encode, works);
    assert QR.Named(j.queue.items, it.name, it.msg) && Mirror(j.queue.items, j.node.gossip, encode, it.name, it.msg);
    assert CellInv(j.node, it.name);
    forall other | other in j.queue.items && other.name == it.name ensures other == it {
      assert QR.Clash(other, it);
    }
  }
}
