/** One member as a value: its handlers for gossip, timers, probes and local calls.
    Clocks and network allow-lists are parameters; every handler is one atomic step. */
module Node {
  import opened Types
  import opened Confirmation

  const TAG_MAX_SIZE := 512

  datatype Config = Config(suspicionMult: int, ipAllowed: Bytes -> bool, deadExpiry: int)

  /** `gossip` holds the queued broadcasts by name; `timers` the armed suspicion timers,
      including those whose suspicion is gone; `kills` the dead claims that a timeout or a
      leave has read from the table and not applied yet; `probes` the suspect claims that
      running probes will make if they fail; `events` the notifications sent so far. */
  datatype Node = Node(
    id: Id,
    addr: Address,
    config: Config,
    lives: nat,
    left: bool,
    table: map<Id, Entry>,
    suspicions: map<Id, Confirmations>,
    gossip: map<Id, Claim>,
    events: Log,
    timers: multiset<Timer>,
    kills: multiset<DeadClaim>,
    probes: set<SuspectClaim>)

  /** Queue `c` under `name`, replacing what was queued under that name.
      Unnamed messages never enter the name index. */
  function Broadcast(gossip: map<Id, Claim>, name: Id, c: Claim): map<Id, Claim> {
    if name == NO_ID then gossip else gossip[name := c]
  }

  function MemberOf(id: Id, e: Entry): Member {
    Member(id, e.addr, e.tags)
  }

  function AliveEntry(e: Entry, a: AliveClaim, now: int): Entry {
    Entry(e.addr, a.tags, a.lives, StateAlive, if e.state == StateAlive then e.changed else now)
  }

  /** A returning member joins; new tags are an update, also when it joins with them. */
  function AliveEvents(events: Log, e: Entry, a: AliveClaim): Log {
    var node := Member(a.id, e.addr, a.tags);
    var joined := if e.DeadOrLeft() then Then(events, Event(NodeJoin, node)) else events;
    if e.tags != a.tags then Then(joined, Event(NodeUpdate, node)) else joined
  }

  /** An alive claim is ignored about itself after leaving, from a forbidden address, or without news. */
  predicate HeedsAlive(m: Node, a: AliveClaim) {
    && !(m.left && a.id == m.id) && m.config.ipAllowed(a.addr.ip)
    && (a.id in m.table ==> a.lives > m.table[a.id].lives)
  }

  function AliveNode(m: Node, a: AliveClaim, now: int): Node {
    if !HeedsAlive(m, a) then
      m
    else if a.id !in m.table then
      m.(table := m.table[a.id := Entry(a.addr, a.tags, a.lives, StateAlive, now)],
         gossip := Broadcast(m.gossip, a.id, a),
         events := Then(m.events, Event(NodeJoin, Member(a.id, a.addr, a.tags))))
    else
      m.(table := m.table[a.id := AliveEntry(m.table[a.id], a, now)],
         suspicions := m.suspicions - {a.id},
         gossip := Broadcast(m.gossip, a.id, a),
         events := AliveEvents(m.events, m.table[a.id], a))
  }

  /** The announcement that defeats a claim at `lives`. */
  function Refutation(m: Node, lives: nat): AliveClaim
    requires m.id in m.table
  {
    Alive(Max(m.lives, lives) + 1, m.id, m.table[m.id].addr, m.table[m.id].tags)
  }

  /** Take lives numbers until one exceeds `lives`, and announce it. */
  function Refute(m: Node, lives: nat): Node
    requires m.id in m.table
  {
    var a := Refutation(m, lives);
    m.(lives := a.lives,
       table := m.table[m.id := m.table[m.id].(lives := a.lives)],
       gossip := Broadcast(m.gossip, m.id, a))
  }

  function ConfirmCap(m: Node): int {
    var cap := m.config.suspicionMult - 1;
    if |m.table| - 1 < cap then 1 else cap
  }

  function StartSuspicion(m: Node, s: SuspectClaim, now: int): Node
    requires s.id in m.table
  {
    m.(table := m.table[s.id := m.table[s.id].(lives := s.lives, state := StateSuspect, changed := now)],
       suspicions := m.suspicions[s.id := FirstConfirmation(ConfirmCap(m), s.from)],
       gossip := Broadcast(m.gossip, s.id, s),
       timers := m.timers + multiset{Timer(s.id, s.lives)})
  }

  function ConfirmSuspicion(m: Node, s: SuspectClaim): Node
    requires s.id in m.suspicions
  {
    var r := Confirm(m.suspicions[s.id], s.from);
    m.(suspicions := m.suspicions[s.id := r.0],
       gossip := if r.1 then Broadcast(m.gossip, s.id, s) else m.gossip)
  }

  predicate HeedsSuspect(m: Node, s: SuspectClaim) {
    && s.id in m.table && s.lives >= m.table[s.id].lives
    && (s.id in m.suspicions || m.table[s.id].state == StateAlive)
  }

  function SuspectNode(m: Node, s: SuspectClaim, now: int): Node {
    if !HeedsSuspect(m, s) then
      m
    else if s.id in m.suspicions then
      ConfirmSuspicion(m, s)
    else if s.id == m.id then
      Refute(m, s.lives)
    else
      StartSuspicion(m, s, now)
  }

  predicate HeedsDead(m: Node, d: DeadClaim) {
    d.id in m.table && d.lives >= m.table[d.id].lives && !m.table[d.id].DeadOrLeft()
  }

  function DeadNode(m: Node, d: DeadClaim, now: int): Node {
    if !HeedsDead(m, d) then
      m
    else if d.id == m.id && !m.left then
      Refute(m, d.lives)
    else
      var e := m.table[d.id];
      var state := if d.left then StateLeft else StateDead;
      m.(table := m.table[d.id := e.(lives := d.lives, state := state, changed := now)],
         suspicions := m.suspicions - {d.id},
         gossip := Broadcast(m.gossip, d.id, d),
         events := Then(m.events, Event(NodeLeave, MemberOf(d.id, e))))
  }

  /** Merge one element of a remote snapshot; a remote `dead` is only a suspicion here. */
  function MergeOne(m: Node, r: RemoteClaim, now: int): Node {
    match r.state
    case StateAlive => AliveNode(m, Alive(r.lives, r.id, r.addr, r.tags), now)
    case StateLeft => DeadNode(m, Dead(r.lives, r.id, true), now)
    case _ => SuspectNode(m, Suspect(r.lives, r.id, m.id), now)
  }

  /** Merge a whole snapshot, element by element. */
  function MergeState(m: Node, remote: seq<RemoteClaim>, now: int): Node {
    if remote == [] then m
    else MergeOne(MergeState(m, remote[..|remote| - 1], now), remote[|remote| - 1], now)
  }

  /** The element about `id` in a snapshot of `m`. */
  function SnapshotOf(m: Node, id: Id): RemoteClaim
    requires id in m.table
  {
    var e := m.table[id];
    Remote(e.lives, id, e.addr, e.tags, e.state)
  }

  function Handle(m: Node, c: Claim, now: int): Node {
    match c
    case Alive(_, _, _, _) => AliveNode(m, c, now)
    case Suspect(_, _, _) => SuspectNode(m, c, now)
    case Dead(_, _, _) => DeadNode(m, c, now)
    case Remote(_, _, _, _, _) => MergeOne(m, c, now)
  }

  /** The timeout's check under the read lock: the kill it decides on is applied later. */
  function FireTimer(m: Node, t: Timer): Node {
    if t !in m.timers then
      m
    else
      var due := t.id in m.table && m.table[t.id].state == StateSuspect && m.table[t.id].lives == t.lives;
      m.(timers := m.timers - multiset{t},
         kills := if due then m.kills + multiset{Dead(t.lives, t.id, false)} else m.kills)
  }

  function RunKill(m: Node, d: DeadClaim, now: int): Node {
    if d !in m.kills then m else DeadNode(m.(kills := m.kills - multiset{d}), d, now)
  }

  /** `Leave` up to the point where it has read its own lives number. */
  function BeginLeave(m: Node): Node {
    if m.left then
      m
    else if m.id !in m.table then
      m.(left := true)
    else
      m.(left := true, kills := m.kills + multiset{Dead(m.table[m.id].lives, m.id, true)})
  }

  /** Without an own entry the source crashes; here nothing happens. */
  function UpdateTags(m: Node, tags: Bytes, now: int): Node {
    if |tags| > TAG_MAX_SIZE || m.id !in m.table then
      m
    else
      AliveNode(m.(lives := m.lives + 1), Alive(m.lives + 1, m.id, m.table[m.id].addr, tags), now)
  }

  /** A probe of `id` has read its entry; its failure will claim what was read. */
  function BeginProbe(m: Node, id: Id): Node {
    if id == m.id || id !in m.table || m.table[id].DeadOrLeft() then
      m
    else
      m.(probes := m.probes + {Suspect(m.table[id].lives, id, m.id)})
  }

  function FailProbe(m: Node, s: SuspectClaim, now: int): Node {
    if s !in m.probes then m else SuspectNode(m, s, now)
  }

  predicate Expired(e: Entry, now: int, expiry: int) {
    e.DeadOrLeft() && now - e.changed > expiry
  }

  function Reap(m: Node, now: int): Node {
    m.(table := map id | id in m.table && !Expired(m.table[id], now, m.config.deadExpiry) :: m.table[id])
  }

  /** A queued message has reached its transmit limit and leaves the queue. */
  function FinishBroadcast(m: Node, name: Id): Node {
    m.(gossip := m.gossip - {name})
  }

  datatype Op =
    | Deliver(claim: Claim)
    | Fire(timer: Timer)
    | Kill(kill: DeadClaim)
    | Probe(target: Id)
    | ProbeFailed(suspect: SuspectClaim)
    | CallLeave
    | CallUpdateTags(newTags: Bytes)
    | RunReap
    | Finish(name: Id)

  function Step(m: Node, op: Op, now: int): Node {
    match op
    case Deliver(c) => Handle(m, c, now)
    case Fire(t) => FireTimer(m, t)
    case Kill(d) => RunKill(m, d, now)
    case Probe(id) => BeginProbe(m, id)
    case ProbeFailed(s) => FailProbe(m, s, now)
    case CallLeave => BeginLeave(m)
    case CallUpdateTags(tags) => UpdateTags(m, tags, now)
    case RunReap => Reap(m, now)
    case Finish(name) => FinishBroadcast(m, name)
  }

  function Blank(id: Id, addr: Address, config: Config): Node {
    Node(id, addr, config, 0, false, map[], map[], map[], Quiet, multiset{}, multiset{}, {})
  }

  /** A member after `Build`: it has taken lives number 1 and announced itself. */
  function Boot(id: Id, addr: Address, config: Config, tags: Bytes, now: int): Node {
    AliveNode(Blank(id, addr, config).(lives := 1), Alive(1, id, addr, tags), now)
  }

  datatype TimedOp = At(op: Op, now: int)

  /** The state after `ops`, in order, from `m`. */
  function Run(m: Node, ops: seq<TimedOp>): Node {
    if ops == [] then m
    else
      var last := ops[|ops| - 1];
      Step(Run(m, ops[..|ops| - 1]), last.op, last.now)
  }
}
