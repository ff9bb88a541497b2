/** Members and the network between them. The network holds every claim ever sent, so a delivery
    may be late, repeated, out of order, or never happen. */
module Cluster {
  import opened Types
  import opened Node

  /** What a member has said about itself: its lives counter, its address, the tags it announced at
      each lives number, and the lives number it left at. A record of the run, not protocol state. */
  datatype Author = Author(counter: nat, addr: Address, minted: map<nat, Bytes>, sealed: Option<nat>)

  datatype Cluster = Cluster(nodes: map<Id, Node>, net: set<Claim>, authors: map<Id, Author>)

  /** A member starts under a fresh id, takes a step, sends a queued broadcast, or sends its table. */
  datatype Move =
    | Start(id: Id, addr: Address, config: Config, tags: Bytes, now: int)
    | Act(at: Id, op: Op, now: int)
    | Send(at: Id, name: Id)
    | Push(at: Id)

  function Observe(au: Author, m: Node): Author {
    var own := if m.id in m.table then Some(m.table[m.id]) else None;
    Author(
      m.lives,
      m.addr,
      if own.Some? && own.value.state == StateAlive then au.minted[own.value.lives := own.value.tags] else au.minted,
      if own.Some? && own.value.state == StateLeft then Some(own.value.lives) else au.sealed)
  }

  function Snapshot(m: Node): set<Claim> {
    set id | id in m.table :: SnapshotOf(m, id)
  }

  predicate Enabled(c: Cluster, mv: Move) {
    match mv
    case Start(id, _, _, tags, _) => id != NO_ID && id !in c.nodes && |tags| <= TAG_MAX_SIZE
    case Act(at, op, _) => at in c.nodes && at in c.authors && (op.Deliver? ==> op.claim in c.net)
    case Send(at, name) => at in c.nodes && name in c.nodes[at].gossip
    case Push(at) => at in c.nodes
  }

  function Apply(c: Cluster, mv: Move): Cluster
    requires Enabled(c, mv)
  {
    match mv
    case Start(id, addr, config, tags, now) =>
      var m := Boot(id, addr, config, tags, now);
      c.(nodes := c.nodes[id := m], authors := c.authors[id := Observe(Author(0, addr, map[], None), m)])
    case Act(at, op, now) =>
      var m := Step(c.nodes[at], op, now);
      c.(nodes := c.nodes[at := m], authors := c.authors[at := Observe(c.authors[at], m)])
    case Send(at, name) => c.(net := c.net + {c.nodes[at].gossip[name]})
    case Push(at) => c.(net := c.net + Snapshot(c.nodes[at]))
  }

  const NOBODY := Cluster(map[], {}, map[])

  /** The moves made so far, oldest first. */
  datatype Past = Dawn | Next(before: Past, move: Move)

  /** Every move was possible when it was made. */
  predicate Legal(past: Past)
    decreases past, 0
  {
    past.Next? ==> Legal(past.before) && Enabled(Play(past.before), past.move)
  }

  /** The cluster after a legal run. */
  function Play(past: Past): Cluster
    requires Legal(past)
    decreases past, 1
  {
    match past
    case Dawn => NOBODY
    case Next(before, move) => Apply(Play(before), move)
  }
}
