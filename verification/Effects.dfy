/** What each kind of claim does to a member, told once for all kinds by rank: a lives number, and how
    grave a state it argues for. */
module Effects {
  import opened Types
  import opened Confirmation
  import opened Node
  import opened NodeSafety
  import opened NodeRuns

  // ---------- The rule ----------

  /** The claim that a member acts on: an element of a snapshot counts as gossip, a remote death only as
      the receiver's own suspicion. */
  function Reading(c: Claim, self: Id): (r: Claim)
    ensures !r.Remote? && r.id == c.id && r.lives == c.lives
  {
    if !c.Remote? then c
    else if c.state == StateAlive then Alive(c.lives, c.id, c.addr, c.tags)
    else if c.state == StateLeft then Dead(c.lives, c.id, true)
    else Suspect(c.lives, c.id, self)
  }

  /** The state that a claim argues for. */
  function Argued(c: Claim): StateType
    requires !c.Remote?
  {
    match c
    case Alive(_, _, _, _) => StateAlive
    case Suspect(_, _, _) => StateSuspect
    case Dead(_, _, left) => if left then StateLeft else StateDead
  }

  /** An announcement needs a higher lives number; an accusation needs to be graver than what is known,
      at no lower lives number. */
  predicate News(e: Entry, c: Claim)
    requires !c.Remote?
  {
    if Severity(Argued(c)) == 0 then c.lives > e.lives
    else Severity(Argued(c)) > Severity(e.state) && c.lives >= e.lives
  }

  /** The clock is read exactly when the state changes. */
  function Revised(e: Entry, c: Claim, now: int): Entry
    requires !c.Remote?
  {
    var changed := if e.state == Argued(c) then e.changed else now;
    Entry(e.addr, if c.Alive? then c.tags else e.tags, c.lives, Argued(c), changed)
  }

  predicate Allowed(m: Node, c: Claim) {
    c.Alive? ==> m.config.ipAllowed(c.addr.ip)
  }

  /** The row about another member after a claim about it. */
  function RowOfOther(m: Node, c: Claim, now: int): map<Id, Entry>
    requires !c.Remote?
  {
    if !Allowed(m, c) then m.table
    else if c.id !in m.table then
      if c.Alive? then m.table[c.id := Entry(c.addr, c.tags, c.lives, StateAlive, now)] else m.table
    else if News(m.table[c.id], c) then m.table[c.id := Revised(m.table[c.id], c, now)]
    else m.table
  }

  lemma ReadingIsHandled(m: Node, c: Claim, now: int)
    ensures Handle(m, c, now) == Handle(m, Reading(c, m.id), now)
  {
  }

  // ---------- Rows ----------

  lemma AliveRow(m: Node, a: AliveClaim, now: int)
    requires a.id != m.id
    ensures AliveNode(m, a, now).table == RowOfOther(m, a, now)
  {
  }

  lemma SuspectRow(m: Node, s: SuspectClaim, now: int)
    requires s.id != m.id && Indexed(m, s.id)
    ensures SuspectNode(m, s, now).table == RowOfOther(m, s, now)
  {
  }

  lemma DeadRow(m: Node, d: DeadClaim, now: int)
    requires d.id != m.id
    ensures DeadNode(m, d, now).table == RowOfOther(m, d, now)
  {
  }

  /** All four kinds of claim follow the one rule about every other member. */
  lemma RowFollowsRank(m: Node, c: Claim, now: int)
    requires c.id != m.id && Indexed(m, c.id)
    ensures Handle(m, c, now).table == RowOfOther(m, Reading(c, m.id), now)
  {
    ReadingIsHandled(m, c, now);
    match Reading(c, m.id)
    case Alive(lives, id, addr, tags) => AliveRow(m, Alive(lives, id, addr, tags), now);
    case Suspect(lives, id, from) => SuspectRow(m, Suspect(lives, id, from), now);
    case Dead(lives, id, left) => DeadRow(m, Dead(lives, id, left), now);
  }

  /** The own row after a claim about oneself: an accusation at no lower lives number is refuted while the
      row is alive, except that a death is accepted once leaving; announcements count until then. */
  function OwnRow(m: Node, c: Claim, now: int): Entry
    requires !c.Remote? && m.id in m.table
  {
    var e := m.table[m.id];
    if c.Alive? then
      if !m.left && Allowed(m, c) && c.lives > e.lives then Revised(e, c, now) else e
    else if e.state != StateAlive || c.lives < e.lives then e
    else if c.Dead? && m.left then Entry(e.addr, e.tags, c.lives, Argued(c), now)
    else Entry(e.addr, e.tags, (if c.lives > m.lives then c.lives else m.lives) + 1, StateAlive, e.changed)
  }

  lemma OwnRowFollows(m: Node, c: Claim, now: int)
    requires c.id == m.id && m.id in m.table && Indexed(m, m.id) && OwnEntrySound(m, m.id)
    ensures Handle(m, c, now).table == m.table[m.id := OwnRow(m, Reading(c, m.id), now)]
  {
    ReadingIsHandled(m, c, now);
    assert m.table == m.table[m.id := m.table[m.id]];
  }

  // ---------- What goes with it ----------

  /** How many confirmers a suspicion waits for: one less than the multiplier, unless there are fewer
      members besides oneself, and then a single one. */
  function Quorum(mult: int, members: nat): int {
    if members < mult then 1 else mult - 1
  }

  /** What a piece of news about another member leaves behind: the claim queued under its name, a fresh
      suspicion with its first confirmer and its timer, or no suspicion at all. */
  ghost predicate Passed(m: Node, m': Node, c: Claim)
    requires !c.Remote?
  {
    && (c.id != NO_ID ==> m'.gossip == m.gossip[c.id := c])
    && (c.Suspect? ==>
          && m'.suspicions == m.suspicions[c.id := Confirmations(Quorum(m.config.suspicionMult, |m.table|), {c.from})]
          && m'.timers == m.timers + multiset{Timer(c.id, c.lives)})
    && (!c.Suspect? ==> c.id !in m'.suspicions && m'.timers == m.timers)
    && m'.lives == m.lives && m'.left == m.left && m'.kills == m.kills && m'.probes == m.probes
  }

  lemma AlivePassed(m: Node, a: AliveClaim, now: int)
    requires a.id != m.id && Allowed(m, a) && Indexed(m, a.id)
    requires a.id in m.table ==> News(m.table[a.id], a)
    ensures Passed(m, AliveNode(m, a, now), a)
  {
  }

  lemma SuspectPassed(m: Node, s: SuspectClaim, now: int)
    requires s.id != m.id && Indexed(m, s.id) && s.id in m.table && News(m.table[s.id], s)
    ensures Passed(m, SuspectNode(m, s, now), s)
  {
  }

  lemma DeadPassed(m: Node, d: DeadClaim, now: int)
    requires d.id != m.id && d.id in m.table && News(m.table[d.id], d)
    ensures Passed(m, DeadNode(m, d, now), d)
  {
  }

  /** Every piece of news about another member is passed on, and a suspicion is started, timed or ended. */
  lemma NewsIsPassedOn(m: Node, c: Claim, now: int)
    requires c.id != m.id && Indexed(m, c.id) && Allowed(m, Reading(c, m.id))
    requires if c.id in m.table then News(m.table[c.id], Reading(c, m.id)) else Reading(c, m.id).Alive?
    ensures Passed(m, Handle(m, c, now), Reading(c, m.id))
  {
    ReadingIsHandled(m, c, now);
    match Reading(c, m.id)
    case Alive(lives, id, addr, tags) => AlivePassed(m, Alive(lives, id, addr, tags), now);
    case Suspect(lives, id, from) => SuspectPassed(m, Suspect(lives, id, from), now);
    case Dead(lives, id, left) => DeadPassed(m, Dead(lives, id, left), now);
  }

  /** A suspicion of a suspect counts, and is passed on, exactly if it comes from a new confirmer and more
      are wanted. */
  predicate Confirms(m: Node, c: Claim) {
    && c.Suspect? && c.id in m.table && m.table[c.id].state == StateSuspect && c.lives >= m.table[c.id].lives
    && c.id in m.suspicions && c.from !in m.suspicions[c.id].confirmers
    && |m.suspicions[c.id].confirmers| < m.suspicions[c.id].cap
  }

  /** Whatever is neither news nor a new confirmation has no effect at all. */
  lemma NoNewsNoEffect(m: Node, c: Claim, now: int)
    requires c.id != m.id && Indexed(m, c.id)
    requires var r := Reading(c, m.id);
             || !Allowed(m, r)
             || (c.id !in m.table && !r.Alive?)
             || (c.id in m.table && !News(m.table[c.id], r) && !Confirms(m, r))
    ensures Handle(m, c, now) == m
  {
    ReadingIsHandled(m, c, now);
    var r := Reading(c, m.id);
    if r.Suspect? && r.id in m.suspicions {
      assert m.suspicions[r.id := m.suspicions[r.id]] == m.suspicions;
    }
  }

  lemma ConfirmationCounts(m: Node, c: Claim, now: int)
    requires c.id != m.id && Indexed(m, c.id) && Confirms(m, Reading(c, m.id))
    ensures var r, m' := Reading(c, m.id), Handle(m, c, now);
            && m'.table == m.table && m'.events == m.events && m'.timers == m.timers && m'.kills == m.kills
            && c.id in m'.suspicions && m'.suspicions[c.id].cap == m.suspicions[c.id].cap
            && m'.suspicions[c.id].confirmers == m.suspicions[c.id].confirmers + {r.from}
            && (c.id != NO_ID ==> c.id in m'.gossip && m'.gossip[c.id] == r)
  {
    ReadingIsHandled(m, c, now);
  }

  /** A refutation raises the own counter to the number it announces; a death accepted while leaving is
      passed on. Neither touches anything else that is pending. */
  lemma OwnClaimAnswered(m: Node, c: Claim, now: int)
    requires c.id == m.id && m.id != NO_ID && m.id in m.table && Indexed(m, m.id) && OwnEntrySound(m, m.id)
    requires var r := Reading(c, m.id); !r.Alive? && m.table[m.id].state == StateAlive && r.lives >= m.table[m.id].lives
    ensures var r, m' := Reading(c, m.id), Handle(m, c, now);
            var e' := OwnRow(m, r, now);
            && m.id in m'.gossip && m'.kills == m.kills && m'.timers == m.timers && m'.left == m.left
            && (if r.Dead? && m.left then m'.lives == m.lives && m'.gossip[m.id] == r
                else m'.lives == e'.lives && m'.gossip[m.id] == Alive(e'.lives, m.id, e'.addr, e'.tags))
  {
    ReadingIsHandled(m, c, now);
  }

  // ---------- Events ----------

  function Size(log: Log): nat {
    match log
    case Quiet => 0
    case Then(before, _) => 1 + Size(before)
  }

  /** How many notifications a change of one row is worth: one if its member comes or goes, and one if a
      known member's tags change. */
  function Worth(table: map<Id, Entry>, table': map<Id, Entry>, id: Id): nat {
    (if (id in Active(table)) == (id in Active(table')) then 0 else 1)
    + (if id in table && id in table' && table[id].tags != table'[id].tags then 1 else 0)
  }

  lemma AliveWorth(m: Node, a: AliveClaim, now: int)
    ensures var m' := AliveNode(m, a, now); Size(m'.events) == Size(m.events) + Worth(m.table, m'.table, a.id)
  {
  }

  lemma SuspectWorth(m: Node, s: SuspectClaim, now: int)
    ensures var m' := SuspectNode(m, s, now); Size(m'.events) == Size(m.events) + Worth(m.table, m'.table, s.id)
  {
  }

  lemma DeadWorth(m: Node, d: DeadClaim, now: int)
    ensures var m' := DeadNode(m, d, now); Size(m'.events) == Size(m.events) + Worth(m.table, m'.table, d.id)
  {
  }

  /** No notification without a reason: their number is what the change of the row is worth. */
  lemma NoIdleEvents(m: Node, c: Claim, now: int)
    ensures var m' := Handle(m, c, now); Size(m'.events) == Size(m.events) + Worth(m.table, m'.table, c.id)
  {
    ReadingIsHandled(m, c, now);
    match Reading(c, m.id)
    case Alive(lives, id, addr, tags) => AliveWorth(m, Alive(lives, id, addr, tags), now);
    case Suspect(lives, id, from) => SuspectWorth(m, Suspect(lives, id, from), now);
    case Dead(lives, id, left) => DeadWorth(m, Dead(lives, id, left), now);
  }

  // ---------- Timers, probes, reaping ----------

  /** A timer decides a kill exactly if its suspect is still suspect at the timer's own lives number. */
  lemma TimerDecidesIff(m: Node, t: Timer, now: int)
    requires t in m.timers
    ensures var m' := Step(m, Fire(t), now);
            && m'.timers == m.timers - multiset{t} && m'.table == m.table
            && (if t.id in m.table && m.table[t.id].state == StateSuspect && m.table[t.id].lives == t.lives
                then m'.kills == m.kills + multiset{Dead(t.lives, t.id, false)}
                else m'.kills == m.kills)
  {
  }

  /** A probe reads the lives number of any other member that is alive or suspect, and of no one else. */
  lemma ProbeReadsIff(m: Node, id: Id, now: int)
    ensures var live := && id != m.id && id in m.table
                        && (m.table[id].state == StateAlive || m.table[id].state == StateSuspect);
            Step(m, Probe(id), now).probes == m.probes + if live then {Suspect(m.table[id].lives, id, m.id)} else {}
  {
    assert m.probes + {} == m.probes;
  }

  /** Reaping removes exactly the entries that have been dead or left for longer than the expiry. */
  lemma ReapedIff(m: Node, now: int, id: Id)
    requires id in m.table
    ensures var e, table' := m.table[id], Step(m, RunReap, now).table;
            && (id !in table' <==> Severity(e.state) == 2 && now > e.changed + m.config.deadExpiry)
            && (id in table' ==> table'[id] == e)
  {
  }

  lemma FinishForgets(m: Node, name: Id, now: int)
    ensures Step(m, Finish(name), now).gossip.Keys == m.gossip.Keys - {name}
    ensures Step(m, Finish(name), now).table == m.table
  {
  }
}
