/** What every run of a cluster guarantees, however messages are lost, repeated, delayed or reordered. */
module Guarantees {
  import opened Types
  import opened Node
  import opened NodeSafety
  import opened Cluster
  import opened Provenance

  /** `c` is an entry, a queued message, a probe's or timer's suspicion, or a decided kill of `m`. */
  ghost predicate Held(m: Node, c: Claim) {
    || (c.id in m.table && c == SnapshotOf(m, c.id))
    || (c.id in m.gossip && c == m.gossip[c.id])
    || (c.Suspect? && (c in m.probes || Timer(c.id, c.lives) in m.timers))
    || (c.Dead? && c in m.kills)
  }

  /** `c` is in flight or held by some member. */
  ghost predicate Stated(cl: Cluster, c: Claim) {
    c in cl.net || exists n :: n in cl.nodes && Held(cl.nodes[n], c)
  }

  // ---------- Lives numbers come from their owner ----------

  lemma HeldIsBacked(authors: map<Id, Author>, n: Id, m: Node, c: Claim)
    requires MemberInv(authors, n, m) && Held(m, c)
    ensures Vouched(authors, c) || (c.Dead? && KillVouched(authors, m, c))
  {
    assert CellVouched(authors, m, c.id);
    if c.Suspect? && Timer(c.id, c.lives) in m.timers {
      assert TimerVouched(authors, Timer(c.id, c.lives));
    }
  }

  lemma StatedIsBacked(cl: Cluster, c: Claim)
    requires Inv(cl) && Stated(cl, c)
    ensures c.id in cl.nodes && c.lives <= cl.nodes[c.id].lives
    ensures c.Alive? || (c.Remote? && c.state == StateAlive) ==> Vouched(cl.authors, c)
    ensures (c.Dead? && c.left) || (c.Remote? && c.state == StateLeft) ==> cl.nodes[c.id].left
  {
    if c !in cl.net {
      var n :| n in cl.nodes && Held(cl.nodes[n], c);
      assert MemberInv(cl.authors, n, cl.nodes[n]);
      HeldIsBacked(cl.authors, n, cl.nodes[n], c);
    }
    assert MemberInv(cl.authors, c.id, cl.nodes[c.id]);
  }

  /** No claim about a member, in any form, carries a lives number above the member's own counter. */
  lemma {:induction false} LivesProvenance(past: Past, c: Claim)
    requires Legal(past) && Stated(Play(past), c)
    ensures var cl := Play(past); c.id in cl.nodes && c.lives <= cl.nodes[c.id].lives
  {
    PlayKeeps(past);
    StatedIsBacked(Play(past), c);
  }

  /** A refutation takes exactly one lives number, and it is above every claim about the member that
      exists at that moment. */
  lemma {:induction false} RefutationOutranksAll(past: Past, x: Id, cause: Claim, c: Claim)
    requires Legal(past) && Stated(Play(past), cause) && Stated(Play(past), c)
    requires cause.id == x && c.id == x && x in Play(past).nodes
    requires Play(past).nodes[x].id in Play(past).nodes[x].table
    ensures var m := Play(past).nodes[x];
            Refute(m, cause.lives).lives == m.lives + 1 > c.lives
  {
    LivesProvenance(past, cause);
    LivesProvenance(past, c);
  }

  /** Whatever `n` holds about `x` is at most `x`'s own counter, and at `x`'s address. */
  lemma EntryBounded(cl: Cluster, n: Id, x: Id)
    requires Inv(cl) && n in cl.nodes && x in cl.nodes[n].table
    ensures x in cl.nodes && x in cl.authors && cl.nodes[n].id == n && cl.nodes[x].id == x
    ensures cl.nodes[n].table[x].lives <= cl.nodes[x].lives && cl.nodes[n].table[x].addr == cl.nodes[x].addr
    ensures Backed(cl.authors[x], SnapshotOf(cl.nodes[n], x))
  {
    assert MemberInv(cl.authors, n, cl.nodes[n]);
    assert CellVouched(cl.authors, cl.nodes[n], x);
    assert MemberInv(cl.authors, x, cl.nodes[x]);
  }

  lemma NewsAccepted(m: Node, a: AliveClaim, now: int)
    requires a.id != m.id && m.config.ipAllowed(a.addr.ip)
    requires a.id in m.table ==> m.table[a.id].lives < a.lives && m.table[a.id].addr == a.addr
    ensures var t := AliveNode(m, a, now).table;
            && a.id in t && t[a.id].state == StateAlive && t[a.id].lives == a.lives
            && t[a.id].tags == a.tags && t[a.id].addr == a.addr
  {
  }

  lemma CellIsSound(cl: Cluster, n: Id, x: Id)
    requires Inv(cl) && n in cl.nodes
    ensures cl.nodes[n].id == n && CellInv(cl.nodes[n], x)
  {
    assert MemberInv(cl.authors, n, cl.nodes[n]);
  }

  lemma NewsIsNews(cl: Cluster, x: Id, n: Id, a: AliveClaim)
    requires Inv(cl) && x in cl.nodes && n in cl.nodes && n != x
    requires a.id == x && a.lives > cl.nodes[x].lives && a.addr == cl.nodes[x].addr
    ensures a.id != cl.nodes[n].id
    ensures x in cl.nodes[n].table ==> cl.nodes[n].table[x].lives < a.lives && cl.nodes[n].table[x].addr == a.addr
  {
    CellIsSound(cl, n, x);
    if x in cl.nodes[n].table {
      EntryBounded(cl, n, x);
    }
  }

  /** At the moment it is made, a member's next announcement would prevail anywhere over all that was
      claimed before. */
  lemma {:induction false} AnnouncementPrevails(past: Past, x: Id, n: Id, a: AliveClaim, now: int)
    requires Legal(past) && x in Play(past).nodes && n in Play(past).nodes && n != x
    requires a.id == x && a.lives > Play(past).nodes[x].lives && a.addr == Play(past).nodes[x].addr
    requires Play(past).nodes[n].config.ipAllowed(a.addr.ip)
    ensures var t := AliveNode(Play(past).nodes[n], a, now).table;
            x in t && t[x] == t[x].(state := StateAlive, lives := a.lives, tags := a.tags, addr := a.addr)
  {
    PlayKeeps(past);
    NewsIsNews(Play(past), x, n, a);
    NewsAccepted(Play(past).nodes[n], a, now);
  }

  predicate KnowsOf(e: Entry, a: AliveClaim) {
    e.addr == a.addr && e.lives >= a.lives && (e.state == StateAlive && e.lives == a.lives ==> e.tags == a.tags)
  }

  /** However late an announcement arrives: if it is news it is taken over whole, and else the entry is
      left alone and already holds it or something later. */
  lemma {:induction false} AnnouncementArrives(past: Past, n: Id, a: AliveClaim, now: int)
    requires Legal(past) && n in Play(past).nodes && a in Play(past).net && n != a.id
    requires Play(past).nodes[n].config.ipAllowed(a.addr.ip)
    ensures var t, t' := Play(past).nodes[n].table, AliveNode(Play(past).nodes[n], a, now).table;
            && a.id in t' && KnowsOf(t'[a.id], a)
            && (if a.id in t && a.lives <= t[a.id].lives then t' == t
                else t'[a.id] == t'[a.id].(state := StateAlive, lives := a.lives, tags := a.tags))
  {
    PlayKeeps(past);
    var cl := Play(past);
    CellIsSound(cl, n, n);
    assert Vouched(cl.authors, a);
    assert MemberInv(cl.authors, a.id, cl.nodes[a.id]);
    if a.id in cl.nodes[n].table {
      EntryBounded(cl, n, a.id);
    }
  }

  // ---------- Agreement ----------

  /** Two members that hold a third alive at the same lives number hold the same tags for it, and
      any two that hold it at all hold the same address. */
  lemma {:induction false} Agreement(past: Past, n1: Id, n2: Id, x: Id)
    requires Legal(past) && n1 in Play(past).nodes && n2 in Play(past).nodes
    requires x in Play(past).nodes[n1].table && x in Play(past).nodes[n2].table
    ensures var e1, e2 := Play(past).nodes[n1].table[x], Play(past).nodes[n2].table[x];
            && e1.addr == e2.addr
            && (e1.state == e2.state == StateAlive && e1.lives == e2.lives ==> e1.tags == e2.tags)
  {
    PlayKeeps(past);
    EntryBounded(Play(past), n1, x);
    EntryBounded(Play(past), n2, x);
  }

  // ---------- Leaving ----------

  /** Nobody is said to have left who has not set out to leave. */
  lemma {:induction false} LeavingIsTruthful(past: Past, c: Claim)
    requires Legal(past) && Stated(Play(past), c)
    requires (c.Dead? && c.left) || (c.Remote? && c.state == StateLeft)
    ensures c.id in Play(past).nodes && Play(past).nodes[c.id].left
  {
    PlayKeeps(past);
    StatedIsBacked(Play(past), c);
  }

  /** A member that has not left holds itself alive, never suspect or dead. */
  lemma {:induction false} OwnEntryTruthful(past: Past, x: Id)
    requires Legal(past) && x in Play(past).nodes && x in Play(past).nodes[x].table
    ensures var m := Play(past).nodes[x];
            m.table[x].state == StateAlive || (m.left && m.table[x].DeadOrLeft())
  {
    PlayKeeps(past);
    CellIsSound(Play(past), x, x);
  }

  predicate SaysAlive(c: Claim, x: Id) {
    c.id == x && (c.Alive? || (c.Remote? && c.state == StateAlive))
  }

  lemma DeadOrLeftStays(m: Node, c: Claim, now: int, x: Id)
    requires x in m.table && m.table[x].DeadOrLeft() && Indexed(m, x)
    requires SaysAlive(c, x) ==> c.lives <= m.table[x].lives || (m.left && x == m.id)
    ensures x in Handle(m, c, now).table && Handle(m, c, now).table[x] == m.table[x]
  {
    if c.id != x {
      HandleOnlyAt(m, c, now);
      assert SameCell(m, Handle(m, c, now), x);
    }
  }

  /** No step reopens a closed entry unless an announcement with a higher lives number arrives. */
  lemma ClosedEntryStays(m: Node, op: Op, now: int, x: Id)
    requires x in m.table && m.table[x].DeadOrLeft() && CellInv(m, x)
    requires op.Deliver? && SaysAlive(op.claim, x) ==> op.claim.lives <= m.table[x].lives || (m.left && x == m.id)
    ensures x in Step(m, op, now).table ==> Step(m, op, now).table[x] == m.table[x]
  {
    match op
    case Deliver(c) => DeadOrLeftStays(m, c, now, x);
    case Kill(d) => DeadOrLeftStays(m.(kills := m.kills - multiset{d}), d, now, x);
    case ProbeFailed(s) => DeadOrLeftStays(m, s, now, x);
    case CallUpdateTags(tags) =>
      if m.id in m.table {
        DeadOrLeftStays(m.(lives := m.lives + 1), Alive(m.lives + 1, m.id, m.table[m.id].addr, tags), now, x);
      }
    case _ =>
  }

  lemma LeftOutlivesAnnouncements(cl: Cluster, n: Id, x: Id, c: Claim)
    requires Inv(cl) && n in cl.nodes && x in cl.nodes[n].table && cl.nodes[n].table[x].state == StateLeft
    requires c in cl.net && SaysAlive(c, x)
    ensures c.lives <= cl.nodes[n].table[x].lives
  {
    assert MemberInv(cl.authors, n, cl.nodes[n]);
    assert CellVouched(cl.authors, cl.nodes[n], x);
    assert MemberInv(cl.authors, x, cl.nodes[x]);
    assert Vouched(cl.authors, c);
  }

  /** `at` still holds an entry for `x` at every point from `past` to `later`. */
  ghost predicate HeldSince(past: Past, later: Past, at: Id, x: Id)
    requires Legal(later)
  {
    || later == past
    || (later.Next? && HeldSince(past, later.before, at, x)
        && at in Play(later).nodes && x in Play(later).nodes[at].table)
  }

  predicate Closed(m: Node, x: Id) {
    x in m.table && (m.table[x].state == StateLeft || (x == m.id && m.table[x].DeadOrLeft()))
  }

  lemma NothingReopens(cl: Cluster, n: Id, x: Id, op: Op)
    requires Inv(cl) && n in cl.nodes && Closed(cl.nodes[n], x)
    requires op.Deliver? ==> op.claim in cl.net
    ensures CellInv(cl.nodes[n], x)
    ensures op.Deliver? && SaysAlive(op.claim, x) ==>
              op.claim.lives <= cl.nodes[n].table[x].lives || (cl.nodes[n].left && x == cl.nodes[n].id)
  {
    CellIsSound(cl, n, x);
    if op.Deliver? && SaysAlive(op.claim, x) && cl.nodes[n].table[x].state == StateLeft {
      LeftOutlivesAnnouncements(cl, n, x, op.claim);
    }
  }

  lemma MoveActsAtOne(cl: Cluster, mv: Move, n: Id)
    requires Enabled(cl, mv) && n in cl.nodes
    ensures n in Apply(cl, mv).nodes
    ensures Apply(cl, mv).nodes[n]
         == if mv.Act? && mv.at == n then Step(cl.nodes[n], mv.op, mv.now) else cl.nodes[n]
  {
  }

  lemma MoveKeepsClosed(cl: Cluster, mv: Move, n: Id, x: Id)
    requires Inv(cl) && Enabled(cl, mv) && n in cl.nodes && Closed(cl.nodes[n], x)
    ensures n in Apply(cl, mv).nodes
    ensures x in Apply(cl, mv).nodes[n].table ==> Apply(cl, mv).nodes[n].table[x] == cl.nodes[n].table[x]
    ensures Apply(cl, mv).nodes[n].id == cl.nodes[n].id
  {
    MoveActsAtOne(cl, mv, n);
    if mv.Act? && mv.at == n {
      NothingReopens(cl, n, x, mv.op);
      ClosedEntryStays(cl.nodes[n], mv.op, mv.now, x);
      StepIdentity(cl.nodes[n], mv.op, mv.now);
    }
  }

  /** Leaving is final: whoever holds a member as left keeps exactly that entry, whatever still
      arrives, until it is reaped; and a member that has closed its own entry never reopens it. */
  lemma {:induction false} LeftIsFinal(past: Past, later: Past, n: Id, x: Id)
    requires Legal(past) && Legal(later) && HeldSince(past, later, n, x)
    requires n in Play(past).nodes && Closed(Play(past).nodes[n], x)
    ensures n in Play(later).nodes && Closed(Play(later).nodes[n], x)
    ensures Play(later).nodes[n].table[x] == Play(past).nodes[n].table[x]
    decreases later
  {
    if later != past {
      LeftIsFinal(past, later.before, n, x);
      PlayKeeps(later.before);
      MoveKeepsClosed(Play(later.before), later.move, n, x);
    }
  }

  // ---------- A member that has departed ----------

  ghost predicate Extends(past: Past, later: Past) {
    later == past || (later.Next? && Extends(past, later.before))
  }

  /** `m` has set out to leave and does not hold itself alive: its own entry is closed, or reaped. */
  predicate Departed(m: Node) {
    m.left && (m.id in m.table ==> m.table[m.id].DeadOrLeft())
  }

  lemma HandleKeepsDeparted(m: Node, c: Claim, now: int)
    requires Departed(m) && Indexed(m, m.id)
    ensures Departed(Handle(m, c, now)) && Handle(m, c, now).id == m.id
  {
    HandleOnlyAt(m, c, now);
    if c.id != m.id {
      assert SameCell(m, Handle(m, c, now), m.id);
    } else if m.id in m.table {
      DeadOrLeftStays(m, c, now, m.id);
    }
  }

  lemma StepKeepsDeparted(m: Node, op: Op, now: int)
    requires Departed(m) && Indexed(m, m.id)
    ensures Departed(Step(m, op, now))
  {
    match op
    case Deliver(c) => HandleKeepsDeparted(m, c, now);
    case Kill(d) => HandleKeepsDeparted(m.(kills := m.kills - multiset{d}), d, now);
    case ProbeFailed(s) => HandleKeepsDeparted(m, s, now);
    case CallUpdateTags(tags) =>
      if m.id in m.table {
        HandleKeepsDeparted(m.(lives := m.lives + 1), Alive(m.lives + 1, m.id, m.table[m.id].addr, tags), now);
      }
    case _ =>
  }

  /** A member that has departed never holds itself alive again, whatever it is sent or asked to do,
      before or after its own entry is reaped. */
  lemma {:induction false} DepartureIsFinal(past: Past, later: Past, x: Id)
    requires Legal(past) && Legal(later) && Extends(past, later)
    requires x in Play(past).nodes && Departed(Play(past).nodes[x])
    ensures x in Play(later).nodes && Departed(Play(later).nodes[x])
    decreases later
  {
    if later != past {
      DepartureIsFinal(past, later.before, x);
      PlayKeeps(later.before);
      var cl := Play(later.before);
      CellIsSound(cl, x, x);
      MoveActsAtOne(cl, later.move, x);
      if later.move.Act? && later.move.at == x {
        StepKeepsDeparted(cl.nodes[x], later.move.op, later.move.now);
      }
    }
  }
}
