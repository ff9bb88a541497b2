/** Every claim in a cluster is backed by its subject: what each move keeps. */
module Provenance {
  import opened Types
  import opened Node
  import opened NodeSafety
  import opened Cluster

  // ---------- The invariant ----------

  /** `c` says no more than its subject `au` has said: no higher lives number, no other address, the
      tags of that lives number if alive, and the subject's own departure if left. */
  predicate Backed(au: Author, c: Claim) {
    && c.lives <= au.counter
    && match c
       case Alive(lives, _, addr, tags) => addr == au.addr && lives in au.minted && au.minted[lives] == tags
       case Suspect(_, _, _) => true
       case Dead(lives, _, left) => left ==> au.sealed == Some(lives)
       case Remote(lives, _, addr, tags, state) =>
         && addr == au.addr
         && (state == StateAlive ==> lives in au.minted && au.minted[lives] == tags)
         && (state == StateLeft ==> au.sealed == Some(lives))
  }

  predicate Vouched(authors: map<Id, Author>, c: Claim) {
    c.id in authors && Backed(authors[c.id], c)
  }

  /** What `m` holds and gossips about `id`. */
  predicate CellVouched(authors: map<Id, Author>, m: Node, id: Id) {
    && (id in m.table ==> Vouched(authors, SnapshotOf(m, id)))
    && (id in m.gossip ==> m.gossip[id].id == id && Vouched(authors, m.gossip[id]))
  }

  /** A pending kill is a backed claim, or the member's own departure on its way. */
  predicate KillVouched(authors: map<Id, Author>, m: Node, d: DeadClaim) {
    Vouched(authors, d)
    || (d.left && d.id == m.id && m.left && m.id in authors && d.lives <= authors[m.id].counter)
  }

  predicate TimerVouched(authors: map<Id, Author>, t: Timer) {
    t.id in authors && t.lives <= authors[t.id].counter
  }

  ghost predicate PendingVouched(authors: map<Id, Author>, m: Node) {
    && (forall d :: d in m.kills ==> KillVouched(authors, m, d))
    && (forall t :: t in m.timers ==> TimerVouched(authors, t))
    && (forall s :: s in m.probes ==> Vouched(authors, s))
  }

  ghost predicate NodeVouched(authors: map<Id, Author>, m: Node) {
    (forall id :: CellVouched(authors, m, id)) && PendingVouched(authors, m)
  }

  ghost predicate MintedUpTo(au: Author, lives: nat) {
    forall l :: l in au.minted ==> l <= lives
  }

  predicate OwnAlive(m: Node) {
    m.id in m.table && m.table[m.id].state == StateAlive
  }

  /** The record of what `m` said about itself agrees with what it knows about itself. */
  ghost predicate AuthorInv(m: Node, au: Author) {
    && au.counter == m.lives && au.addr == m.addr
    && MintedUpTo(au, m.lives)
    && (OwnAlive(m) ==> MintedUpTo(au, m.table[m.id].lives) && au.sealed.None?)
    && (au.minted != map[] && !m.left ==> m.id in m.table)
    && (au.sealed.Some? ==> m.left && MintedUpTo(au, au.sealed.value))
  }

  ghost predicate MemberInv(authors: map<Id, Author>, n: Id, m: Node) {
    m.id == n && n in authors && NodeInv(m) && AuthorInv(m, authors[n]) && NodeVouched(authors, m)
  }

  ghost predicate Inv(c: Cluster) {
    && c.authors.Keys == c.nodes.Keys && NO_ID !in c.nodes
    && (forall n :: n in c.nodes ==> MemberInv(c.authors, n, c.nodes[n]))
    && (forall claim :: claim in c.net ==> Vouched(c.authors, claim))
  }

  // ---------- Growth of the record ----------

  ghost predicate Grows(au: Author, au': Author) {
    && au.counter <= au'.counter && au.addr == au'.addr
    && (forall l :: l in au.minted ==> l in au'.minted && au'.minted[l] == au.minted[l])
    && (au.sealed.Some? ==> au'.sealed == au.sealed)
  }

  ghost predicate AllGrow(authors: map<Id, Author>, authors': map<Id, Author>) {
    forall x :: x in authors ==> x in authors' && Grows(authors[x], authors'[x])
  }

  lemma VouchedGrows(authors: map<Id, Author>, authors': map<Id, Author>, c: Claim)
    requires AllGrow(authors, authors') && Vouched(authors, c)
    ensures Vouched(authors', c)
  {
    assert Grows(authors[c.id], authors'[c.id]);
  }

  lemma CellGrows(authors: map<Id, Author>, authors': map<Id, Author>, m: Node, id: Id)
    requires AllGrow(authors, authors') && CellVouched(authors, m, id)
    ensures CellVouched(authors', m, id)
  {
    if id in m.table { VouchedGrows(authors, authors', SnapshotOf(m, id)); }
    if id in m.gossip { VouchedGrows(authors, authors', m.gossip[id]); }
  }

  lemma PendingGrows(authors: map<Id, Author>, authors': map<Id, Author>, m: Node)
    requires AllGrow(authors, authors') && PendingVouched(authors, m)
    ensures PendingVouched(authors', m)
  {
    forall d | d in m.kills ensures KillVouched(authors', m, d) {
      assert KillVouched(authors, m, d);
      if Vouched(authors, d) { VouchedGrows(authors, authors', d); }
    }
    forall t | t in m.timers ensures TimerVouched(authors', t) {
      assert TimerVouched(authors, t) && Grows(authors[t.id], authors'[t.id]);
    }
    forall s | s in m.probes ensures Vouched(authors', s) {
      VouchedGrows(authors, authors', s);
    }
  }

  lemma NodeGrows(authors: map<Id, Author>, authors': map<Id, Author>, m: Node)
    requires AllGrow(authors, authors') && NodeVouched(authors, m)
    ensures NodeVouched(authors', m)
  {
    forall id ensures CellVouched(authors', m, id) {
      assert CellVouched(authors, m, id);
      CellGrows(authors, authors', m, id);
    }
    PendingGrows(authors, authors', m);
  }

  // ---------- One member's step ----------

  /** `m` is a member of a cluster with these authors. */
  ghost predicate Sound(authors: map<Id, Author>, m: Node) {
    && m.id in authors && AuthorInv(m, authors[m.id])
    && OwnEntrySound(m, m.id) && NodeVouched(authors, m)
  }

  function Observed(authors: map<Id, Author>, m: Node): map<Id, Author>
    requires m.id in authors
  {
    authors[m.id := Observe(authors[m.id], m)]
  }

  /** After a step to `m'` the record has grown and `m'` is backed by it. */
  ghost predicate Keeps(authors: map<Id, Author>, m': Node) {
    && m'.id in authors
    && AllGrow(authors, Observed(authors, m'))
    && AuthorInv(m', Observe(authors[m'.id], m'))
    && NodeVouched(Observed(authors, m'), m')
  }

  /** Nothing about itself changed, so nothing new is recorded. */
  lemma NothingMinted(authors: map<Id, Author>, m: Node, m': Node)
    requires Sound(authors, m) && m'.id == m.id && m'.lives == m.lives && m'.addr == m.addr
    requires SameCell(m, m', m.id)
    ensures Observe(authors[m.id], m') == authors[m.id]
    ensures Observed(authors, m') == authors
  {
    assert CellVouched(authors, m, m.id);
    var au := authors[m.id];
    if OwnAlive(m) {
      var e := m.table[m.id];
      assert Vouched(authors, SnapshotOf(m, m.id));
      assert au.minted[e.lives := e.tags] == au.minted;
    }
    assert authors[m.id := au] == authors;
  }

  /** A handler that learnt something backed about another member. */
  lemma LearntOther(authors: map<Id, Author>, m: Node, m': Node, id: Id)
    requires Sound(authors, m) && id != m.id && OnlyAt(m, m', id) && m'.lives == m.lives
    requires CellVouched(authors, m', id)
    requires forall t :: t in m'.timers ==> TimerVouched(authors, t)
    ensures Keeps(authors, m')
  {
    assert SameCell(m, m', m.id);
    NothingMinted(authors, m, m');
    forall x ensures CellVouched(authors, m', x) {
      assert CellVouched(authors, m, x);
      if x != id { assert SameCell(m, m', x); }
    }
    forall d | d in m'.kills ensures KillVouched(authors, m', d) {
      assert KillVouched(authors, m, d);
    }
  }

  /** A handler that changed what `m` says about itself. */
  lemma SpokeOfItself(authors: map<Id, Author>, m: Node, m': Node)
    requires Sound(authors, m) && OnlyAt(m, m', m.id) && m'.timers == m.timers
    requires Grows(authors[m.id], Observe(authors[m.id], m'))
    requires AuthorInv(m', Observe(authors[m.id], m'))
    requires CellVouched(Observed(authors, m'), m', m.id)
    ensures Keeps(authors, m')
  {
    var authors' := Observed(authors, m');
    assert AllGrow(authors, authors');
    forall x ensures CellVouched(authors', m', x) {
      if x != m.id {
        assert CellVouched(authors, m, x) && SameCell(m, m', x);
        CellGrows(authors, authors', m', x);
      }
    }
    PendingGrows(authors, authors', m);
    forall d | d in m'.kills ensures KillVouched(authors', m', d) {
      assert KillVouched(authors', m, d);
    }
  }

  lemma StayedPut(authors: map<Id, Author>, m: Node)
    requires Sound(authors, m)
    ensures Keeps(authors, m)
  {
    NothingMinted(authors, m, m);
  }

  /** The lives number of a refutation is the counter's next: the catch-up loop has nothing to catch up. */
  lemma RefutationMints(authors: map<Id, Author>, m: Node, lives: nat)
    requires Sound(authors, m) && OwnAlive(m) && lives <= m.lives
    ensures Refute(m, lives).lives == m.lives + 1
    ensures Keeps(authors, Refute(m, lives))
  {
    assert CellVouched(authors, m, m.id);
    RefuteOnlyAt(m, lives);
    SpokeOfItself(authors, m, Refute(m, lives));
  }

  /** An echo of its own announcement tells a member nothing. */
  lemma EchoIgnored(authors: map<Id, Author>, m: Node, a: AliveClaim, now: int)
    requires Sound(authors, m) && Vouched(authors, a) && a.id == m.id
    ensures AliveNode(m, a, now) == m
  {
    assert a.lives in authors[m.id].minted;
  }

  lemma AliveCell(authors: map<Id, Author>, m: Node, a: AliveClaim, now: int)
    requires CellVouched(authors, m, a.id) && Vouched(authors, a)
    ensures CellVouched(authors, AliveNode(m, a, now), a.id)
    ensures AliveNode(m, a, now).lives == m.lives && AliveNode(m, a, now).timers == m.timers
  {
  }

  lemma AliveVouched(authors: map<Id, Author>, m: Node, a: AliveClaim, now: int)
    requires Sound(authors, m) && Vouched(authors, a)
    ensures Keeps(authors, AliveNode(m, a, now))
  {
    var m' := AliveNode(m, a, now);
    assert CellVouched(authors, m, a.id);
    if a.id == m.id {
      EchoIgnored(authors, m, a, now);
      StayedPut(authors, m);
    } else {
      AliveOnlyAt(m, a, now);
      AliveCell(authors, m, a, now);
      LearntOther(authors, m, m', a.id);
    }
  }

  lemma SuspectCell(authors: map<Id, Author>, m: Node, s: SuspectClaim, now: int)
    requires CellVouched(authors, m, s.id) && Vouched(authors, s) && s.id != m.id
    ensures CellVouched(authors, SuspectNode(m, s, now), s.id)
    ensures SuspectNode(m, s, now).lives == m.lives
    ensures SuspectNode(m, s, now).timers in {m.timers, m.timers + multiset{Timer(s.id, s.lives)}}
  {
  }

  lemma SuspectVouched(authors: map<Id, Author>, m: Node, s: SuspectClaim, now: int)
    requires Sound(authors, m) && Vouched(authors, s) && Indexed(m, m.id)
    ensures Keeps(authors, SuspectNode(m, s, now))
  {
    var m' := SuspectNode(m, s, now);
    assert CellVouched(authors, m, s.id);
    if s.id == m.id {
      if m' == m {
        StayedPut(authors, m);
      } else {
        RefutationMints(authors, m, s.lives);
      }
    } else {
      SuspectOnlyAt(m, s, now);
      SuspectCell(authors, m, s, now);
      forall t | t in m'.timers ensures TimerVouched(authors, t) {
        assert t in m.timers || t == Timer(s.id, s.lives);
      }
      LearntOther(authors, m, m', s.id);
    }
  }

  lemma OwnDeath(authors: map<Id, Author>, m: Node, d: DeadClaim, now: int)
    requires Sound(authors, m) && KillVouched(authors, m, d) && d.id == m.id
    ensures Keeps(authors, DeadNode(m, d, now))
  {
    var m' := DeadNode(m, d, now);
    assert CellVouched(authors, m, m.id);
    if m' == m {
      StayedPut(authors, m);
    } else if !m.left {
      RefutationMints(authors, m, d.lives);
    } else {
      DeadOnlyAt(m, d, now);
      SpokeOfItself(authors, m, m');
    }
  }

  lemma DeadVouched(authors: map<Id, Author>, m: Node, d: DeadClaim, now: int)
    requires Sound(authors, m) && KillVouched(authors, m, d)
    ensures Keeps(authors, DeadNode(m, d, now))
  {
    if d.id == m.id {
      OwnDeath(authors, m, d, now);
    } else {
      assert CellVouched(authors, m, d.id);
      DeadOnlyAt(m, d, now);
      LearntOther(authors, m, DeadNode(m, d, now), d.id);
    }
  }

  lemma HandleVouched(authors: map<Id, Author>, m: Node, c: Claim, now: int)
    requires Sound(authors, m) && Vouched(authors, c) && Indexed(m, m.id)
    ensures Keeps(authors, Handle(m, c, now))
  {
    match c
    case Alive(_, _, _, _) => AliveVouched(authors, m, c, now);
    case Suspect(_, _, _) => SuspectVouched(authors, m, c, now);
    case Dead(_, _, _) => DeadVouched(authors, m, c, now);
    case Remote(lives, id, addr, tags, _) =>
      match c.state {
        case StateAlive => AliveVouched(authors, m, Alive(lives, id, addr, tags), now);
        case StateLeft => DeadVouched(authors, m, Dead(lives, id, true), now);
        case _ => SuspectVouched(authors, m, Suspect(lives, id, m.id), now);
      }
  }

  /** Unless it has left or may not list its own address, a member takes its own new tags. */
  lemma RetagsItself(m: Node, tags: Bytes, now: int)
    requires m.id in m.table && |tags| <= TAG_MAX_SIZE && m.table[m.id].lives <= m.lives
    ensures var m' := UpdateTags(m, tags, now);
            && OnlyAt(m, m', m.id) && m'.timers == m.timers && m'.lives == m.lives + 1
            && (SameCell(m, m', m.id)
                || (OwnAlive(m') && m'.table[m.id].lives == m.lives + 1 && m'.table[m.id].tags == tags
                    && m'.table[m.id].addr == m.table[m.id].addr
                    && (m.id in m'.gossip ==> m'.gossip[m.id] == Alive(m.lives + 1, m.id, m.table[m.id].addr, tags)
                                              || m.id == NO_ID)
                    && !m.left))
            && (m.id == NO_ID ==> m'.gossip == m.gossip)
  {
    var m1 := m.(lives := m.lives + 1);
    var a := Alive(m.lives + 1, m.id, m.table[m.id].addr, tags);
    AliveOnlyAt(m1, a, now);
    forall x ensures x != m.id ==> SameCell(m, AliveNode(m1, a, now), x) {
      assert x != m.id ==> SameCell(m1, AliveNode(m1, a, now), x);
    }
  }

  lemma UpdateTagsVouched(authors: map<Id, Author>, m: Node, tags: Bytes, now: int)
    requires Sound(authors, m)
    ensures Keeps(authors, UpdateTags(m, tags, now))
  {
    assert CellVouched(authors, m, m.id);
    if m.id in m.table && |tags| <= TAG_MAX_SIZE {
      RetagsItself(m, tags, now);
      SpokeOfItself(authors, m, UpdateTags(m, tags, now));
    } else {
      StayedPut(authors, m);
    }
  }

  /** A step that announces nothing: it may forget entries and messages, and change what is pending. */
  lemma SaidNothing(authors: map<Id, Author>, m: Node, m': Node)
    requires Sound(authors, m) && m'.id == m.id && m'.addr == m.addr && m'.lives == m.lives && (m.left ==> m'.left)
    requires forall x :: x in m'.table ==> x in m.table && m'.table[x] == m.table[x]
    requires forall x :: x in m'.gossip ==> x in m.gossip && m'.gossip[x] == m.gossip[x]
    requires m.id in m.table && m.id !in m'.table ==> m'.left
    requires PendingVouched(authors, m')
    ensures Keeps(authors, m')
  {
    assert CellVouched(authors, m, m.id);
    var au := authors[m.id];
    if OwnAlive(m') {
      var e := m.table[m.id];
      assert Vouched(authors, SnapshotOf(m, m.id));
      assert au.minted[e.lives := e.tags] == au.minted;
    }
    assert Observe(au, m') == au;
    assert Observed(authors, m') == authors;
    forall x ensures CellVouched(authors, m', x) {
      assert CellVouched(authors, m, x);
    }
  }

  lemma FirePending(authors: map<Id, Author>, m: Node, t: Timer)
    requires NodeVouched(authors, m)
    ensures PendingVouched(authors, FireTimer(m, t))
  {
    assert CellVouched(authors, m, t.id);
    var m' := FireTimer(m, t);
    forall d | d in m'.kills ensures KillVouched(authors, m', d) {
      assert d in m.kills ==> KillVouched(authors, m, d);
    }
  }

  lemma FireVouched(authors: map<Id, Author>, m: Node, t: Timer)
    requires Sound(authors, m)
    ensures Keeps(authors, FireTimer(m, t))
  {
    FirePending(authors, m, t);
    SaidNothing(authors, m, FireTimer(m, t));
  }

  lemma KillsVouched(authors: map<Id, Author>, m: Node, d: DeadClaim, now: int)
    requires Sound(authors, m)
    ensures Keeps(authors, RunKill(m, d, now))
  {
    if d in m.kills {
      var m0 := m.(kills := m.kills - multiset{d});
      assert KillVouched(authors, m, d);
      forall x ensures CellVouched(authors, m0, x) {
        assert CellVouched(authors, m, x);
      }
      forall k | k in m0.kills ensures KillVouched(authors, m0, k) {
        assert KillVouched(authors, m, k);
      }
      DeadVouched(authors, m0, d, now);
    } else {
      StayedPut(authors, m);
    }
  }

  lemma LeaveVouched(authors: map<Id, Author>, m: Node)
    requires Sound(authors, m)
    ensures Keeps(authors, BeginLeave(m))
  {
    assert CellVouched(authors, m, m.id);
    var m' := BeginLeave(m);
    forall d | d in m'.kills ensures KillVouched(authors, m', d) {
      assert d in m.kills ==> KillVouched(authors, m, d);
    }
    SaidNothing(authors, m, m');
  }

  lemma ProbeVouched(authors: map<Id, Author>, m: Node, id: Id)
    requires Sound(authors, m)
    ensures Keeps(authors, BeginProbe(m, id))
  {
    assert CellVouched(authors, m, id);
    var m' := BeginProbe(m, id);
    forall d | d in m'.kills ensures KillVouched(authors, m', d) {
      assert KillVouched(authors, m, d);
    }
    SaidNothing(authors, m, m');
  }

  lemma ForgetVouched(authors: map<Id, Author>, m: Node, now: int, name: Id)
    requires Sound(authors, m)
    ensures Keeps(authors, Reap(m, now))
    ensures Keeps(authors, FinishBroadcast(m, name))
  {
    forall d | d in m.kills
      ensures KillVouched(authors, Reap(m, now), d) && KillVouched(authors, FinishBroadcast(m, name), d) {
      assert KillVouched(authors, m, d);
    }
    SaidNothing(authors, m, Reap(m, now));
    SaidNothing(authors, m, FinishBroadcast(m, name));
  }

  lemma FailProbeVouched(authors: map<Id, Author>, m: Node, s: SuspectClaim, now: int)
    requires Sound(authors, m) && Indexed(m, m.id)
    ensures Keeps(authors, FailProbe(m, s, now))
  {
    if s in m.probes {
      SuspectVouched(authors, m, s, now);
    } else {
      StayedPut(authors, m);
    }
  }

  /** Steps that go through a handler. */
  predicate IsHandler(op: Op) {
    op.Deliver? || op.Kill? || op.ProbeFailed? || op.CallUpdateTags?
  }

  lemma HandlerVouched(authors: map<Id, Author>, m: Node, op: Op, now: int)
    requires Sound(authors, m) && Indexed(m, m.id) && IsHandler(op)
    requires op.Deliver? ==> Vouched(authors, op.claim)
    ensures Keeps(authors, Step(m, op, now))
  {
    match op
    case Deliver(c) => HandleVouched(authors, m, c, now);
    case Kill(d) => KillsVouched(authors, m, d, now);
    case ProbeFailed(s) => FailProbeVouched(authors, m, s, now);
    case CallUpdateTags(tags) => UpdateTagsVouched(authors, m, tags, now);
  }

  lemma QuietVouched(authors: map<Id, Author>, m: Node, op: Op, now: int)
    requires Sound(authors, m) && !IsHandler(op)
    ensures Keeps(authors, Step(m, op, now))
  {
    match op
    case Fire(t) => FireVouched(authors, m, t);
    case Probe(id) => ProbeVouched(authors, m, id);
    case CallLeave => LeaveVouched(authors, m);
    case RunReap => ForgetVouched(authors, m, now, NO_ID);
    case Finish(name) => ForgetVouched(authors, m, now, name);
  }

  lemma StepVouched(authors: map<Id, Author>, m: Node, op: Op, now: int)
    requires Sound(authors, m) && Indexed(m, m.id)
    requires op.Deliver? ==> Vouched(authors, op.claim)
    ensures Keeps(authors, Step(m, op, now))
  {
    if IsHandler(op) {
      HandlerVouched(authors, m, op, now);
    } else {
      QuietVouched(authors, m, op, now);
    }
  }

  // ---------- Every move of the cluster ----------

  lemma MemberGrows(authors: map<Id, Author>, authors': map<Id, Author>, n: Id, m: Node)
    requires MemberInv(authors, n, m) && AllGrow(authors, authors') && authors'[n] == authors[n]
    ensures MemberInv(authors', n, m)
  {
    NodeGrows(authors, authors', m);
  }

  /** Everybody else stays backed when one member's state and record are replaced. */
  lemma Installed(c: Cluster, m: Node, au: Author)
    requires Inv(c) && m.id != NO_ID
    requires AllGrow(c.authors, c.authors[m.id := au]) && MemberInv(c.authors[m.id := au], m.id, m)
    ensures Inv(Cluster(c.nodes[m.id := m], c.net, c.authors[m.id := au]))
  {
    var nodes', authors' := c.nodes[m.id := m], c.authors[m.id := au];
    forall n | n in nodes' ensures MemberInv(authors', n, nodes'[n]) {
      if n != m.id {
        MemberGrows(c.authors, authors', n, c.nodes[n]);
      }
    }
    forall claim | claim in c.net ensures Vouched(authors', claim) {
      VouchedGrows(c.authors, authors', claim);
    }
  }

  lemma StepIdentity(m: Node, op: Op, now: int)
    ensures Step(m, op, now).id == m.id
  {
  }

  lemma ActKeeps(c: Cluster, at: Id, op: Op, now: int)
    requires Inv(c) && Enabled(c, Act(at, op, now))
    ensures Inv(Apply(c, Act(at, op, now)))
  {
    var m, m' := c.nodes[at], Step(c.nodes[at], op, now);
    assert MemberInv(c.authors, at, m);
    assert CellInv(m, m.id);
    StepKeeps(m, op, now);
    StepVouched(c.authors, m, op, now);
    StepIdentity(m, op, now);
    Installed(c, m', Observe(c.authors[at], m'));
  }

  lemma BootVouched(authors: map<Id, Author>, id: Id, addr: Address, config: Config, tags: Bytes, now: int)
    requires id !in authors
    ensures var m := Boot(id, addr, config, tags, now);
            var au := Observe(Author(0, addr, map[], None), m);
            m.id == id && AuthorInv(m, au) && NodeVouched(authors[id := au], m)
  {
  }

  lemma NewcomerGrows(authors: map<Id, Author>, id: Id, au: Author)
    requires id !in authors
    ensures AllGrow(authors, authors[id := au])
  {
  }

  lemma StartKeeps(c: Cluster, mv: Move)
    requires Inv(c) && mv.Start? && Enabled(c, mv)
    ensures Inv(Apply(c, mv))
  {
    var m := Boot(mv.id, mv.addr, mv.config, mv.tags, mv.now);
    BootKeeps(mv.id, mv.addr, mv.config, mv.tags, mv.now);
    BootVouched(c.authors, mv.id, mv.addr, mv.config, mv.tags, mv.now);
    NewcomerGrows(c.authors, mv.id, Observe(Author(0, mv.addr, map[], None), m));
    Installed(c, m, Observe(Author(0, mv.addr, map[], None), m));
  }

  /** Backed claims may be sent. */
  lemma NetGrows(c: Cluster, claims: set<Claim>)
    requires Inv(c) && forall claim :: claim in claims ==> Vouched(c.authors, claim)
    ensures Inv(c.(net := c.net + claims))
  {
    var c' := c.(net := c.net + claims);
    forall n | n in c'.nodes ensures MemberInv(c'.authors, n, c'.nodes[n]) {
      assert MemberInv(c.authors, n, c.nodes[n]);
    }
  }

  lemma QueuedIsVouched(c: Cluster, at: Id, name: Id)
    requires Inv(c) && at in c.nodes && name in c.nodes[at].gossip
    ensures Vouched(c.authors, c.nodes[at].gossip[name])
  {
    assert MemberInv(c.authors, at, c.nodes[at]);
    assert CellVouched(c.authors, c.nodes[at], name);
  }

  lemma SendKeeps(c: Cluster, at: Id, name: Id)
    requires Inv(c) && Enabled(c, Send(at, name))
    ensures Inv(Apply(c, Send(at, name)))
  {
    QueuedIsVouched(c, at, name);
    NetGrows(c, {c.nodes[at].gossip[name]});
    assert Apply(c, Send(at, name)) == c.(net := c.net + {c.nodes[at].gossip[name]});
  }

  lemma PushKeeps(c: Cluster, at: Id)
    requires Inv(c) && Enabled(c, Push(at))
    ensures Inv(Apply(c, Push(at)))
  {
    assert MemberInv(c.authors, at, c.nodes[at]);
    forall claim | claim in Snapshot(c.nodes[at]) ensures Vouched(c.authors, claim) {
      assert CellVouched(c.authors, c.nodes[at], claim.id);
    }
    NetGrows(c, Snapshot(c.nodes[at]));
  }

  /** In every run, every claim anywhere is backed by its subject. */
  lemma {:induction false} PlayKeeps(past: Past)
    requires Legal(past)
    ensures Inv(Play(past))
  {
    match past
    case Dawn =>
    case Next(before, mv) =>
      PlayKeeps(before);
      match mv {
        case Start(_, _, _, _, _) => StartKeeps(Play(before), mv);
        case Act(at, op, now) => ActKeeps(Play(before), at, op, now);
        case Send(at, name) => SendKeeps(Play(before), at, name);
        case Push(at) => PushKeeps(Play(before), at);
      }
  }
}
