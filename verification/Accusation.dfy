/** Where suspicions and deaths come from: each goes back to a failed probe by another member. */
module Accusation {
  import opened Types
  import opened Node
  import opened NodeSafety
  import opened Cluster
  import opened Provenance
  import opened Guarantees

  /** `prober` probed `target` while holding it at `lives`, and the probe failed. */
  datatype Failure = Failure(prober: Id, target: Id, lives: nat)

  /** The probes that failed in a run. */
  function Failures(past: Past): set<Failure>
    requires Legal(past)
  {
    match past
    case Dawn => {}
    case Next(before, move) => Failures(before) + Failed(Play(before), move)
  }

  function Failed(cl: Cluster, mv: Move): set<Failure> {
    if mv.Act? && mv.op.ProbeFailed? && mv.at in cl.nodes && mv.op.suspect in cl.nodes[mv.at].probes
    then {Failure(mv.at, mv.op.suspect.id, mv.op.suspect.lives)}
    else {}
  }

  /** Another member's probe of `id` at `lives` failed. */
  ghost predicate Accused(failures: set<Failure>, id: Id, lives: nat) {
    exists prober :: prober != id && Failure(prober, id, lives) in failures
  }

  /** `c` says that its subject is suspect, or dead without having left. */
  predicate Accuses(c: Claim) {
    match c
    case Alive(_, _, _, _) => false
    case Suspect(_, _, _) => true
    case Dead(_, _, left) => !left
    case Remote(_, _, _, _, state) => state == StateSuspect || state == StateDead
  }

  ghost predicate Grounded(failures: set<Failure>, c: Claim) {
    Accuses(c) ==> Accused(failures, c.id, c.lives)
  }

  // ---------- The invariant ----------

  ghost predicate CellGrounded(failures: set<Failure>, m: Node, id: Id) {
    && (id in m.table ==> Grounded(failures, SnapshotOf(m, id)))
    && (id in m.gossip ==> Grounded(failures, m.gossip[id]))
  }

  ghost predicate PendingGrounded(failures: set<Failure>, m: Node) {
    && (forall t :: t in m.timers ==> Accused(failures, t.id, t.lives))
    && (forall d :: d in m.kills ==> Grounded(failures, d))
    && (forall s :: s in m.probes ==> s.id != m.id)
  }

  ghost predicate NodeGrounded(failures: set<Failure>, m: Node) {
    (forall id :: CellGrounded(failures, m, id)) && PendingGrounded(failures, m)
  }

  ghost predicate AllGrounded(failures: set<Failure>, cl: Cluster) {
    && (forall n :: n in cl.nodes ==> cl.nodes[n].id == n && NodeGrounded(failures, cl.nodes[n]))
    && (forall c :: c in cl.net ==> Grounded(failures, c))
  }

  lemma GroundedGrows(failures: set<Failure>, more: set<Failure>, c: Claim)
    requires Grounded(failures, c) && failures <= more
    ensures Grounded(more, c)
  {
  }

  lemma NodeGroundedGrows(failures: set<Failure>, more: set<Failure>, m: Node)
    requires NodeGrounded(failures, m) && failures <= more
    ensures NodeGrounded(more, m)
  {
    forall id ensures CellGrounded(more, m, id) {
      assert CellGrounded(failures, m, id);
    }
    forall t | t in m.timers ensures Accused(more, t.id, t.lives) {
      assert Accused(failures, t.id, t.lives);
    }
  }

  // ---------- One member's step ----------

  /** A handler that learnt something grounded about one member. */
  lemma LearntGrounded(failures: set<Failure>, m: Node, m': Node, id: Id)
    requires NodeGrounded(failures, m) && OnlyAt(m, m', id) && CellGrounded(failures, m', id)
    requires forall t :: t in m'.timers ==> Accused(failures, t.id, t.lives)
    ensures NodeGrounded(failures, m')
  {
    forall x ensures CellGrounded(failures, m', x) {
      assert CellGrounded(failures, m, x);
      if x != id {
        assert SameCell(m, m', x);
      }
    }
  }

  lemma AliveGrounded(failures: set<Failure>, m: Node, a: AliveClaim, now: int)
    requires NodeGrounded(failures, m)
    ensures NodeGrounded(failures, AliveNode(m, a, now))
  {
    assert CellGrounded(failures, m, a.id);
    AliveOnlyAt(m, a, now);
    LearntGrounded(failures, m, AliveNode(m, a, now), a.id);
  }

  lemma SuspectCellGrounded(failures: set<Failure>, m: Node, s: SuspectClaim, now: int)
    requires CellGrounded(failures, m, s.id) && Accused(failures, s.id, s.lives)
    requires Indexed(m, s.id) && OwnEntrySound(m, s.id)
    ensures CellGrounded(failures, SuspectNode(m, s, now), s.id)
    ensures SuspectNode(m, s, now).timers in {m.timers, m.timers + multiset{Timer(s.id, s.lives)}}
  {
  }

  lemma SuspectGrounded(failures: set<Failure>, m: Node, s: SuspectClaim, now: int)
    requires NodeGrounded(failures, m) && Accused(failures, s.id, s.lives) && Indexed(m, s.id) && OwnEntrySound(m, s.id)
    ensures NodeGrounded(failures, SuspectNode(m, s, now))
  {
    var m' := SuspectNode(m, s, now);
    assert CellGrounded(failures, m, s.id);
    SuspectCellGrounded(failures, m, s, now);
    SuspectOnlyAt(m, s, now);
    forall t | t in m'.timers ensures Accused(failures, t.id, t.lives) {
      assert t in m.timers || t == Timer(s.id, s.lives);
    }
    LearntGrounded(failures, m, m', s.id);
  }

  lemma DeadGrounded(failures: set<Failure>, m: Node, d: DeadClaim, now: int)
    requires NodeGrounded(failures, m) && Grounded(failures, d) && OwnEntrySound(m, m.id)
    ensures NodeGrounded(failures, DeadNode(m, d, now))
  {
    assert CellGrounded(failures, m, d.id);
    DeadOnlyAt(m, d, now);
    LearntGrounded(failures, m, DeadNode(m, d, now), d.id);
  }

  lemma HandleGrounded(failures: set<Failure>, m: Node, c: Claim, now: int)
    requires NodeInv(m) && NodeGrounded(failures, m) && Grounded(failures, c)
    ensures NodeGrounded(failures, Handle(m, c, now))
  {
    assert CellInv(m, c.id) && CellInv(m, m.id);
    match c
    case Alive(_, _, _, _) => AliveGrounded(failures, m, c, now);
    case Suspect(_, _, _) => SuspectGrounded(failures, m, c, now);
    case Dead(_, _, _) => DeadGrounded(failures, m, c, now);
    case Remote(lives, id, addr, tags, _) =>
      match c.state {
        case StateAlive => AliveGrounded(failures, m, Alive(lives, id, addr, tags), now);
        case StateLeft => DeadGrounded(failures, m, Dead(lives, id, true), now);
        case _ => SuspectGrounded(failures, m, Suspect(lives, id, m.id), now);
      }
  }

  /** A step that learns nothing: it may forget entries and messages, and change what is pending. */
  lemma LearntNothing(failures: set<Failure>, m: Node, m': Node)
    requires NodeGrounded(failures, m) && PendingGrounded(failures, m')
    requires forall x :: x in m'.table ==> x in m.table && m'.table[x] == m.table[x]
    requires forall x :: x in m'.gossip ==> x in m.gossip && m'.gossip[x] == m.gossip[x]
    ensures NodeGrounded(failures, m')
  {
    forall id ensures CellGrounded(failures, m', id) {
      assert CellGrounded(failures, m, id);
    }
  }

  lemma FireGrounded(failures: set<Failure>, m: Node, t: Timer)
    requires NodeGrounded(failures, m)
    ensures NodeGrounded(failures, FireTimer(m, t))
  {
    LearntNothing(failures, m, FireTimer(m, t));
  }

  lemma KillGrounded(failures: set<Failure>, m: Node, d: DeadClaim, now: int)
    requires NodeGrounded(failures, m) && OwnEntrySound(m, m.id)
    ensures NodeGrounded(failures, RunKill(m, d, now))
  {
    if d in m.kills {
      var m0 := m.(kills := m.kills - multiset{d});
      LearntNothing(failures, m, m0);
      DeadGrounded(failures, m0, d, now);
    }
  }

  lemma UpdateTagsGrounded(failures: set<Failure>, m: Node, tags: Bytes, now: int)
    requires NodeGrounded(failures, m)
    ensures NodeGrounded(failures, UpdateTags(m, tags, now))
  {
    if m.id in m.table {
      var m0 := m.(lives := m.lives + 1);
      LearntNothing(failures, m, m0);
      AliveGrounded(failures, m0, Alive(m.lives + 1, m.id, m.table[m.id].addr, tags), now);
    }
  }

  lemma FailProbeGrounded(failures: set<Failure>, m: Node, s: SuspectClaim, now: int)
    requires NodeInv(m) && NodeGrounded(failures, m) && (s in m.probes ==> Accused(failures, s.id, s.lives))
    ensures NodeGrounded(failures, FailProbe(m, s, now))
  {
    if s in m.probes {
      assert CellInv(m, s.id);
      SuspectGrounded(failures, m, s, now);
    }
  }

  lemma BeginProbeGrounded(failures: set<Failure>, m: Node, id: Id)
    requires NodeGrounded(failures, m)
    ensures NodeGrounded(failures, BeginProbe(m, id))
  {
    LearntNothing(failures, m, BeginProbe(m, id));
  }

  lemma BeginLeaveGrounded(failures: set<Failure>, m: Node)
    requires NodeGrounded(failures, m)
    ensures NodeGrounded(failures, BeginLeave(m))
  {
    LearntNothing(failures, m, BeginLeave(m));
  }

  lemma ForgetGrounded(failures: set<Failure>, m: Node, name: Id, now: int)
    requires NodeGrounded(failures, m)
    ensures NodeGrounded(failures, Reap(m, now)) && NodeGrounded(failures, FinishBroadcast(m, name))
  {
    LearntNothing(failures, m, Reap(m, now));
    LearntNothing(failures, m, FinishBroadcast(m, name));
  }

  lemma StepGrounded(failures: set<Failure>, m: Node, op: Op, now: int)
    requires NodeInv(m) && NodeGrounded(failures, m)
    requires op.Deliver? ==> Grounded(failures, op.claim)
    requires op.ProbeFailed? && op.suspect in m.probes ==> Accused(failures, op.suspect.id, op.suspect.lives)
    ensures NodeGrounded(failures, Step(m, op, now))
  {
    match op
    case Deliver(c) => HandleGrounded(failures, m, c, now);
    case Fire(t) => FireGrounded(failures, m, t);
    case Kill(d) =>
      assert CellInv(m, m.id);
      KillGrounded(failures, m, d, now);
    case Probe(id) => BeginProbeGrounded(failures, m, id);
    case ProbeFailed(s) => FailProbeGrounded(failures, m, s, now);
    case CallLeave => BeginLeaveGrounded(failures, m);
    case CallUpdateTags(tags) => UpdateTagsGrounded(failures, m, tags, now);
    case RunReap => ForgetGrounded(failures, m, m.id, now);
    case Finish(name) => ForgetGrounded(failures, m, name, now);
  }

  // ---------- Every move ----------

  lemma BootGrounded(failures: set<Failure>, id: Id, addr: Address, config: Config, tags: Bytes, now: int)
    ensures NodeGrounded(failures, Boot(id, addr, config, tags, now)) && Boot(id, addr, config, tags, now).id == id
  {
    var m := Blank(id, addr, config).(lives := 1);
    assert NodeGrounded(failures, m);
    AliveGrounded(failures, m, Alive(1, id, addr, tags), now);
  }

  lemma ActGrounded(failures: set<Failure>, cl: Cluster, at: Id, op: Op, now: int)
    requires AllGrounded(failures, cl) && Enabled(cl, Act(at, op, now)) && NodeInv(cl.nodes[at])
    ensures var more := failures + Failed(cl, Act(at, op, now));
            var m := Step(cl.nodes[at], op, now);
            m.id == at && NodeGrounded(more, m)
  {
    var m, more := cl.nodes[at], failures + Failed(cl, Act(at, op, now));
    NodeGroundedGrows(failures, more, m);
    if op.Deliver? {
      GroundedGrows(failures, more, op.claim);
    }
    if op.ProbeFailed? && op.suspect in m.probes {
      assert Failure(at, op.suspect.id, op.suspect.lives) in more;
    }
    StepGrounded(more, m, op, now);
    StepIdentity(m, op, now);
  }

  /** What one member is replaced by, and more claims, if grounded, leave everything grounded. */
  lemma StillGrounded(failures: set<Failure>, more: set<Failure>, cl: Cluster, cl': Cluster, at: Id)
    requires AllGrounded(failures, cl) && failures <= more
    requires forall n :: n in cl'.nodes && n != at ==> n in cl.nodes && cl'.nodes[n] == cl.nodes[n]
    requires at in cl'.nodes ==> cl'.nodes[at].id == at && NodeGrounded(more, cl'.nodes[at])
    requires forall c :: c in cl'.net && c !in cl.net ==> Grounded(more, c)
    ensures AllGrounded(more, cl')
  {
    forall n | n in cl'.nodes ensures cl'.nodes[n].id == n && NodeGrounded(more, cl'.nodes[n]) {
      if n != at {
        NodeGroundedGrows(failures, more, cl.nodes[n]);
      }
    }
    forall c | c in cl'.net ensures Grounded(more, c) {
      if c in cl.net {
        GroundedGrows(failures, more, c);
      }
    }
  }

  lemma SentGrounded(failures: set<Failure>, cl: Cluster, mv: Move, c: Claim)
    requires AllGrounded(failures, cl) && Enabled(cl, mv) && (mv.Send? || mv.Push?)
    requires c in Apply(cl, mv).net && c !in cl.net
    ensures Grounded(failures, c)
  {
    assert NodeGrounded(failures, cl.nodes[mv.at]);
    assert mv.Send? ==> CellGrounded(failures, cl.nodes[mv.at], mv.name);
    assert CellGrounded(failures, cl.nodes[mv.at], c.id);
  }

  lemma StartMoveGrounded(failures: set<Failure>, cl: Cluster, mv: Move)
    requires AllGrounded(failures, cl) && mv.Start? && Enabled(cl, mv)
    ensures AllGrounded(failures, Apply(cl, mv))
  {
    BootGrounded(failures, mv.id, mv.addr, mv.config, mv.tags, mv.now);
    StillGrounded(failures, failures, cl, Apply(cl, mv), mv.id);
  }

  lemma ActMoveGrounded(failures: set<Failure>, cl: Cluster, mv: Move)
    requires AllGrounded(failures, cl) && mv.Act? && Enabled(cl, mv) && NodeInv(cl.nodes[mv.at])
    ensures AllGrounded(failures + Failed(cl, mv), Apply(cl, mv))
  {
    ActGrounded(failures, cl, mv.at, mv.op, mv.now);
    StillGrounded(failures, failures + Failed(cl, mv), cl, Apply(cl, mv), mv.at);
  }

  lemma SendMoveGrounded(failures: set<Failure>, cl: Cluster, mv: Move)
    requires AllGrounded(failures, cl) && (mv.Send? || mv.Push?) && Enabled(cl, mv)
    ensures AllGrounded(failures, Apply(cl, mv))
  {
    var cl' := Apply(cl, mv);
    forall c | c in cl'.net && c !in cl.net ensures Grounded(failures, c) {
      SentGrounded(failures, cl, mv, c);
    }
    StillGrounded(failures, failures, cl, cl', mv.at);
  }

  lemma SoundAt(cl: Cluster, at: Id)
    requires Inv(cl) && at in cl.nodes
    ensures NodeInv(cl.nodes[at])
  {
    assert MemberInv(cl.authors, at, cl.nodes[at]);
  }

  lemma MoveGrounded(failures: set<Failure>, cl: Cluster, mv: Move)
    requires AllGrounded(failures, cl) && Enabled(cl, mv) && (mv.Act? ==> NodeInv(cl.nodes[mv.at]))
    ensures AllGrounded(failures + Failed(cl, mv), Apply(cl, mv))
  {
    assert failures + {} == failures;
    match mv
    case Start(_, _, _, _, _) => StartMoveGrounded(failures, cl, mv);
    case Act(_, _, _) => ActMoveGrounded(failures, cl, mv);
    case _ => SendMoveGrounded(failures, cl, mv);
  }

  lemma {:induction false} PlayGrounded(past: Past)
    requires Legal(past)
    ensures AllGrounded(Failures(past), Play(past))
  {
    match past
    case Dawn =>
    case Next(before, mv) =>
      PlayGrounded(before);
      if mv.Act? {
        PlayKeeps(before);
        SoundAt(Play(before), mv.at);
      }
      MoveGrounded(Failures(before), Play(before), mv);
  }

  /** A timer is armed at `m` for `id` at `lives`, or `m` holds or queues `c`, or is about to apply it. */
  ghost predicate Asserted(m: Node, c: Claim) {
    || (c.id in m.table && c == SnapshotOf(m, c.id))
    || (c.id in m.gossip && c == m.gossip[c.id])
    || (c.Suspect? && Timer(c.id, c.lives) in m.timers)
    || (c.Dead? && c in m.kills)
  }

  lemma AssertedIsGrounded(failures: set<Failure>, m: Node, c: Claim)
    requires NodeGrounded(failures, m) && Asserted(m, c) && Accuses(c)
    ensures Accused(failures, c.id, c.lives)
  {
    assert CellGrounded(failures, m, c.id);
  }

  /** Nobody is suspected or declared dead out of nothing: wherever in a run a member is said to be
      suspect, or dead without having left, or is timed or about to be killed as such, another member's
      probe of it at exactly that lives number has failed before. */
  lemma {:induction false} AccusationProvenance(past: Past, c: Claim)
    requires Legal(past) && Accuses(c)
    requires c in Play(past).net || exists n :: n in Play(past).nodes && Asserted(Play(past).nodes[n], c)
    ensures exists prober :: prober != c.id && Failure(prober, c.id, c.lives) in Failures(past)
  {
    PlayGrounded(past);
    if c !in Play(past).net {
      var n :| n in Play(past).nodes && Asserted(Play(past).nodes[n], c);
      AssertedIsGrounded(Failures(past), Play(past).nodes[n], c);
    }
    assert Accused(Failures(past), c.id, c.lives);
  }
}
