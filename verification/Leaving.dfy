/** Who is listed, when a departure takes effect, and what becomes of one that does not. */
module Leaving {
  import opened Types
  import opened Node
  import opened NodeSafety
  import opened NodeRuns
  import opened Cluster
  import opened Provenance
  import opened Guarantees

  // ---------- Who is listed ----------

  predicate Admitted(m: Node, id: Id) {
    id in m.table ==> m.config.ipAllowed(m.table[id].addr.ip)
  }

  /** Unless it has left or its own address is not allowed, a member lists itself. */
  predicate OwnListed(m: Node) {
    !m.left && m.config.ipAllowed(m.addr.ip) ==> m.id in m.table
  }

  ghost predicate ListInv(m: Node) {
    (forall id :: Admitted(m, id)) && OwnListed(m)
  }

  lemma HandleLists(m: Node, c: Claim, now: int)
    requires ListInv(m)
    ensures ListInv(Handle(m, c, now))
  {
    var m' := Handle(m, c, now);
    HandleOnlyAt(m, c, now);
    assert Admitted(m, c.id);
    forall id ensures Admitted(m', id) {
      assert Admitted(m, id);
      if id != c.id {
        assert SameCell(m, m', id);
      }
    }
    if m.id in m.table {
      HandleForward(m, c, now, m.id);
    }
  }

  /** Lives numbers, kills, probes, timers and messages are not what is listed. */
  lemma SameList(m: Node, m': Node)
    requires ListInv(m) && m'.table == m.table && m'.config == m.config
    requires m'.id == m.id && m'.addr == m.addr && (m.left ==> m'.left)
    ensures ListInv(m')
  {
    forall id ensures Admitted(m', id) {
      assert Admitted(m, id);
    }
  }

  lemma UpdateTagsLists(m: Node, tags: Bytes, now: int)
    requires ListInv(m)
    ensures ListInv(UpdateTags(m, tags, now))
  {
    if m.id in m.table {
      SameList(m, m.(lives := m.lives + 1));
      HandleLists(m.(lives := m.lives + 1), Alive(m.lives + 1, m.id, m.table[m.id].addr, tags), now);
    }
  }

  lemma ReapLists(m: Node, now: int)
    requires ListInv(m) && OwnEntrySound(m, m.id)
    ensures ListInv(Reap(m, now))
  {
    forall id ensures Admitted(Reap(m, now), id) {
      assert Admitted(m, id);
    }
  }

  lemma KillLists(m: Node, d: DeadClaim, now: int)
    requires ListInv(m)
    ensures ListInv(RunKill(m, d, now))
  {
    SameList(m, m.(kills := m.kills - multiset{d}));
    HandleLists(m.(kills := m.kills - multiset{d}), d, now);
  }

  lemma FireLists(m: Node, t: Timer)
    requires ListInv(m)
    ensures ListInv(FireTimer(m, t))
  {
    SameList(m, FireTimer(m, t));
  }

  lemma BeginProbeLists(m: Node, id: Id)
    requires ListInv(m)
    ensures ListInv(BeginProbe(m, id))
  {
    SameList(m, BeginProbe(m, id));
  }

  lemma BeginLeaveLists(m: Node)
    requires ListInv(m)
    ensures ListInv(BeginLeave(m))
  {
    SameList(m, BeginLeave(m));
  }

  lemma FinishLists(m: Node, name: Id)
    requires ListInv(m)
    ensures ListInv(FinishBroadcast(m, name))
  {
    SameList(m, FinishBroadcast(m, name));
  }

  lemma StepLists(m: Node, op: Op, now: int)
    requires ListInv(m) && OwnEntrySound(m, m.id)
    ensures ListInv(Step(m, op, now))
  {
    match op
    case Deliver(c) => HandleLists(m, c, now);
    case Fire(t) => FireLists(m, t);
    case Kill(d) => KillLists(m, d, now);
    case Probe(id) => BeginProbeLists(m, id);
    case ProbeFailed(s) => HandleLists(m, s, now);
    case CallLeave => BeginLeaveLists(m);
    case CallUpdateTags(tags) => UpdateTagsLists(m, tags, now);
    case RunReap => ReapLists(m, now);
    case Finish(name) => FinishLists(m, name);
  }

  lemma {:induction false} MembersList(past: Past, n: Id)
    requires Legal(past) && n in Play(past).nodes
    ensures ListInv(Play(past).nodes[n])
  {
    var cl, mv := Play(past.before), past.move;
    if n in cl.nodes {
      MembersList(past.before, n);
      PlayKeeps(past.before);
      CellIsSound(cl, n, n);
      MoveActsAtOne(cl, mv, n);
      if mv.Act? && mv.at == n {
        StepLists(cl.nodes[n], mv.op, mv.now);
      }
    }
  }

  /** No member lists an address that its allow-list does not allow, whoever told it. */
  lemma {:induction false} ListedIsAllowed(past: Past, n: Id, x: Id)
    requires Legal(past) && n in Play(past).nodes && x in Play(past).nodes[n].table
    ensures x in Play(past).nodes && Play(past).nodes[n].config.ipAllowed(Play(past).nodes[x].addr.ip)
  {
    PlayKeeps(past);
    EntryBounded(Play(past), n, x);
    MembersList(past, n);
    assert Admitted(Play(past).nodes[n], x);
  }

  /** Until it leaves, a member lists itself exactly if its own address is on its allow-list. */
  lemma {:induction false} OwnEntryListed(past: Past, x: Id)
    requires Legal(past) && x in Play(past).nodes
    ensures var m := Play(past).nodes[x];
            && m.id == x
            && (x in m.table ==> m.config.ipAllowed(m.addr.ip))
            && (!m.left && m.config.ipAllowed(m.addr.ip) ==> x in m.table)
  {
    PlayKeeps(past);
    CellIsSound(Play(past), x, x);
    MembersList(past, x);
    if x in Play(past).nodes[x].table {
      ListedIsAllowed(past, x, x);
    }
  }

  // ---------- When a departure takes effect ----------

  /** The claim that `Leave` reads from the own entry and applies later. */
  function Farewell(m: Node): DeadClaim
    requires m.id in m.table
  {
    Dead(m.table[m.id].lives, m.id, true)
  }

  /** Calling `Leave` plans the farewell exactly once, at the own lives number, if there is an own entry. */
  lemma LeavePlans(m: Node, now: int)
    ensures var m' := Step(m, CallLeave, now);
            && m'.left && m'.table == m.table && m'.gossip == m.gossip
            && m'.kills == m.kills + (if !m.left && m.id in m.table
                                      then multiset{Dead(m.table[m.id].lives, m.id, true)} else multiset{})
  {
  }

  /** With nothing in between, the own entry becomes left, and the farewell is queued and notified. */
  lemma UndisturbedLeave(m: Node, now: int)
    requires !m.left && m.id in m.table && m.table[m.id].state == StateAlive && m.id != NO_ID
    ensures var d := Dead(m.table[m.id].lives, m.id, true);
            var m' := RunKill(BeginLeave(m), d, now);
            && m'.table == m.table[m.id := m.table[m.id].(state := StateLeft, changed := now)]
            && m.id in m'.gossip && m'.gossip[m.id] == d
            && m'.events == Then(m.events, Event(NodeLeave, MemberOf(m.id, m.table[m.id])))
  {
  }

  lemma OwnKill(m: Node, d: DeadClaim, now: int)
    requires d in m.kills && d.id == m.id && d.left && m.left && m.id in m.table && OwnEntrySound(m, m.id)
    ensures var e := m.table[m.id];
            && m.id in RunKill(m, d, now).table
            && (RunKill(m, d, now).table[m.id].state == StateLeft
                <==> e.state == StateLeft || (e.state == StateAlive && e.lives <= d.lives))
  {
  }

  lemma {:induction false} RunIdentity(m: Node, ops: seq<TimedOp>)
    ensures Run(m, ops).id == m.id && (m.left ==> Run(m, ops).left)
  {
    if ops != [] {
      RunIdentity(m, ops[..|ops| - 1]);
      StepStaysLeft(Run(m, ops[..|ops| - 1]), ops[|ops| - 1].op, ops[|ops| - 1].now);
    }
  }

  lemma StepStaysLeft(m: Node, op: Op, now: int)
    ensures Step(m, op, now).id == m.id && (m.left ==> Step(m, op, now).left)
  {
  }

  lemma HandleKeepsPending(m: Node, c: Claim, now: int)
    ensures Handle(m, c, now).kills == m.kills
  {
    HandleOnlyAt(m, c, now);
  }

  lemma KillKeepsPending(m: Node, k: DeadClaim, now: int, d: DeadClaim)
    requires d in m.kills && k != d
    ensures d in RunKill(m, k, now).kills
  {
    HandleKeepsPending(m.(kills := m.kills - multiset{k}), k, now);
  }

  lemma StepKeepsPending(m: Node, op: Op, now: int, d: DeadClaim)
    requires d in m.kills && op != Kill(d)
    ensures d in Step(m, op, now).kills
  {
    match op
    case Deliver(c) => HandleKeepsPending(m, c, now);
    case Kill(k) => KillKeepsPending(m, k, now, d);
    case ProbeFailed(s) => HandleKeepsPending(m, s, now);
    case CallUpdateTags(tags) =>
      if m.id in m.table {
        HandleKeepsPending(m.(lives := m.lives + 1), Alive(m.lives + 1, m.id, m.table[m.id].addr, tags), now);
      }
    case _ =>
  }

  /** A pending kill stays pending until it is applied. */
  lemma {:induction false} RunKeepsPending(m: Node, ops: seq<TimedOp>, d: DeadClaim)
    requires d in m.kills && forall k :: 0 <= k < |ops| ==> ops[k].op != Kill(d)
    ensures d in Run(m, ops).kills
  {
    if ops != [] {
      RunKeepsPending(m, ops[..|ops| - 1], d);
      StepKeepsPending(Run(m, ops[..|ops| - 1]), ops[|ops| - 1].op, ops[|ops| - 1].now, d);
    }
  }

  /** Whatever happens between the two halves of `Leave`, the own entry ends left exactly if it is left
      already or still alive at the lives number that was read. */
  lemma {:induction false} LeaveTakesEffect(m: Node, ops: seq<TimedOp>, now: int)
    requires NodeInv(m) && !m.left && m.id in m.table && Resident(Trace(BeginLeave(m), ops), m.id, 0, |ops|)
    requires forall k :: 0 <= k < |ops| ==> ops[k].op != Kill(Farewell(m))
    ensures var m' := Run(BeginLeave(m), ops);
            && m.id in m'.table && m.id in RunKill(m', Farewell(m), now).table
            && (RunKill(m', Farewell(m), now).table[m.id].state == StateLeft
                <==> m'.table[m.id].state == StateLeft
                     || (m'.table[m.id].state == StateAlive && m'.table[m.id].lives == m.table[m.id].lives))
  {
    var m0 := BeginLeave(m);
    assert ops[..|ops|] == ops && ops[..0] == [];
    TraceIsRun(m0, ops, 0);
    TraceIsRun(m0, ops, |ops|);
    LeaveKeeps(m);
    RunKeeps(m0, ops);
    assert CellInv(Run(m0, ops), m.id);
    RunIdentity(m0, ops);
    RunForward(m0, ops, m.id, 0, |ops|);
    RunKeepsPending(m0, ops, Farewell(m));
    OwnKill(Run(m0, ops), Farewell(m), now);
  }

  // ---------- A departure that is outrun ----------

  /** The flag is set, and the own entry is alive above the lives number that `Leave` read. */
  ghost predicate Outrun(m: Node) {
    m.left && OwnAlive(m) && forall d :: d in m.kills && d.id == m.id && d.left ==> d.lives < m.table[m.id].lives
  }

  /** One suspicion of itself that arrives between the halves of `Leave` is enough: the refutation outruns
      the leave, and a second call does nothing. */
  lemma SuspicionOutruns(m: Node, from: Id, now: int)
    requires NodeInv(m) && !m.left && m.id in m.table
    requires forall d :: d in m.kills && d.id == m.id && d.left ==> d.lives <= m.table[m.id].lives
    ensures var m1 := SuspectNode(BeginLeave(m), Suspect(m.table[m.id].lives, m.id, from), now);
            Outrun(m1) && Outrun(RunKill(m1, Farewell(m), now)) && BeginLeave(m1) == m1
  {
    assert CellInv(m, m.id);
  }

  lemma NoFarewellYet(cl: Cluster, x: Id, d: DeadClaim)
    requires Inv(cl) && x in cl.nodes && !cl.nodes[x].left && d in cl.nodes[x].kills && d.id == x
    ensures !d.left
  {
    assert MemberInv(cl.authors, x, cl.nodes[x]);
    assert KillVouched(cl.authors, cl.nodes[x], d);
  }

  lemma OutrunInCluster(cl: Cluster, x: Id, s: SuspectClaim, now: int)
    requires Inv(cl) && x in cl.nodes && !cl.nodes[x].left && x in cl.nodes[x].table
    requires s.id == x && s.lives == cl.nodes[x].table[x].lives
    ensures Outrun(SuspectNode(BeginLeave(cl.nodes[x]), s, now))
  {
    var m := cl.nodes[x];
    assert MemberInv(cl.authors, x, m);
    forall d | d in m.kills ensures d.id == m.id ==> !d.left {
      if d.id == x {
        NoFarewellYet(cl, x, d);
      }
    }
    SuspicionOutruns(m, s.from, now);
  }

  lemma {:induction false} ActsNext(past: Past, x: Id, op: Op, now: int)
    requires Legal(past) && Enabled(Play(past), Act(x, op, now))
    ensures var later := Next(past, Act(x, op, now));
            && Legal(later) && x in Play(later).nodes && x in Play(later).authors
            && Play(later).nodes[x] == Step(Play(past).nodes[x], op, now) && Play(later).net == Play(past).net
  {
    MoveActsAtOne(Play(past), Act(x, op, now), x);
  }

  /** The two moves that do it: the call, and the suspicion's arrival. */
  function Overtaken(past: Past, x: Id, s: SuspectClaim, now: int): Past {
    Next(Next(past, Act(x, CallLeave, now)), Act(x, Deliver(s), now))
  }

  lemma {:induction false} LeavesNext(past: Past, x: Id, now: int)
    requires Legal(past) && x in Play(past).nodes && x in Play(past).authors
    ensures var later := Next(past, Act(x, CallLeave, now));
            && Legal(later) && x in Play(later).nodes && x in Play(later).authors
            && Play(later).nodes[x] == BeginLeave(Play(past).nodes[x]) && Play(later).net == Play(past).net
  {
    ActsNext(past, x, CallLeave, now);
  }

  lemma {:induction false} HearsNext(past: Past, x: Id, s: SuspectClaim, now: int)
    requires Legal(past) && x in Play(past).nodes && x in Play(past).authors && s in Play(past).net
    ensures var later := Next(past, Act(x, Deliver(s), now));
            && Legal(later) && x in Play(later).nodes
            && Play(later).nodes[x] == SuspectNode(Play(past).nodes[x], s, now)
  {
    ActsNext(past, x, Deliver(s), now);
  }

  lemma {:induction false} OvertakenNode(past: Past, x: Id, s: SuspectClaim, now: int)
    requires Legal(past) && x in Play(past).nodes && x in Play(past).authors && s in Play(past).net
    ensures var later := Overtaken(past, x, s, now);
            && Legal(later) && x in Play(later).nodes
            && Play(later).nodes[x] == SuspectNode(BeginLeave(Play(past).nodes[x]), s, now)
  {
    LeavesNext(past, x, now);
    HearsNext(Next(past, Act(x, CallLeave, now)), x, s, now);
  }

  /** Whenever a suspicion of a member at its current lives number is in flight, a leave that begins
      before it arrives is outrun. */
  lemma {:induction false} LeaveCanBeOutrun(past: Past, x: Id, s: SuspectClaim, now: int)
    requires Legal(past) && x in Play(past).nodes && !Play(past).nodes[x].left && x in Play(past).nodes[x].table
    requires s in Play(past).net && s.id == x && s.lives == Play(past).nodes[x].table[x].lives
    ensures var later := Overtaken(past, x, s, now);
            Legal(later) && Extends(past, later) && x in Play(later).nodes && Outrun(Play(later).nodes[x])
  {
    PlayKeeps(past);
    OutrunInCluster(Play(past), x, s, now);
    OvertakenNode(past, x, s, now);
    assert Extends(past, Next(past, Act(x, CallLeave, now)));
  }

  // ---------- A run in which it happens ----------

  /** `x` and `y` are in the states `mx` and `my`, and `claim` is in flight. */
  ghost predicate Scene(past: Past, x: Id, mx: Node, y: Id, my: Node, claim: Claim) {
    && Legal(past) && x in Play(past).nodes && y in Play(past).nodes
    && x in Play(past).authors && y in Play(past).authors
    && Play(past).nodes[x] == mx && Play(past).nodes[y] == my && claim in Play(past).net
  }

  lemma SceneActs(past: Past, x: Id, mx: Node, y: Id, my: Node, claim: Claim, op: Op, now: int)
    requires Scene(past, x, mx, y, my, claim) && x != y && (op.Deliver? ==> op.claim == claim)
    ensures Scene(Next(past, Act(y, op, now)), x, mx, y, Step(my, op, now), claim)
  {
    MoveActsAtOne(Play(past), Act(y, op, now), x);
    MoveActsAtOne(Play(past), Act(y, op, now), y);
  }

  lemma SceneSends(past: Past, x: Id, mx: Node, y: Id, my: Node, claim: Claim)
    requires Scene(past, x, mx, y, my, claim) && x in my.gossip
    ensures Scene(Next(past, Send(y, x)), x, mx, y, my, my.gossip[x])
  {
  }

  /** Both have started, and `x` has sent its announcement. */
  lemma SceneOpens(x: Id, y: Id, addr: Address, config: Config, tags: Bytes, now: int) returns (past: Past)
    requires x != NO_ID && y != NO_ID && x != y && |tags| <= TAG_MAX_SIZE && config.ipAllowed(addr.ip)
    ensures var mx, my := Boot(x, addr, config, tags, now), Boot(y, addr, config, tags, now);
            Scene(past, x, mx, y, my, Alive(1, x, addr, tags))
  {
    assert Legal(Dawn) && Play(Dawn) == NOBODY;
    var p1 := Next(Dawn, Start(x, addr, config, tags, now));
    assert Legal(p1) && Play(p1) == Apply(NOBODY, p1.move);
    var p2 := Next(p1, Start(y, addr, config, tags, now));
    assert Legal(p2) && Play(p2) == Apply(Play(p1), p2.move);
    past := Next(p2, Send(x, x));
    assert Legal(past) && Play(past) == Apply(Play(p2), past.move);
  }

  function Hearer(y: Id, x: Id, addr: Address, config: Config, tags: Bytes, now: int): Node {
    AliveNode(Boot(y, addr, config, tags, now), Alive(1, x, addr, tags), now)
  }

  function Prober(y: Id, x: Id, addr: Address, config: Config, tags: Bytes, now: int): Node {
    BeginProbe(Hearer(y, x, addr, config, tags, now), x)
  }

  function Suspecter(y: Id, x: Id, addr: Address, config: Config, tags: Bytes, now: int): Node {
    FailProbe(Prober(y, x, addr, config, tags, now), Suspect(1, x, y), now)
  }

  lemma Hearing(y: Id, x: Id, addr: Address, config: Config, tags: Bytes, now: int)
    requires x != y && config.ipAllowed(addr.ip)
    ensures var m := Hearer(y, x, addr, config, tags, now);
            m.id == y && x in m.table && m.table[x].state == StateAlive && m.table[x].lives == 1 && x !in m.suspicions
  {
    var m := Boot(y, addr, config, tags, now);
    assert m.id == y && x !in m.table && !m.left && m.config == config && x !in m.suspicions;
  }

  lemma Failing(m: Node, x: Id, now: int)
    requires x in m.table && m.table[x].state == StateAlive && x !in m.suspicions && x != m.id && x != NO_ID
    ensures var s := Suspect(m.table[x].lives, x, m.id);
            var m' := FailProbe(BeginProbe(m, x), s, now);
            x in m'.gossip && m'.gossip[x] == s
  {
  }

  lemma Suspecting(y: Id, x: Id, addr: Address, config: Config, tags: Bytes, now: int)
    requires x != NO_ID && x != y && config.ipAllowed(addr.ip)
    ensures var my := Suspecter(y, x, addr, config, tags, now); x in my.gossip && my.gossip[x] == Suspect(1, x, y)
  {
    Hearing(y, x, addr, config, tags, now);
    Failing(Hearer(y, x, addr, config, tags, now), x, now);
  }

  lemma SceneHears(past: Past, x: Id, mx: Node, y: Id, my: Node, a: AliveClaim, now: int)
    requires Scene(past, x, mx, y, my, a) && x != y
    ensures Scene(Next(past, Act(y, Deliver(a), now)), x, mx, y, AliveNode(my, a, now), a)
  {
    SceneActs(past, x, mx, y, my, a, Deliver(a), now);
  }

  lemma SceneProbes(past: Past, x: Id, mx: Node, y: Id, my: Node, claim: Claim, now: int)
    requires Scene(past, x, mx, y, my, claim) && x != y
    ensures Scene(Next(past, Act(y, Probe(x), now)), x, mx, y, BeginProbe(my, x), claim)
  {
    SceneActs(past, x, mx, y, my, claim, Probe(x), now);
  }

  lemma SceneFails(past: Past, x: Id, mx: Node, y: Id, my: Node, claim: Claim, s: SuspectClaim, now: int)
    requires Scene(past, x, mx, y, my, claim) && x != y
    ensures Scene(Next(past, Act(y, ProbeFailed(s), now)), x, mx, y, FailProbe(my, s, now), claim)
  {
    SceneActs(past, x, mx, y, my, claim, ProbeFailed(s), now);
  }

  /** There are runs in which a leave is outrun: one member hears of another, probes it in vain and sends
      its suspicion, and the other is leaving when that arrives. */
  lemma LeaveIsOutrun(x: Id, y: Id, addr: Address, config: Config, tags: Bytes, now: int) returns (past: Past)
    requires x != NO_ID && y != NO_ID && x != y && |tags| <= TAG_MAX_SIZE && config.ipAllowed(addr.ip)
    ensures Legal(past) && x in Play(past).nodes && Outrun(Play(past).nodes[x])
  {
    var mx, my := Boot(x, addr, config, tags, now), Boot(y, addr, config, tags, now);
    var a, s := Alive(1, x, addr, tags), Suspect(1, x, y);
    past := SceneOpens(x, y, addr, config, tags, now);
    SceneHears(past, x, mx, y, my, a, now);
    past := Next(past, Act(y, Deliver(a), now));
    SceneProbes(past, x, mx, y, Hearer(y, x, addr, config, tags, now), a, now);
    past := Next(past, Act(y, Probe(x), now));
    SceneFails(past, x, mx, y, Prober(y, x, addr, config, tags, now), a, s, now);
    past := Next(past, Act(y, ProbeFailed(s), now));
    Suspecting(y, x, addr, config, tags, now);
    SceneSends(past, x, mx, y, Suspecter(y, x, addr, config, tags, now), a);
    past := Next(past, Send(y, x));
    LeaveCanBeOutrun(past, x, s, now);
    past := Overtaken(past, x, s, now);
  }

  // ---------- It is lost for good ----------

  /** What is left of the hope that anybody will hear of the departure of `m`: none. */
  ghost predicate Unheard(m: Node, au: Author) {
    && m.left && au.sealed.None?
    && (m.id in m.table ==>
          && m.table[m.id].state != StateLeft
          && forall d :: d in m.kills && d.id == m.id && d.left ==> d.lives < m.table[m.id].lives)
  }

  predicate SaysLeft(c: Claim, x: Id) {
    c.id == x && ((c.Dead? && c.left) || (c.Remote? && c.state == StateLeft))
  }

  lemma HandleUnheard(m: Node, au: Author, c: Claim, now: int)
    requires Unheard(m, au) && !SaysLeft(c, m.id) && Indexed(m, m.id)
    ensures Unheard(Handle(m, c, now), au)
  {
    var m' := Handle(m, c, now);
    HandleOnlyAt(m, c, now);
    if c.id != m.id {
      assert SameCell(m, m', m.id);
    } else if m.id in m.table {
      HandleForward(m, c, now, m.id);
    }
  }

  lemma KillUnheard(m: Node, au: Author, d: DeadClaim, now: int)
    requires Unheard(m, au) && Indexed(m, m.id)
    ensures Unheard(RunKill(m, d, now), au)
  {
    if d in m.kills {
      var m0 := m.(kills := m.kills - multiset{d});
      if SaysLeft(d, m.id) {
        assert RunKill(m, d, now) == m0;
      } else {
        HandleUnheard(m0, au, d, now);
      }
    }
  }

  lemma StepUnheard(m: Node, au: Author, op: Op, now: int)
    requires Unheard(m, au) && Indexed(m, m.id) && (op.Deliver? ==> !SaysLeft(op.claim, m.id))
    ensures Unheard(Step(m, op, now), au)
  {
    match op
    case Deliver(c) => HandleUnheard(m, au, c, now);
    case Kill(d) => KillUnheard(m, au, d, now);
    case ProbeFailed(s) => HandleUnheard(m, au, s, now);
    case CallUpdateTags(tags) =>
      if m.id in m.table {
        HandleUnheard(m.(lives := m.lives + 1), au, Alive(m.lives + 1, m.id, m.table[m.id].addr, tags), now);
      }
    case _ =>
  }

  lemma NobodySaysLeft(cl: Cluster, x: Id, c: Claim)
    requires Inv(cl) && x in cl.nodes && cl.authors[x].sealed.None? && Vouched(cl.authors, c)
    ensures !SaysLeft(c, x)
  {
  }

  lemma ObservedUnheard(m: Node, au: Author)
    requires Unheard(m, au)
    ensures Unheard(m, Observe(au, m))
  {
  }

  lemma MoveRecordsOne(cl: Cluster, mv: Move, x: Id)
    requires Enabled(cl, mv) && x in cl.nodes && x in cl.authors
    ensures x in Apply(cl, mv).authors
    ensures Apply(cl, mv).authors[x]
         == if mv.Act? && mv.at == x then Observe(cl.authors[x], Step(cl.nodes[x], mv.op, mv.now)) else cl.authors[x]
  {
  }

  lemma MoveUnheard(cl: Cluster, mv: Move, x: Id)
    requires Inv(cl) && Enabled(cl, mv) && x in cl.nodes && Unheard(cl.nodes[x], cl.authors[x])
    ensures x in Apply(cl, mv).nodes && x in Apply(cl, mv).authors
    ensures Unheard(Apply(cl, mv).nodes[x], Apply(cl, mv).authors[x])
  {
    CellIsSound(cl, x, x);
    MoveActsAtOne(cl, mv, x);
    MoveRecordsOne(cl, mv, x);
    if mv.Act? && mv.at == x {
      if mv.op.Deliver? {
        NobodySaysLeft(cl, x, mv.op.claim);
      }
      StepUnheard(cl.nodes[x], cl.authors[x], mv.op, mv.now);
      ObservedUnheard(Step(cl.nodes[x], mv.op, mv.now), cl.authors[x]);
    }
  }

  lemma {:induction false} StaysUnheard(past: Past, later: Past, x: Id)
    requires Legal(past) && Legal(later) && Extends(past, later) && x in Play(past).nodes
    requires x in Play(past).authors && Unheard(Play(past).nodes[x], Play(past).authors[x])
    ensures x in Play(later).nodes && x in Play(later).authors
    ensures Unheard(Play(later).nodes[x], Play(later).authors[x])
    decreases later
  {
    if later != past {
      StaysUnheard(past, later.before, x);
      PlayKeeps(later.before);
      MoveUnheard(Play(later.before), later.move, x);
    }
  }

  /** A departure that was outrun is lost for good: in every continuation nobody holds the member as
      left, the member itself included, and no message says so. */
  lemma {:induction false} OutrunIsLost(past: Past, later: Past, x: Id)
    requires Legal(past) && Legal(later) && Extends(past, later)
    requires x in Play(past).nodes && Outrun(Play(past).nodes[x])
    ensures forall c :: c in Play(later).net ==> !SaysLeft(c, x)
    ensures forall n :: n in Play(later).nodes && x in Play(later).nodes[n].table ==>
              Play(later).nodes[n].table[x].state != StateLeft
  {
    PlayKeeps(past);
    assert MemberInv(Play(past).authors, x, Play(past).nodes[x]);
    StaysUnheard(past, later, x);
    PlayKeeps(later);
    var cl := Play(later);
    forall c | c in cl.net ensures !SaysLeft(c, x) {
      NobodySaysLeft(cl, x, c);
    }
    forall n | n in cl.nodes && x in cl.nodes[n].table ensures cl.nodes[n].table[x].state != StateLeft {
      EntryBounded(cl, n, x);
    }
  }
}
