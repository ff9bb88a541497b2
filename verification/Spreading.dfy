/** What is said gets around: what a claim in flight does wherever it arrives, and that departures, deaths,
    suspicions and new tags reach whoever is told. */
module Spreading {
  import opened Types
  import opened Node
  import opened NodeSafety
  import opened NodeRuns
  import opened Cluster
  import opened Provenance
  import opened Guarantees
  import opened Effects
  import opened Leaving

  // ---------- Arrival ----------

  /** Whatever arrives about another member, at any time in any run, changes its row by the one rule. */
  lemma {:induction false} ClaimArrives(past: Past, n: Id, c: Claim, now: int)
    requires Legal(past) && n in Play(past).nodes && c in Play(past).net && n != c.id
    ensures var m := Play(past).nodes[n];
            Handle(m, c, now).table == RowOfOther(m, Reading(c, n), now)
  {
    PlayKeeps(past);
    CellIsSound(Play(past), n, c.id);
    RowFollowsRank(Play(past).nodes[n], c, now);
  }

  /** After a death has arrived nobody told holds its subject live at that lives number or a lower one. */
  lemma {:induction false} DeathArrives(past: Past, n: Id, d: DeadClaim, now: int)
    requires Legal(past) && n in Play(past).nodes && d in Play(past).net && n != d.id
    ensures var t, t' := Play(past).nodes[n].table, Handle(Play(past).nodes[n], d, now).table;
            && (d.id in t' <==> d.id in t)
            && (d.id in t' ==> t'[d.id].DeadOrLeft() || t'[d.id].lives > d.lives)
            && (d.id in t && !t[d.id].DeadOrLeft() && t[d.id].lives <= d.lives ==>
                  var state := if d.left then StateLeft else StateDead;
                  t' == t[d.id := t[d.id].(lives := d.lives, state := state, changed := now)])
  {
    ClaimArrives(past, n, d, now);
  }

  /** After a suspicion has arrived nobody told holds its subject alive at that lives number or a lower one. */
  lemma {:induction false} SuspicionArrives(past: Past, n: Id, s: SuspectClaim, now: int)
    requires Legal(past) && n in Play(past).nodes && s in Play(past).net && n != s.id
    ensures var t, t' := Play(past).nodes[n].table, Handle(Play(past).nodes[n], s, now).table;
            && (s.id in t' <==> s.id in t)
            && (s.id in t' ==> t'[s.id].state != StateAlive || t'[s.id].lives > s.lives)
            && (s.id in t && t[s.id].state == StateAlive && t[s.id].lives <= s.lives ==>
                  t' == t[s.id := t[s.id].(lives := s.lives, state := StateSuspect, changed := now)])
  {
    ClaimArrives(past, n, s, now);
  }

  // ---------- A member knows its own number ----------

  /** Until it leaves, the own row carries the counter's value. */
  predicate OwnCurrent(m: Node) {
    !m.left && m.id in m.table ==> m.table[m.id].state == StateAlive && m.table[m.id].lives == m.lives
  }

  lemma HandleCurrent(authors: map<Id, Author>, m: Node, c: Claim, now: int)
    requires OwnCurrent(m) && Sound(authors, m) && Indexed(m, m.id) && Vouched(authors, c)
    ensures OwnCurrent(Handle(m, c, now))
  {
    HandleOnlyAt(m, c, now);
    if c.id != m.id {
      assert SameCell(m, Handle(m, c, now), m.id);
      OthersLeaveCounter(m, c, now);
    } else {
      ReadingIsHandled(m, c, now);
      ReadingIsVouched(authors, c, m.id);
      match Reading(c, m.id)
      case Alive(lives, id, addr, tags) => EchoIgnored(authors, m, Alive(lives, id, addr, tags), now);
      case Suspect(lives, id, from) =>
      case Dead(lives, id, left) =>
    }
  }

  lemma ReadingIsVouched(authors: map<Id, Author>, c: Claim, self: Id)
    requires Vouched(authors, c)
    ensures Vouched(authors, Reading(c, self))
  {
  }

  lemma OthersLeaveCounter(m: Node, c: Claim, now: int)
    requires c.id != m.id
    ensures Handle(m, c, now).lives == m.lives
  {
  }

  lemma KillCurrent(authors: map<Id, Author>, m: Node, d: DeadClaim, now: int)
    requires OwnCurrent(m) && Sound(authors, m) && Indexed(m, m.id)
    ensures OwnCurrent(RunKill(m, d, now))
  {
    if d in m.kills && !m.left {
      var m0 := m.(kills := m.kills - multiset{d});
      assert KillVouched(authors, m, d);
      DeadOnlyAt(m0, d, now);
      if d.id != m.id {
        assert SameCell(m0, RunKill(m, d, now), m.id);
        OthersLeaveCounter(m0, d, now);
      }
    }
  }

  lemma UpdateTagsCurrent(m: Node, tags: Bytes, now: int)
    requires OwnCurrent(m) && Admitted(m, m.id)
    ensures OwnCurrent(UpdateTags(m, tags, now))
  {
  }

  lemma StepCurrent(authors: map<Id, Author>, m: Node, op: Op, now: int)
    requires OwnCurrent(m) && Sound(authors, m) && Indexed(m, m.id) && Admitted(m, m.id)
    requires op.Deliver? ==> Vouched(authors, op.claim)
    ensures OwnCurrent(Step(m, op, now))
  {
    match op
    case Deliver(c) => HandleCurrent(authors, m, c, now);
    case Kill(d) => KillCurrent(authors, m, d, now);
    case ProbeFailed(s) =>
      if s in m.probes {
        HandleCurrent(authors, m, s, now);
      }
    case CallUpdateTags(tags) => UpdateTagsCurrent(m, tags, now);
    case _ =>
  }

  lemma SoundMember(cl: Cluster, x: Id)
    requires Inv(cl) && x in cl.nodes
    ensures cl.nodes[x].id == x && Sound(cl.authors, cl.nodes[x]) && Indexed(cl.nodes[x], x)
  {
    assert MemberInv(cl.authors, x, cl.nodes[x]);
    assert CellInv(cl.nodes[x], x);
  }

  /** In every run, a member that has not left holds itself alive at exactly its counter's value. */
  lemma {:induction false} OwnIsCurrent(past: Past, x: Id)
    requires Legal(past) && x in Play(past).nodes
    ensures OwnCurrent(Play(past).nodes[x])
  {
    var cl, mv := Play(past.before), past.move;
    if x in cl.nodes {
      OwnIsCurrent(past.before, x);
      MoveActsAtOne(cl, mv, x);
      if mv.Act? && mv.at == x {
        PlayKeeps(past.before);
        SoundMember(cl, x);
        MembersList(past.before, x);
        assert Admitted(cl.nodes[x], x);
        StepCurrent(cl.authors, cl.nodes[x], mv.op, mv.now);
      }
    }
  }

  // ---------- From one member to another ----------

  lemma {:induction false} SendsNext(past: Past, at: Id, name: Id)
    requires Legal(past) && at in Play(past).nodes && name in Play(past).nodes[at].gossip
    ensures var later := Next(past, Send(at, name));
            && Legal(later) && Play(later).nodes == Play(past).nodes && Play(later).authors == Play(past).authors
            && Play(past).nodes[at].gossip[name] in Play(later).net
  {
  }

  /** `at` sends what it has queued under `name`, and `n` receives it. */
  function Telling(past: Past, at: Id, name: Id, n: Id, c: Claim, now: int): Past {
    Next(Next(past, Send(at, name)), Act(n, Deliver(c), now))
  }

  lemma {:induction false} DeliversNext(past: Past, n: Id, c: Claim, now: int)
    requires Legal(past) && n in Play(past).nodes && n in Play(past).authors && c in Play(past).net
    ensures var later := Next(past, Act(n, Deliver(c), now));
            Legal(later) && n in Play(later).nodes && Play(later).nodes[n] == Handle(Play(past).nodes[n], c, now)
  {
    ActsNext(past, n, Deliver(c), now);
  }

  lemma {:induction false} Told(past: Past, at: Id, name: Id, n: Id, c: Claim, now: int)
    requires Legal(past) && at in Play(past).nodes && n in Play(past).nodes && n in Play(past).authors
    requires name in Play(past).nodes[at].gossip && Play(past).nodes[at].gossip[name] == c
    ensures var later := Telling(past, at, name, n, c, now);
            Legal(later) && n in Play(later).nodes && Play(later).nodes[n] == Handle(Play(past).nodes[n], c, now)
  {
    SendsNext(past, at, name);
    DeliversNext(Next(past, Send(at, name)), n, c, now);
  }

  /** `at` has taken a step, to `m`, that nobody else has noticed. */
  ghost predicate Stepped(past: Past, later: Past, at: Id, m: Node) {
    && Legal(past) && Legal(later) && at in Play(later).nodes && Play(later).nodes[at] == m
    && Play(later).nodes.Keys == Play(past).nodes.Keys && Play(later).authors.Keys == Play(past).authors.Keys
    && forall n :: n in Play(past).nodes && n != at ==> Play(later).nodes[n] == Play(past).nodes[n]
  }

  lemma {:induction false} StepsNext(past: Past, at: Id, op: Op, now: int)
    requires Legal(past) && at in Play(past).nodes && at in Play(past).authors && !op.Deliver?
    ensures Stepped(past, Next(past, Act(at, op, now)), at, Step(Play(past).nodes[at], op, now))
  {
  }

  lemma {:induction false} StepsTwice(past: Past, mid: Past, later: Past, at: Id, m1: Node, m2: Node)
    requires Stepped(past, mid, at, m1) && Stepped(mid, later, at, m2)
    ensures Stepped(past, later, at, m2)
  {
  }

  lemma {:induction false} ToldAfter(past: Past, later: Past, at: Id, m: Node, name: Id, n: Id, c: Claim, now: int)
    requires Stepped(past, later, at, m) && n in Play(past).nodes && n in Play(past).authors && n != at
    requires name in m.gossip && m.gossip[name] == c
    ensures var end := Telling(later, at, name, n, c, now);
            Legal(end) && n in Play(end).nodes && Play(end).nodes[n] == Handle(Play(past).nodes[n], c, now)
  {
    Told(later, at, name, n, c, now);
  }

  // ---------- Departures ----------

  /** The two moves of an undisturbed leave. */
  function Left(past: Past, x: Id, d: DeadClaim, now: int): Past {
    Next(Next(past, Act(x, CallLeave, now)), Act(x, Kill(d), now))
  }

  lemma {:induction false} LeavesForGood(past: Past, x: Id, d: DeadClaim, now: int)
    requires Legal(past) && x in Play(past).nodes && x in Play(past).authors
    ensures Stepped(past, Left(past, x, d, now), x, RunKill(BeginLeave(Play(past).nodes[x]), d, now))
  {
    var mid := Next(past, Act(x, CallLeave, now));
    StepsNext(past, x, CallLeave, now);
    StepsNext(mid, x, Kill(d), now);
    StepsTwice(past, mid, Left(past, x, d, now), x, Play(mid).nodes[x], Play(Left(past, x, d, now)).nodes[x]);
  }

  lemma LeaveHeard(cl: Cluster, x: Id, n: Id, now: int)
    requires Inv(cl) && x in cl.nodes && !cl.nodes[x].left && x in cl.nodes[x].table && OwnCurrent(cl.nodes[x])
    requires n in cl.nodes && n != x && x in cl.nodes[n].table && !cl.nodes[n].table[x].DeadOrLeft()
    ensures x in cl.authors && n in cl.authors
    ensures var d := Dead(cl.nodes[x].lives, x, true);
            var m' := RunKill(BeginLeave(cl.nodes[x]), d, now);
            var t, t' := cl.nodes[n].table, Handle(cl.nodes[n], d, now).table;
            && x in m'.gossip && m'.gossip[x] == d
            && x in t' && t'[x] == t[x].(lives := d.lives, state := StateLeft, changed := now)
  {
    SoundMember(cl, x);
    SoundMember(cl, n);
    UndisturbedLeave(cl.nodes[x], now);
    EntryBounded(cl, n, x);
    DeadRow(cl.nodes[n], Dead(cl.nodes[x].lives, x, true), now);
  }

  /** A member that leaves undisturbed and sends its farewell is held as left by whoever hears it while
      holding it alive or suspect, whatever was claimed about it before. */
  lemma {:induction false} LeaveIsHeard(past: Past, x: Id, n: Id, now: int)
    requires Legal(past) && x in Play(past).nodes && !Play(past).nodes[x].left && x in Play(past).nodes[x].table
    requires n in Play(past).nodes && n != x && x in Play(past).nodes[n].table
    requires !Play(past).nodes[n].table[x].DeadOrLeft()
    ensures var d := Dead(Play(past).nodes[x].lives, x, true);
            var end := Telling(Left(past, x, d, now), x, x, n, d, now);
            && Legal(end) && n in Play(end).nodes && x in Play(end).nodes[n].table
            && Play(end).nodes[n].table[x]
            == Play(past).nodes[n].table[x].(lives := d.lives, state := StateLeft, changed := now)
  {
    var m := Play(past).nodes[x];
    var d := Dead(m.lives, x, true);
    PlayKeeps(past);
    OwnIsCurrent(past, x);
    LeaveHeard(Play(past), x, n, now);
    LeavesForGood(past, x, d, now);
    ToldAfter(past, Left(past, x, d, now), x, RunKill(BeginLeave(m), d, now), x, n, d, now);
  }

  // ---------- Suspicions and deaths ----------

  function Doubted(past: Past, y: Id, x: Id, s: SuspectClaim, now: int): Past {
    Next(Next(past, Act(y, Probe(x), now)), Act(y, ProbeFailed(s), now))
  }

  lemma {:induction false} Doubts(past: Past, y: Id, x: Id, s: SuspectClaim, now: int)
    requires Legal(past) && y in Play(past).nodes && y in Play(past).authors
    ensures Stepped(past, Doubted(past, y, x, s, now), y, FailProbe(BeginProbe(Play(past).nodes[y], x), s, now))
  {
    var mid := Next(past, Act(y, Probe(x), now));
    StepsNext(past, y, Probe(x), now);
    StepsNext(mid, y, ProbeFailed(s), now);
    var later := Doubted(past, y, x, s, now);
    StepsTwice(past, mid, later, y, Play(mid).nodes[y], Play(later).nodes[y]);
  }

  lemma SuspicionHeard(cl: Cluster, y: Id, x: Id, n: Id, now: int)
    requires Inv(cl) && y in cl.nodes && n in cl.nodes && y != x && n != x && n != y
    requires x in cl.nodes[y].table && cl.nodes[y].table[x].state == StateAlive
    requires x in cl.nodes[n].table && cl.nodes[n].table[x].state == StateAlive
    requires cl.nodes[n].table[x].lives <= cl.nodes[y].table[x].lives
    ensures y in cl.authors && n in cl.authors
    ensures var s := Suspect(cl.nodes[y].table[x].lives, x, y);
            var my' := FailProbe(BeginProbe(cl.nodes[y], x), s, now);
            var t, m' := cl.nodes[n].table, Handle(cl.nodes[n], s, now);
            && x in my'.gossip && my'.gossip[x] == s
            && x in m'.table && m'.table[x] == t[x].(lives := s.lives, state := StateSuspect, changed := now)
            && x in m'.suspicions && m'.suspicions[x].confirmers == {y} && Timer(x, s.lives) in m'.timers
  {
    var s := Suspect(cl.nodes[y].table[x].lives, x, y);
    CellIsSound(cl, y, x);
    CellIsSound(cl, n, x);
    EntryBounded(cl, y, x);
    Failing(cl.nodes[y], x, now);
    SuspectRow(cl.nodes[n], s, now);
    SuspectPassed(cl.nodes[n], s, now);
  }

  /** A member whose probe of a live member fails suspects it, and so does whoever hears of that while
      holding it alive at no higher lives number, with the prober as first confirmer and a timer armed. */
  lemma {:induction false} SuspicionIsHeard(past: Past, y: Id, x: Id, n: Id, now: int)
    requires Legal(past) && y in Play(past).nodes && n in Play(past).nodes && y != x && n != x && n != y
    requires x in Play(past).nodes[y].table && Play(past).nodes[y].table[x].state == StateAlive
    requires x in Play(past).nodes[n].table && Play(past).nodes[n].table[x].state == StateAlive
    requires Play(past).nodes[n].table[x].lives <= Play(past).nodes[y].table[x].lives
    ensures var s := Suspect(Play(past).nodes[y].table[x].lives, x, y);
            var end := Telling(Doubted(past, y, x, s, now), y, x, n, s, now);
            && Legal(end) && n in Play(end).nodes && x in Play(end).nodes[n].table
            && Play(end).nodes[n].table[x]
            == Play(past).nodes[n].table[x].(lives := s.lives, state := StateSuspect, changed := now)
            && x in Play(end).nodes[n].suspicions && Play(end).nodes[n].suspicions[x].confirmers == {y}
            && Timer(x, s.lives) in Play(end).nodes[n].timers
  {
    var my := Play(past).nodes[y];
    var s := Suspect(my.table[x].lives, x, y);
    PlayKeeps(past);
    SuspicionHeard(Play(past), y, x, n, now);
    Doubts(past, y, x, s, now);
    ToldAfter(past, Doubted(past, y, x, s, now), y, FailProbe(BeginProbe(my, x), s, now), x, n, s, now);
  }

  function Timed(past: Past, y: Id, t: Timer, d: DeadClaim, now: int): Past {
    Next(Next(past, Act(y, Fire(t), now)), Act(y, Kill(d), now))
  }

  lemma {:induction false} TimesOut(past: Past, y: Id, t: Timer, d: DeadClaim, now: int)
    requires Legal(past) && y in Play(past).nodes && y in Play(past).authors
    ensures Stepped(past, Timed(past, y, t, d, now), y, RunKill(FireTimer(Play(past).nodes[y], t), d, now))
  {
    var mid := Next(past, Act(y, Fire(t), now));
    StepsNext(past, y, Fire(t), now);
    StepsNext(mid, y, Kill(d), now);
    StepsTwice(past, mid, Timed(past, y, t, d, now), y, Play(mid).nodes[y], Play(Timed(past, y, t, d, now)).nodes[y]);
  }

  lemma VerdictIsQueued(m: Node, id: Id, now: int)
    requires CellInv(m, id) && CellInv(m, m.id) && IsSuspect(m, id) && id != NO_ID
    ensures var d := Dead(m.table[id].lives, id, false);
            var m' := RunKill(FireTimer(m, Timer(id, d.lives)), d, now);
            id in m'.gossip && m'.gossip[id] == d
  {
    TimeoutDecides(m, id);
  }

  lemma DeathFacts(cl: Cluster, y: Id, x: Id, n: Id)
    requires Inv(cl) && y in cl.nodes && n in cl.nodes && x in cl.nodes[y].table
    ensures y in cl.authors && n in cl.authors && x != NO_ID && cl.nodes[n].id == n
    ensures CellInv(cl.nodes[y], x) && CellInv(cl.nodes[y], cl.nodes[y].id)
  {
    CellIsSound(cl, y, y);
    CellIsSound(cl, y, x);
    EntryBounded(cl, y, x);
    SoundMember(cl, n);
  }

  lemma DeathHeard(my: Node, mn: Node, x: Id, now: int)
    requires CellInv(my, x) && CellInv(my, my.id) && IsSuspect(my, x) && x != NO_ID
    requires mn.id != x && x in mn.table && !mn.table[x].DeadOrLeft() && mn.table[x].lives <= my.table[x].lives
    ensures var d := Dead(my.table[x].lives, x, false);
            var my' := RunKill(FireTimer(my, Timer(x, d.lives)), d, now);
            var t' := Handle(mn, d, now).table;
            && x in my'.gossip && my'.gossip[x] == d
            && x in t' && t'[x] == mn.table[x].(lives := d.lives, state := StateDead, changed := now)
  {
    VerdictIsQueued(my, x, now);
    DeadRow(mn, Dead(my.table[x].lives, x, false), now);
  }

  /** A member whose suspicion times out sends the death, and whoever hears it while holding the suspect
      alive or suspect at no higher lives number holds it dead, whether or not it suspected it before. */
  lemma {:induction false} DeathIsHeard(past: Past, y: Id, x: Id, n: Id, now: int)
    requires Legal(past) && y in Play(past).nodes && n in Play(past).nodes && n != x && n != y
    requires IsSuspect(Play(past).nodes[y], x) && x in Play(past).nodes[n].table
    requires !Play(past).nodes[n].table[x].DeadOrLeft()
    requires Play(past).nodes[n].table[x].lives <= Play(past).nodes[y].table[x].lives
    ensures var d := Dead(Play(past).nodes[y].table[x].lives, x, false);
            var end := Telling(Timed(past, y, Timer(x, d.lives), d, now), y, x, n, d, now);
            && Legal(end) && n in Play(end).nodes && x in Play(end).nodes[n].table
            && Play(end).nodes[n].table[x]
            == Play(past).nodes[n].table[x].(lives := d.lives, state := StateDead, changed := now)
  {
    var my := Play(past).nodes[y];
    var t, d := Timer(x, my.table[x].lives), Dead(my.table[x].lives, x, false);
    PlayKeeps(past);
    DeathFacts(Play(past), y, x, n);
    DeathHeard(my, Play(past).nodes[n], x, now);
    TimesOut(past, y, t, d, now);
    ToldAfter(past, Timed(past, y, t, d, now), y, RunKill(FireTimer(my, t), d, now), x, n, d, now);
  }

  // ---------- New tags and whole tables ----------

  lemma Retagged(m: Node, tags: Bytes, now: int)
    requires OwnCurrent(m) && !m.left && m.id in m.table && Admitted(m, m.id) && m.id != NO_ID && |tags| <= TAG_MAX_SIZE
    ensures var m' := UpdateTags(m, tags, now);
            && m.id in m'.table && m'.table[m.id] == m.table[m.id].(lives := m.lives + 1, tags := tags)
            && m.id in m'.gossip && m'.gossip[m.id] == Alive(m.lives + 1, m.id, m.table[m.id].addr, tags)
            && m'.lives == m.lives + 1
  {
  }

  lemma {:induction false} Recorded(past: Past, x: Id)
    requires Legal(past) && x in Play(past).nodes
    ensures x in Play(past).authors && Play(past).nodes[x].id == x && x != NO_ID
    ensures x in Play(past).nodes[x].table ==> Play(past).nodes[x].table[x].addr == Play(past).nodes[x].addr
  {
    PlayKeeps(past);
    SoundMember(Play(past), x);
    if x in Play(past).nodes[x].table {
      EntryBounded(Play(past), x, x);
    }
  }

  lemma {:induction false} OwnAdmitted(past: Past, x: Id)
    requires Legal(past) && x in Play(past).nodes
    ensures Admitted(Play(past).nodes[x], x)
  {
    MembersList(past, x);
  }

  lemma {:induction false} TagsQueued(past: Past, x: Id, n: Id, tags: Bytes, now: int)
    requires Legal(past) && x in Play(past).nodes && !Play(past).nodes[x].left && x in Play(past).nodes[x].table
    requires n in Play(past).nodes && |tags| <= 512
    ensures x in Play(past).authors && n in Play(past).authors
    ensures var m := Play(past).nodes[x];
            var m' := UpdateTags(m, tags, now);
            x in m'.gossip && m'.gossip[x] == Alive(m.lives + 1, x, m.addr, tags)
  {
    Recorded(past, x);
    Recorded(past, n);
    OwnIsCurrent(past, x);
    OwnAdmitted(past, x);
    Retagged(Play(past).nodes[x], tags, now);
  }

  lemma {:induction false} TagsTaken(past: Past, x: Id, n: Id, a: AliveClaim, now: int)
    requires Legal(past) && x in Play(past).nodes && n in Play(past).nodes && n != x
    requires a.id == x && a.lives > Play(past).nodes[x].lives && a.addr == Play(past).nodes[x].addr
    requires Play(past).nodes[n].config.ipAllowed(a.addr.ip)
    ensures var t := Handle(Play(past).nodes[n], a, now).table;
            && x in t && t[x].state == StateAlive && t[x].lives == a.lives && t[x].tags == a.tags
            && t[x].addr == a.addr
  {
    AnnouncementPrevails(past, x, n, a, now);
  }

  /** New tags within 512 bytes take effect at the next lives number, and whoever is told and allows the
      address takes them over, whatever it held. */
  lemma {:induction false} TagsAreHeard(past: Past, x: Id, n: Id, tags: Bytes, now: int)
    requires Legal(past) && x in Play(past).nodes && !Play(past).nodes[x].left && x in Play(past).nodes[x].table
    requires n in Play(past).nodes && n != x && |tags| <= 512
    requires Play(past).nodes[n].config.ipAllowed(Play(past).nodes[x].addr.ip)
    ensures var a := Alive(Play(past).nodes[x].lives + 1, x, Play(past).nodes[x].addr, tags);
            var end := Telling(Next(past, Act(x, CallUpdateTags(tags), now)), x, x, n, a, now);
            && Legal(end) && n in Play(end).nodes && x in Play(end).nodes[n].table
            && var e := Play(end).nodes[n].table[x];
               e.state == StateAlive && e.lives == a.lives && e.tags == tags && e.addr == a.addr
  {
    var m := Play(past).nodes[x];
    var a := Alive(m.lives + 1, x, m.addr, tags);
    TagsQueued(past, x, n, tags, now);
    StepsNext(past, x, CallUpdateTags(tags), now);
    ToldAfter(past, Next(past, Act(x, CallUpdateTags(tags), now)), x, UpdateTags(m, tags, now), x, n, a, now);
    TagsTaken(past, x, n, a, now);
  }

  /** A table that is pushed puts each of its rows in flight, field by field. */
  lemma {:induction false} TableIsSent(past: Past, y: Id, x: Id)
    requires Legal(past) && y in Play(past).nodes && x in Play(past).nodes[y].table
    ensures var later, e := Next(past, Push(y)), Play(past).nodes[y].table[x];
            Legal(later) && Remote(e.lives, x, e.addr, e.tags, e.state) in Play(later).net
  {
  }
}
