/** Push-pull anti-entropy: merging a snapshot is idempotent, and an exchange brings two members together. */
module PushPull {
  import opened Types
  import opened Confirmation
  import opened Node
  import opened NodeSafety

  ghost predicate Distinct(snap: seq<RemoteClaim>) {
    forall i, j :: 0 <= i < j < |snap| ==> snap[i].id != snap[j].id
  }

  // ---------- Merging twice is merging once ----------

  /** `r` tells `m` nothing it would act on. */
  predicate Stale(m: Node, r: RemoteClaim) {
    match r.state
    case StateAlive =>
      || (m.left && r.id == m.id)
      || !m.config.ipAllowed(r.addr.ip)
      || (r.id in m.table && r.lives <= m.table[r.id].lives)
    case StateLeft =>
      r.id !in m.table || r.lives < m.table[r.id].lives || m.table[r.id].DeadOrLeft()
    case _ =>
      || r.id !in m.table
      || r.lives < m.table[r.id].lives
      || (if r.id in m.suspicions then !Confirm(m.suspicions[r.id], m.id).1 else m.table[r.id].state != StateAlive)
  }

  lemma StaleIsIgnored(m: Node, r: RemoteClaim, now: int)
    requires Stale(m, r)
    ensures MergeOne(m, r, now) == m
  {
    if r.id in m.suspicions {
      assert m.suspicions[r.id := m.suspicions[r.id]] == m.suspicions;
    }
  }

  lemma SuspectedIsStale(m: Node, r: RemoteClaim, now: int)
    requires r.state == StateSuspect || r.state == StateDead
    ensures Stale(SuspectNode(m, Suspect(r.lives, r.id, m.id), now), r)
  {
  }

  lemma BuriedIsStale(m: Node, r: RemoteClaim, now: int)
    requires r.state == StateLeft
    ensures Stale(DeadNode(m, Dead(r.lives, r.id, true), now), r)
  {
  }

  lemma MergedIsStale(m: Node, r: RemoteClaim, now: int)
    ensures Stale(MergeOne(m, r, now), r)
  {
    match r.state
    case StateAlive =>
    case StateLeft => BuriedIsStale(m, r, now);
    case _ => SuspectedIsStale(m, r, now);
  }

  lemma StaleElsewhere(m: Node, r: RemoteClaim, other: RemoteClaim, now: int)
    requires Stale(m, r) && other.id != r.id
    ensures Stale(MergeOne(m, other, now), r)
  {
    HandleOnlyAt(m, other, now);
    assert SameCell(m, MergeOne(m, other, now), r.id);
  }

  lemma {:induction false} AllStale(m: Node, snap: seq<RemoteClaim>, now: int, i: nat)
    requires Distinct(snap) && i < |snap|
    ensures Stale(MergeState(m, snap, now), snap[i])
  {
    var k := |snap| - 1;
    var before := MergeState(m, snap[..k], now);
    if i == k {
      MergedIsStale(before, snap[k], now);
    } else {
      AllStale(m, snap[..k], now, i);
      StaleElsewhere(before, snap[i], snap[k], now);
    }
  }

  lemma {:induction false} StaleSnapshotIgnored(m: Node, snap: seq<RemoteClaim>, now: int)
    requires forall i :: 0 <= i < |snap| ==> Stale(m, snap[i])
    ensures MergeState(m, snap, now) == m
  {
    if snap != [] {
      StaleSnapshotIgnored(m, snap[..|snap| - 1], now);
      StaleIsIgnored(m, snap[|snap| - 1], now);
    }
  }

  /** A second merge of the same snapshot changes nothing at all: not the table, the lives counter,
      the suspicions, the queued broadcasts, the timers or the events. */
  lemma {:induction false} MergeIsIdempotent(m: Node, snap: seq<RemoteClaim>, now: int, later: int)
    requires Distinct(snap)
    ensures MergeState(MergeState(m, snap, now), snap, later) == MergeState(m, snap, now)
  {
    forall i | 0 <= i < |snap| ensures Stale(MergeState(m, snap, now), snap[i]) {
      AllStale(m, snap, now, i);
    }
    StaleSnapshotIgnored(MergeState(m, snap, now), snap, later);
  }

  // ---------- An exchange converges ----------

  /** `snap` is the table of `m` in some order. */
  ghost predicate IsSnapshot(snap: seq<RemoteClaim>, m: Node) {
    && Distinct(snap)
    && (forall i :: 0 <= i < |snap| ==> snap[i].id in m.table && snap[i] == SnapshotOf(m, snap[i].id))
    && (forall id :: id in m.table ==> exists i :: 0 <= i < |snap| && snap[i].id == id)
  }

  lemma {:induction false} MergeElsewhere(m: Node, snap: seq<RemoteClaim>, now: int, x: Id)
    requires forall i :: 0 <= i < |snap| ==> snap[i].id != x
    ensures var m' := MergeState(m, snap, now);
            SameCell(m, m', x) && m'.id == m.id && m'.config == m.config && m'.left == m.left
  {
    if snap != [] {
      var k := |snap| - 1;
      MergeElsewhere(m, snap[..k], now, x);
      HandleOnlyAt(MergeState(m, snap[..k], now), snap[k], now);
      assert SameCell(MergeState(m, snap[..k], now), MergeState(m, snap, now), x);
    }
  }

  /** The same row, or no row, for `x`. */
  predicate SameRow(m: Node, m': Node, x: Id) {
    (x in m.table <==> x in m'.table) && (x in m.table ==> m.table[x] == m'.table[x])
  }

  /** The two members are the same as far as a claim about `x` is concerned. */
  ghost predicate Alike(m: Node, m': Node, x: Id) {
    SameCell(m, m', x) && m'.id == m.id && m'.config == m.config && m'.left == m.left && x != m.id
  }

  lemma AliveIsLocal(m: Node, m': Node, a: AliveClaim, now: int)
    requires Alike(m, m', a.id)
    ensures SameRow(AliveNode(m, a, now), AliveNode(m', a, now), a.id)
  {
  }

  lemma SuspectIsLocal(m: Node, m': Node, s: SuspectClaim, now: int)
    requires Alike(m, m', s.id)
    ensures SameRow(SuspectNode(m, s, now), SuspectNode(m', s, now), s.id)
  {
  }

  lemma DeadIsLocal(m: Node, m': Node, d: DeadClaim, now: int)
    requires Alike(m, m', d.id)
    ensures SameRow(DeadNode(m, d, now), DeadNode(m', d, now), d.id)
  {
  }

  lemma MergeIsLocal(m: Node, m': Node, r: RemoteClaim, now: int)
    requires Alike(m, m', r.id)
    ensures SameRow(MergeOne(m, r, now), MergeOne(m', r, now), r.id)
  {
    match r.state
    case StateAlive => AliveIsLocal(m, m', Alive(r.lives, r.id, r.addr, r.tags), now);
    case StateLeft => DeadIsLocal(m, m', Dead(r.lives, r.id, true), now);
    case _ => SuspectIsLocal(m, m', Suspect(r.lives, r.id, m.id), now);
  }

  /** What a snapshot does to a row about a third member is what its one element about it does. */
  lemma {:induction false} RowAfterMerge(m: Node, snap: seq<RemoteClaim>, now: int, i: nat)
    requires Distinct(snap) && i < |snap| && snap[i].id != m.id
    ensures SameRow(MergeState(m, snap, now), MergeOne(m, snap[i], now), snap[i].id)
  {
    var k := |snap| - 1;
    var before := MergeState(m, snap[..k], now);
    if i == k {
      MergeElsewhere(m, snap[..k], now, snap[i].id);
      MergeIsLocal(before, m, snap[k], now);
    } else {
      RowAfterMerge(m, snap[..k], now, i);
      HandleOnlyAt(before, snap[k], now);
      assert SameCell(before, MergeState(m, snap, now), snap[i].id);
    }
  }

  /** The row for `x` after a member holding `m` merges the snapshot of `from`. */
  lemma {:induction false} RowAfterExchange(m: Node, from: Node, snap: seq<RemoteClaim>, now: int, x: Id)
    requires IsSnapshot(snap, from) && x != m.id
    ensures x in from.table ==> SameRow(MergeState(m, snap, now), MergeOne(m, SnapshotOf(from, x), now), x)
    ensures x !in from.table ==> SameRow(MergeState(m, snap, now), m, x)
  {
    if x in from.table {
      var i :| 0 <= i < |snap| && snap[i].id == x;
      RowAfterMerge(m, snap, now, i);
    } else {
      MergeElsewhere(m, snap, now, x);
    }
  }

  /** The two rows that an exchange leaves for one member. */
  predicate Together(e: Entry, e': Entry) {
    && e.lives == e'.lives
    && (e.state == e'.state || (e.state == StateDead && e'.state == StateSuspect)
        || (e.state == StateSuspect && e'.state == StateDead))
  }

  /** `x` was known alive on one side, and its address is acceptable on the other. */
  predicate AliveFor(m: Node, other: Node, x: Id) {
    x in m.table && m.table[x].state == StateAlive && other.config.ipAllowed(m.table[x].addr.ip)
  }

  lemma RowsMeet(a: Node, b: Node, now: int, x: Id)
    requires x != a.id && x != b.id && Indexed(a, x) && Indexed(b, x) && AliveFor(a, b, x)
    requires x in b.table && (b.table[x].state == StateAlive ==> AliveFor(b, a, x))
    ensures var a', b' := MergeOne(a, SnapshotOf(b, x), now), MergeOne(b, SnapshotOf(a, x), now);
            && x in a'.table && x in b'.table && Together(a'.table[x], b'.table[x])
            && a'.table[x].lives == Max(a.table[x].lives, b.table[x].lives)
  {
  }

  function LivesOf(m: Node, x: Id): nat {
    if x in m.table then m.table[x].lives else 0
  }

  /** Both sides merge the other's snapshot taken before either merged. A third member that one of them
      held alive is then held by both, at the larger of the two lives numbers, and in the same state,
      except that one side's dead may still be the other's suspect. */
  lemma {:induction false} ExchangeConverges(
      a: Node, b: Node, snapA: seq<RemoteClaim>, snapB: seq<RemoteClaim>, now: int, x: Id)
    requires IsSnapshot(snapA, a) && IsSnapshot(snapB, b)
    requires x != a.id && x != b.id && Indexed(a, x) && Indexed(b, x) && AliveFor(a, b, x)
    requires x in b.table && b.table[x].state == StateAlive ==> AliveFor(b, a, x)
    ensures var a', b' := MergeState(a, snapB, now), MergeState(b, snapA, now);
            && x in a'.table && x in b'.table
            && Together(a'.table[x], b'.table[x]) && Together(b'.table[x], a'.table[x])
            && a'.table[x].lives == Max(LivesOf(a, x), LivesOf(b, x))
  {
    RowAfterExchange(a, b, snapB, now, x);
    RowAfterExchange(b, a, snapA, now, x);
    if x in b.table {
      RowsMeet(a, b, now, x);
    }
  }
}
