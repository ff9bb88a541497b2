/** The member as the object it is in memory: node states shared by a list and a map and updated in
    place. Every method is proved against the value-level step of module `Node`. */
module Memberlist {
  import opened Types
  import opened Confirmation
  import N = Node
  import opened NodeSafety
  import PushPull
  import RoundRobin

  class NodeState {
    const id: Id
    const addr: Address
    var tags: Bytes
    var lives: nat
    var state: StateType
    var stateChange: int

    constructor (id: Id, addr: Address, tags: Bytes, lives: nat, now: int)
      ensures this.id == id && View() == Entry(addr, tags, lives, StateAlive, now)
    {
      this.id, this.addr := id, addr;
      this.tags, this.lives, state, stateChange := tags, lives, StateAlive, now;
    }

    function View(): Entry
      reads this
    {
      Entry(addr, tags, lives, state, stateChange)
    }
  }

  predicate Differ(nodes: seq<NodeState>, i: nat, j: nat)
    requires i < |nodes| && j < |nodes|
  {
    nodes[i].id != nodes[j].id
  }

  predicate Finds(index: map<Id, NodeState>, nodes: seq<NodeState>, id: Id) {
    id in index && index[id] in nodes && index[id].id == id
  }

  predicate Found(index: map<Id, NodeState>, node: NodeState) {
    node.id in index && index[node.id] == node
  }

  predicate Tells(table: map<Id, Entry>, node: NodeState)
    reads node
  {
    node.id in table && table[node.id] == node.View()
  }

  /** `index` finds exactly the listed nodes by their ids, which are distinct. */
  ghost predicate IndexesNodes(index: map<Id, NodeState>, nodes: seq<NodeState>) {
    && (forall i: nat, j: nat {:trigger Differ(nodes, i, j)} :: i < j < |nodes| ==> Differ(nodes, i, j))
    && (forall id {:trigger Finds(index, nodes, id)} :: id in index ==> Finds(index, nodes, id))
    && (forall x {:trigger Found(index, x)} :: x in nodes ==> Found(index, x))
  }

  lemma {:induction false} IndexSize(index: map<Id, NodeState>, nodes: seq<NodeState>)
    requires IndexesNodes(index, nodes)
    ensures |index| == |nodes|
  {
    if nodes == [] {
      forall id ensures id !in index {
        assert id in index ==> Finds(index, nodes, id);
      }
      assert index == map[];
    } else {
      var k := |nodes| - 1;
      var last, fewer, smaller := nodes[k], nodes[..k], index - {nodes[k].id};
      assert Found(index, last);
      forall i: nat, j: nat | i < j < k ensures Differ(fewer, i, j) {
        assert Differ(nodes, i, j);
      }
      forall id | id in smaller ensures Finds(smaller, fewer, id) {
        assert Finds(index, nodes, id);
        var i :| 0 <= i < |nodes| && nodes[i] == index[id];
        assert fewer[i] == index[id];
      }
      forall x | x in fewer ensures Found(smaller, x) {
        var i: nat :| i < k && nodes[i] == x;
        assert Found(index, x) && Differ(nodes, i, k);
      }
      IndexSize(smaller, fewer);
      assert index.Keys == smaller.Keys + {last.id};
    }
  }

  /** A new node appended and swapped with an earlier one is indexed with the others. */
  lemma InsertIndexed(index: map<Id, NodeState>, nodes: seq<NodeState>, node: NodeState, idx: nat)
    requires IndexesNodes(index, nodes) && node.id !in index && idx <= |nodes|
    ensures var appended := nodes + [node];
            var swapped := appended[idx := node][|nodes| := appended[idx]];
            && IndexesNodes(index[node.id := node], swapped)
            && (forall x :: x in swapped <==> x in nodes || x == node)
  {
    var n := |nodes|;
    var appended := nodes + [node];
    var swapped := appended[idx := node][n := appended[idx]];
    var index' := index[node.id := node];
    forall k | 0 <= k <= n ensures appended[k] == swapped[if k == idx then n else if k == n then idx else k] {}
    assert forall x :: x in swapped ==> x in appended;
    assert forall x :: x in appended ==> x in swapped;
    forall x | x in swapped ensures Found(index', x) {
      assert x in nodes ==> Found(index, x);
    }
    forall id | id in index' ensures Finds(index', swapped, id) {
      assert id != node.id ==> Finds(index, nodes, id);
    }
    forall k: nat | k < n ensures nodes[k].id != node.id {
      assert Found(index, nodes[k]);
    }
    forall i: nat, j: nat | i < j <= n ensures Differ(swapped, i, j) {
      assert i != idx && j < n && j != idx ==> Differ(nodes, i, j);
      assert idx < n && j == n && i < idx ==> Differ(nodes, i, idx);
      assert idx < n && j == n && idx < i ==> Differ(nodes, idx, i);
    }
  }

  // ---------- Permutations of the list ----------

  lemma TwiceCounts<T>(s: seq<T>, i: nat, j: nat)
    requires i < j < |s| && s[i] == s[j]
    ensures multiset(s)[s[i]] >= 2
  {
    assert s == s[..j] + s[j..];
    assert s[i] in s[..j] && s[j] in s[j..];
  }

  lemma {:induction false} DistinctCountOnce(nodes: seq<NodeState>, x: NodeState)
    requires forall i: nat, j: nat {:trigger Differ(nodes, i, j)} :: i < j < |nodes| ==> Differ(nodes, i, j)
    ensures multiset(nodes)[x] <= 1
  {
    if nodes != [] {
      var k := |nodes| - 1;
      var fewer := nodes[..k];
      assert nodes == fewer + [nodes[k]];
      forall i: nat, j: nat | i < j < k ensures Differ(fewer, i, j) {
        assert Differ(nodes, i, j);
      }
      DistinctCountOnce(fewer, x);
      forall i: nat | i < k ensures fewer[i] != nodes[k] {
        assert Differ(nodes, i, k);
      }
    }
  }

  /** The order of the list does not matter to its index. */
  lemma PermutedIndexed(index: map<Id, NodeState>, nodes: seq<NodeState>, perm: seq<NodeState>)
    requires IndexesNodes(index, nodes) && multiset(perm) == multiset(nodes)
    ensures IndexesNodes(index, perm)
    ensures forall x :: x in perm <==> x in nodes
  {
    forall x ensures x in perm <==> x in nodes {
      assert x in perm <==> x in multiset(perm);
      assert x in nodes <==> x in multiset(nodes);
    }
    forall id | id in index ensures Finds(index, perm, id) {
      assert Finds(index, nodes, id);
    }
    forall i: nat, j: nat | i < j < |perm| ensures Differ(perm, i, j) {
      if !Differ(perm, i, j) {
        assert Found(index, perm[i]) && Found(index, perm[j]);
        TwiceCounts(perm, i, j);
        DistinctCountOnce(nodes, perm[i]);
      }
    }
  }

  ghost function Ids(nodes: seq<NodeState>): set<Id> {
    set x | x in nodes :: x.id
  }

  /** Dropping the end of the list and the ids of what was dropped leaves an index of the rest. */
  lemma TrimmedIndexed(index: map<Id, NodeState>, nodes: seq<NodeState>, n: nat)
    requires IndexesNodes(index, nodes) && n <= |nodes|
    ensures IndexesNodes(index - Ids(nodes[n..]), nodes[..n])
    ensures Ids(nodes[..n]) !! Ids(nodes[n..]) && index.Keys == Ids(nodes[..n]) + Ids(nodes[n..])
  {
    var kept, gone := nodes[..n], nodes[n..];
    var index' := index - Ids(gone);
    forall x | x in kept ensures x.id !in Ids(gone) && Found(index', x) {
      var i: nat :| i < n && nodes[i] == x;
      forall j: nat | n <= j < |nodes| ensures nodes[j].id != x.id {
        assert Differ(nodes, i, j);
      }
      assert Found(index, x);
    }
    forall i: nat, j: nat | i < j < n ensures Differ(kept, i, j) {
      assert Differ(nodes, i, j);
    }
    forall id | id in index ensures id in Ids(kept) || id in Ids(gone)
                            ensures id in index' ==> Finds(index', kept, id) {
      assert Finds(index, nodes, id);
      var k: nat :| k < |nodes| && nodes[k] == index[id];
      assert k < n ==> nodes[k] in kept;
      assert k >= n ==> nodes[k] == gone[k - n] && nodes[k] in gone;
    }
    forall x | x in nodes ensures x.id in index {
      assert Found(index, x);
    }
  }

  /** A node is expired exactly if it has been dead or left for longer than the timeout. */
  lemma ExpiredIff(node: NodeState, now: int, timeout: int)
    ensures NodeExpired(node, now, timeout)
       <==> (node.state == StateDead || node.state == StateLeft) && now > node.stateChange + timeout
  {
  }

  predicate NodeExpired(node: NodeState, now: int, timeout: int)
    reads node
  {
    N.Expired(node.View(), now, timeout)
  }

  method Swap(nodes: array<NodeState>, i: nat, j: nat)
    requires i < nodes.Length && j < nodes.Length
    modifies nodes
    ensures nodes[i] == old(nodes[j]) && nodes[j] == old(nodes[i])
    ensures forall k :: 0 <= k < nodes.Length && k != i && k != j ==> nodes[k] == old(nodes[k])
    ensures multiset(nodes[..]) == old(multiset(nodes[..]))
  {
    nodes[i], nodes[j] := nodes[j], nodes[i];
  }

  /** Move the expired nodes behind the others, in place. A swapped-in node is looked at again. */
  method SwapExpiredToEnd(nodes: array<NodeState>, now: int, timeout: int) returns (expiredIdx: nat)
    modifies nodes
    ensures expiredIdx <= nodes.Length
    ensures forall k :: 0 <= k < expiredIdx ==> !NodeExpired(nodes[k], now, timeout)
    ensures forall k :: expiredIdx <= k < nodes.Length ==> NodeExpired(nodes[k], now, timeout)
    ensures multiset(nodes[..]) == old(multiset(nodes[..]))
  {
    expiredIdx := nodes.Length;
    var i := 0;
    while i < expiredIdx
      invariant 0 <= i <= expiredIdx <= nodes.Length
      invariant forall k :: 0 <= k < i ==> !NodeExpired(nodes[k], now, timeout)
      invariant forall k :: expiredIdx <= k < nodes.Length ==> NodeExpired(nodes[k], now, timeout)
      invariant multiset(nodes[..]) == old(multiset(nodes[..]))
      decreases expiredIdx - i
    {
      if NodeExpired(nodes[i], now, timeout) {
        expiredIdx := expiredIdx - 1;
        Swap(nodes, i, expiredIdx);
      } else {
        i := i + 1;
      }
    }
  }

  /** What an expiry partition keeps is what the table keeps. */
  lemma ReapedTable(perm: seq<NodeState>, n: nat, table: map<Id, Entry>, now: int, expiry: int)
    requires n <= |perm| && table.Keys == Ids(perm) && forall x :: x in perm ==> Tells(table, x)
    requires Ids(perm[..n]) !! Ids(perm[n..])
    requires forall k :: 0 <= k < n ==> !NodeExpired(perm[k], now, expiry)
    requires forall k :: n <= k < |perm| ==> NodeExpired(perm[k], now, expiry)
    ensures var kept := map id | id in table && !N.Expired(table[id], now, expiry) :: table[id];
            kept.Keys == Ids(perm[..n]) && forall x :: x in perm[..n] ==> Tells(kept, x)
  {
    forall id | id in table ensures !N.Expired(table[id], now, expiry) <==> id in Ids(perm[..n]) {
      var x :| x in perm && x.id == id;
      assert Tells(table, x);
      var k: nat :| k < |perm| && perm[k] == x;
      assert k < n ==> x in perm[..n];
      assert k >= n ==> x == perm[n..][k - n] && x in perm[n..];
    }
    forall x | x in perm[..n] ensures x in perm && x.id in Ids(perm[..n]) {}
  }

  /** A member other than `self` that may be probed. */
  predicate Eligible(node: NodeState, self: Id)
    reads node
  {
    node.id != self && !node.View().DeadOrLeft()
  }

  /** Suspects are probed like live members. */
  lemma EligibleIff(node: NodeState, self: Id)
    ensures Eligible(node, self) <==> node.id != self && (node.state == StateAlive || node.state == StateSuspect)
  {
  }

  ghost function EligibleList(nodes: seq<NodeState>, self: Id): (ok: seq<bool>)
    reads nodes
    ensures |ok| == |nodes| && forall k :: 0 <= k < |nodes| ==> ok[k] == Eligible(nodes[k], self)
  {
    seq(|nodes|, k requires 0 <= k < |nodes| reads nodes => Eligible(nodes[k], self))
  }

  lemma NobodyEligible(nodes: seq<NodeState>, self: Id)
    ensures var ok := EligibleList(nodes, self);
            (forall i :: 0 <= i < |ok| ==> !ok[i]) <==> forall x :: x in nodes ==> !Eligible(x, self)
  {
    var ok := EligibleList(nodes, self);
    assert forall i :: 0 <= i < |nodes| ==> nodes[i] in nodes && ok[i] == Eligible(nodes[i], self);
  }

  lemma NextEligible(nodes: seq<NodeState>, self: Id, probeIdx: int)
    requires probeIdx >= -1
    ensures var i := RoundRobin.Next(EligibleList(nodes, self), probeIdx);
            && (i < |nodes| ==> Eligible(nodes[i], self))
            && (i >= |nodes| <==> forall x :: x in nodes ==> !Eligible(x, self))
  {
    NobodyEligible(nodes, self);
    RoundRobin.FailsIffNobody(EligibleList(nodes, self), probeIdx);
  }

  // ---------- The member ----------

  datatype Outcome = Accepted | TooLong | Crashed

  class Memberlist {
    const id: Id
    const addr: Address
    const config: N.Config
    var lives: nat
    var left: bool
    var nodes: seq<NodeState>
    var nodeMap: map<Id, NodeState>
    var numNodes: nat
    var suspicions: map<Id, Confirmations>
    var probeIdx: int
    /** The broadcast queue by name. */
    var gossip: map<Id, Claim>
    /** What has been sent to the event channel, and what other goroutines still have to do. */
    ghost var events: Log
    ghost var timers: multiset<Timer>
    ghost var kills: multiset<DeadClaim>
    ghost var probes: set<SuspectClaim>

    /** The table that the node states spell out. */
    ghost var table: map<Id, Entry>

    ghost predicate Valid()
      reads this`nodeMap, this`nodes, this`numNodes, this`table, nodes
    {
      && IndexesNodes(nodeMap, nodes) && numNodes == |nodes|
      && table.Keys == nodeMap.Keys
      && (forall x {:trigger Tells(table, x)} :: x in nodes ==> Tells(table, x))
    }

    ghost function View(): N.Node
      reads this
    {
      N.Node(id, addr, config, lives, left, table, suspicions, gossip, events, timers, kills, probes)
    }

    constructor (id: Id, addr: Address, config: N.Config)
      ensures Valid() && View() == N.Blank(id, addr, config) && nodes == [] && probeIdx == -1
    {
      this.id, this.addr, this.config := id, addr, config;
      lives, left, nodes, nodeMap, numNodes := 0, false, [], map[], 0;
      suspicions, gossip, probeIdx := map[], map[], -1;
      events, timers, kills, probes, table := Quiet, multiset{}, multiset{}, {}, map[];
    }

    /** The entry for a known member. */
    function Lookup(x: Id): (e: Entry)
      requires Valid() && x in nodeMap
      reads this`nodeMap, this`nodes, this`numNodes, this`table, nodes
      ensures e == table[x]
    {
      assert Finds(nodeMap, nodes, x) && Tells(table, nodeMap[x]);
      nodeMap[x].View()
    }

    /** Overwrite the fields of one node state in place. */
    method Store(x: Id, e: Entry)
      requires Valid() && x in nodeMap && e.addr == Lookup(x).addr
      modifies this`table, nodes
      ensures Valid() && table == old(table)[x := e]
    {
      var node := nodeMap[x];
      assert Finds(nodeMap, nodes, x);
      node.tags, node.lives, node.state, node.stateChange := e.tags, e.lives, e.state, e.changed;
      table := table[x := e];
      forall y | y in nodes ensures Tells(table, y) {
        assert Found(nodeMap, y) && old(Tells(table, y));
      }
    }

    /** Append a new node state and swap it with the one at a random earlier position. */
    method Insert(a: AliveClaim, now: int, rnd: nat)
      requires Valid() && a.id !in nodeMap
      modifies this`nodes, this`nodeMap, this`numNodes, this`table
      ensures Valid() && table == old(table)[a.id := Entry(a.addr, a.tags, a.lives, StateAlive, now)]
      ensures forall x :: x in nodes ==> x in old(nodes) || fresh(x)
    {
      var node := new NodeState(a.id, a.addr, a.tags, a.lives, now);
      var n := |nodes|;
      var idx := if n == 0 then 0 else rnd % n;
      InsertIndexed(nodeMap, nodes, node, idx);
      nodeMap := nodeMap[a.id := node];
      nodes := nodes + [node];
      nodes := nodes[idx := nodes[n]][n := nodes[idx]];
      numNodes := numNodes + 1;
      table := table[a.id := node.View()];
      forall y | y in nodes ensures Tells(table, y) {
        assert y != node ==> old(Found(nodeMap, y) && Tells(table, y));
      }
    }

    /** Queue a message under a name, in place of what was queued under it. */
    method Broadcast(name: Id, c: Claim)
      modifies this`gossip
      ensures gossip == N.Broadcast(old(gossip), name, c)
    {
      if name != NO_ID {
        gossip := gossip[name := c];
      }
    }

    /** A member not known before. */
    method Introduce(a: AliveClaim, now: int, rnd: nat)
      requires Valid() && a.id !in nodeMap
      modifies this`nodes, this`nodeMap, this`numNodes, this`table, this`gossip, this`events
      ensures Valid() && table == old(table)[a.id := Entry(a.addr, a.tags, a.lives, StateAlive, now)]
      ensures gossip == N.Broadcast(old(gossip), a.id, a)
      ensures events == Then(old(events), Event(NodeJoin, Member(a.id, a.addr, a.tags)))
      ensures forall x :: x in nodes ==> x in old(nodes) || fresh(x)
    {
      Insert(a, now, rnd);
      Broadcast(a.id, a);
      events := Then(events, Event(NodeJoin, Member(a.id, a.addr, a.tags)));
    }

    /** News of a known member. */
    method Revive(a: AliveClaim, now: int)
      requires Valid() && a.id in nodeMap
      modifies this`suspicions, this`gossip, this`events, this`table, nodes
      ensures Valid() && table == old(table)[a.id := N.AliveEntry(old(table[a.id]), a, now)]
      ensures suspicions == old(suspicions) - {a.id} && gossip == N.Broadcast(old(gossip), a.id, a)
      ensures events == N.AliveEvents(old(events), old(table[a.id]), a)
    {
      var e := Lookup(a.id);
      suspicions := suspicions - {a.id};
      events := N.AliveEvents(events, e, a);
      Store(a.id, N.AliveEntry(e, a, now));
      Broadcast(a.id, a);
    }

    method AliveNode(a: AliveClaim, now: int, rnd: nat)
      requires Valid()
      modifies this, nodes
      ensures Valid() && View() == N.AliveNode(old(View()), a, now)
      ensures forall x :: x in nodes ==> x in old(nodes) || fresh(x)
    {
      if left && a.id == id {
        return;
      }
      if !config.ipAllowed(a.addr.ip) {
        return;
      }
      if a.id !in nodeMap {
        Introduce(a, now, rnd);
        return;
      }
      if a.lives <= Lookup(a.id).lives {
        return;
      }
      Revive(a, now);
    }

    method NextLiveNo() returns (l: nat)
      modifies this`lives
      ensures lives == old(lives) + 1 && l == lives
    {
      lives := lives + 1;
      return lives;
    }

    /** Take lives numbers until one is above the claim's, then announce it. */
    method Refute(claimed: nat)
      requires Valid() && id in nodeMap
      modifies this`lives, this`gossip, this`table, nodes
      ensures var l, e := Max(old(lives), claimed) + 1, old(table[id]);
              lives == l && table == old(table)[id := e.(lives := l)]
              && gossip == N.Broadcast(old(gossip), id, Alive(l, id, e.addr, e.tags))
      ensures Valid()
    {
      var l := NextLiveNo();
      while l <= claimed
        modifies this`lives
        invariant l == lives && l <= Max(old(lives), claimed) + 1 && old(lives) < l
      {
        l := NextLiveNo();
      }
      var e := Lookup(id);
      Store(id, e.(lives := l));
      Broadcast(id, Alive(l, id, e.addr, e.tags));
    }

    function ConfirmCap(): (cap: int)
      requires Valid()
      reads this, nodes
      ensures cap == N.ConfirmCap(View())
    {
      IndexSize(nodeMap, nodes);
      var confirmCap := config.suspicionMult - 1;
      if numNodes - 1 < confirmCap then 1 else confirmCap
    }

    /** Mark a live member suspect and arm its timer. */
    method StartSuspicion(s: SuspectClaim, now: int)
      requires Valid() && s.id in nodeMap
      modifies this`suspicions, this`gossip, this`timers, this`table, nodes
      ensures Valid()
      ensures table == old(table)[s.id := old(table[s.id]).(lives := s.lives, state := StateSuspect, changed := now)]
      ensures suspicions == old(suspicions)[s.id := FirstConfirmation(N.ConfirmCap(old(View())), s.from)]
      ensures gossip == N.Broadcast(old(gossip), s.id, s) && timers == old(timers) + multiset{Timer(s.id, s.lives)}
    {
      var confirmCap := ConfirmCap();
      var e := Lookup(s.id);
      Broadcast(s.id, s);
      Store(s.id, e.(lives := s.lives, state := StateSuspect, changed := now));
      suspicions := suspicions[s.id := FirstConfirmation(confirmCap, s.from)];
      timers := timers + multiset{Timer(s.id, s.lives)};
    }

    method ConfirmSuspicion(s: SuspectClaim)
      requires s.id in suspicions
      modifies this`suspicions, this`gossip
      ensures View() == N.ConfirmSuspicion(old(View()), s)
    {
      var r := Confirm(suspicions[s.id], s.from);
      suspicions := suspicions[s.id := r.0];
      if r.1 {
        Broadcast(s.id, s);
      }
    }

    /** The first suspicion of a live member, which a member refutes if it is its own. */
    method SuspectAlive(s: SuspectClaim, now: int)
      requires Valid() && N.HeedsSuspect(View(), s) && s.id !in suspicions
      modifies this`lives, this`suspicions, this`gossip, this`timers, this`table, nodes
      ensures Valid() && View() == N.SuspectNode(old(View()), s, now)
    {
      if s.id == id {
        Refute(s.lives);
      } else {
        StartSuspicion(s, now);
      }
    }

    method SuspectNode(s: SuspectClaim, now: int)
      requires Valid()
      modifies this, nodes
      ensures Valid() && View() == N.SuspectNode(old(View()), s, now) && nodes == old(nodes)
    {
      if s.id !in nodeMap || s.lives < Lookup(s.id).lives {
        return;
      }
      if s.id in suspicions {
        ConfirmSuspicion(s);
        return;
      }
      if Lookup(s.id).state != StateAlive {
        return;
      }
      SuspectAlive(s, now);
    }

    /** A member is gone. */
    method Bury(d: DeadClaim, now: int)
      requires Valid() && d.id in nodeMap
      modifies this`suspicions, this`gossip, this`events, this`table, nodes
      ensures Valid()
      ensures var state := if d.left then StateLeft else StateDead;
              table == old(table)[d.id := old(table[d.id]).(lives := d.lives, state := state, changed := now)]
      ensures suspicions == old(suspicions) - {d.id} && gossip == N.Broadcast(old(gossip), d.id, d)
      ensures events == Then(old(events), Event(NodeLeave, N.MemberOf(d.id, old(table[d.id]))))
    {
      var e := Lookup(d.id);
      suspicions := suspicions - {d.id};
      Broadcast(d.id, d);
      events := Then(events, Event(NodeLeave, N.MemberOf(d.id, e)));
      Store(d.id, e.(lives := d.lives, state := if d.left then StateLeft else StateDead, changed := now));
    }

    method DeadNode(d: DeadClaim, now: int)
      requires Valid()
      modifies this, nodes
      ensures Valid() && View() == N.DeadNode(old(View()), d, now) && nodes == old(nodes)
    {
      if d.id !in nodeMap || d.lives < Lookup(d.id).lives || Lookup(d.id).DeadOrLeft() {
        return;
      }
      if d.id == id && !left {
        Refute(d.lives);
        return;
      }
      Bury(d, now);
    }

    method MergeOne(r: RemoteClaim, now: int, rnd: nat)
      requires Valid()
      modifies this, nodes
      ensures Valid() && View() == N.MergeOne(old(View()), r, now)
      ensures forall x :: x in nodes ==> x in old(nodes) || fresh(x)
    {
      match r.state
      case StateAlive => AliveNode(Alive(r.lives, r.id, r.addr, r.tags), now, rnd);
      case StateLeft => DeadNode(Dead(r.lives, r.id, true), now);
      case _ => SuspectNode(Suspect(r.lives, r.id, id), now);
    }

    method MergeState(remote: seq<RemoteClaim>, now: int, rnd: seq<nat>)
      requires Valid() && |rnd| == |remote|
      modifies this, nodes
      ensures Valid() && View() == N.MergeState(old(View()), remote, now)
      ensures forall x :: x in nodes ==> x in old(nodes) || fresh(x)
    {
      for i := 0 to |remote|
        invariant Valid() && View() == N.MergeState(old(View()), remote[..i], now)
        invariant forall x :: x in nodes ==> x in old(nodes) || fresh(x)
      {
        assert remote[..i + 1][..i] == remote[..i];
        assert forall k :: 0 <= k < |nodes| ==> nodes[k] in nodes;
        MergeOne(remote[i], now, rnd[i]);
      }
      assert remote[..|remote|] == remote;
    }

    /** The timeout function up to the release of its read lock. */
    method FireTimer(t: Timer)
      requires Valid() && t in timers
      modifies this`timers, this`kills
      ensures Valid() && View() == N.FireTimer(old(View()), t)
    {
      timers := timers - multiset{t};
      var proceed := t.id in nodeMap && Lookup(t.id).state == StateSuspect && Lookup(t.id).lives == t.lives;
      if proceed {
        kills := kills + multiset{Dead(Lookup(t.id).lives, t.id, false)};
      }
    }

    /** The timeout function's second half, and the end of `Leave`. */
    method RunKill(d: DeadClaim, now: int)
      requires Valid() && d in kills
      modifies this, nodes
      ensures Valid() && View() == N.RunKill(old(View()), d, now)
    {
      kills := kills - multiset{d};
      DeadNode(d, now);
    }

    /** `Leave` up to the release of its lock. */
    method BeginLeave()
      requires Valid()
      modifies this`left, this`kills
      ensures Valid() && View() == N.BeginLeave(old(View()))
    {
      if left {
        return;
      }
      left := true;
      if id !in nodeMap {
        return;
      }
      kills := kills + multiset{Dead(Lookup(id).lives, id, true)};
    }

    method UpdateTags(tags: Bytes, now: int, rnd: nat) returns (outcome: Outcome)
      requires Valid()
      modifies this, nodes
      ensures Valid() && View() == N.UpdateTags(old(View()), tags, now)
      ensures outcome == TooLong <==> |tags| > 512
      ensures outcome == Crashed <==> |tags| <= 512 && id !in old(nodeMap)
      ensures outcome != Accepted ==> View() == old(View())
    {
      if |tags| > N.TAG_MAX_SIZE {
        return TooLong;
      }
      if id !in nodeMap {
        return Crashed;
      }
      var addr := Lookup(id).addr;
      var l := NextLiveNo();
      AliveNode(Alive(l, id, addr, tags), now, rnd);
      return Accepted;
    }

    /** The announcement at start-up. */
    method SetAlive(tags: Bytes, now: int, rnd: nat) returns (outcome: Outcome)
      requires Valid()
      modifies this, nodes
      ensures Valid()
      ensures outcome == if |tags| > 512 then TooLong else Accepted
      ensures outcome == TooLong ==> View() == old(View())
      ensures outcome == Accepted && old(View()) == N.Blank(id, addr, config) ==>
                View() == N.Boot(id, addr, config, tags, now)
    {
      if |tags| > N.TAG_MAX_SIZE {
        return TooLong;
      }
      var l := NextLiveNo();
      AliveNode(Alive(l, id, addr, tags), now, rnd);
      return Accepted;
    }

    /** A queued message has reached its limit. */
    method Finish(name: Id)
      modifies this`gossip
      ensures View() == N.FinishBroadcast(old(View()), name)
    {
      gossip := gossip - {name};
    }

    // ---------- Maintenance ----------

    /** Swap each position, from the last down, with a random one not after it. */
    method Shuffle(rnd: nat -> nat)
      modifies this`nodes
      ensures multiset(nodes) == multiset(old(nodes)) && |nodes| == |old(nodes)|
    {
      var i := |nodes|;
      while i > 1
        invariant i <= |nodes| == |old(nodes)| && multiset(nodes) == multiset(old(nodes))
      {
        i := i - 1;
        var j := rnd(i) % (i + 1);
        nodes := nodes[i := nodes[j]][j := nodes[i]];
      }
    }

    /** Forget the nodes of `gone`. */
    method Deregister(gone: seq<NodeState>)
      modifies this`nodeMap
      ensures nodeMap == old(nodeMap) - Ids(gone)
    {
      for k := 0 to |gone|
        invariant nodeMap == old(nodeMap) - Ids(gone[..k])
      {
        assert gone[..k + 1] == gone[..k] + [gone[k]];
        nodeMap := nodeMap - {gone[k].id};
        assert Ids(gone[..k + 1]) == Ids(gone[..k]) + {gone[k].id};
      }
      assert gone[..|gone|] == gone;
    }

    /** Copy the list, move its expired nodes to the end and cut there. */
    method Partition(now: int) returns (kept: seq<NodeState>, gone: seq<NodeState>)
      requires Valid()
      ensures IndexesNodes(nodeMap - Ids(gone), kept)
      ensures var table' := N.Reap(View(), now).table;
              table'.Keys == (nodeMap - Ids(gone)).Keys && forall x :: x in kept ==> Tells(table', x)
      ensures forall x :: x in kept ==> x in nodes
    {
      var a := new NodeState[|nodes|](i requires 0 <= i < |nodes| reads this => nodes[i]);
      assert a[..] == nodes;
      var expiredIdx := SwapExpiredToEnd(a, now, config.deadExpiry);
      ghost var perm := a[..];
      PermutedIndexed(nodeMap, nodes, perm);
      TrimmedIndexed(nodeMap, perm, expiredIdx);
      assert perm == perm[..expiredIdx] + perm[expiredIdx..];
      ReapedTable(perm, expiredIdx, table, now, config.deadExpiry);
      return a[..expiredIdx], a[expiredIdx..];
    }

    /** Drop the expired nodes from the list and the map. */
    method Sweep(now: int)
      requires Valid()
      modifies this`nodes, this`nodeMap, this`numNodes, this`table
      ensures Valid() && table == N.Reap(old(View()), now).table
      ensures forall x :: x in nodes ==> x in old(nodes)
    {
      var kept, gone := Partition(now);
      table := N.Reap(View(), now).table;
      Deregister(gone);
      nodes := kept;
      numNodes := |kept|;
    }

    method Reap(now: int, rnd: nat -> nat)
      requires Valid()
      modifies this
      ensures Valid() && View() == N.Reap(old(View()), now)
    {
      Sweep(now);
      ghost var swept := nodes;
      Shuffle(rnd);
      PermutedIndexed(nodeMap, swept, nodes);
    }

    // ---------- Reading ----------

    /** The snapshot that a push-pull sends. */
    method LocalState() returns (res: seq<RemoteClaim>)
      requires Valid()
      ensures PushPull.IsSnapshot(res, View())
    {
      res := [];
      for k := 0 to |nodes|
        invariant |res| == k
        invariant forall i: nat :: i < k ==> res[i].id == nodes[i].id && nodes[i].id in table
                                             && res[i] == N.SnapshotOf(View(), nodes[i].id)
      {
        var n := nodes[k];
        assert Tells(table, n);
        res := res + [Remote(n.lives, n.id, n.addr, n.tags, n.state)];
      }
      forall i, j | 0 <= i < j < |res| ensures res[i].id != res[j].id {
        assert Differ(nodes, i, j);
      }
      forall x | x in table ensures exists i :: 0 <= i < |res| && res[i].id == x {
        assert Finds(nodeMap, nodes, x);
        var i: nat :| i < |nodes| && nodes[i] == nodeMap[x];
        assert res[i].id == x;
      }
    }

    /** The number of members neither dead nor left. */
    method NumActive() returns (active: nat)
      requires Valid()
      ensures active == |Active(table)|
    {
      active := 0;
      ghost var ids: set<Id> := {};
      for k := 0 to |nodes|
        invariant active == |ids|
        invariant forall x :: x in ids ==> exists i: nat :: i < k && nodes[i].id == x && !nodes[i].View().DeadOrLeft()
        invariant forall i: nat :: i < k && !nodes[i].View().DeadOrLeft() ==> nodes[i].id in ids
      {
        if !nodes[k].View().DeadOrLeft() {
          forall i: nat | i < k ensures nodes[i].id != nodes[k].id {
            assert Differ(nodes, i, k);
          }
          active := active + 1;
          ids := ids + {nodes[k].id};
        }
      }
      forall x ensures x in ids <==> x in Active(table) {
        if x in ids {
          var i: nat :| i < |nodes| && nodes[i].id == x && !nodes[i].View().DeadOrLeft();
          assert Tells(table, nodes[i]);
        }
        if x in Active(table) {
          assert Finds(nodeMap, nodes, x) && Tells(table, nodeMap[x]);
          var i: nat :| i < |nodes| && nodes[i] == nodeMap[x];
        }
      }
      assert ids == Active(table).Keys;
    }

    /** The inner loop of the search: move on to the next eligible node, or to the end. */
    method SkipIneligible()
      requires 0 <= probeIdx <= |nodes|
      modifies this`probeIdx
      ensures probeIdx == RoundRobin.From(EligibleList(nodes, id), old(probeIdx))
    {
      ghost var ok := EligibleList(nodes, id);
      while probeIdx < |nodes| && (nodes[probeIdx].id == id || nodes[probeIdx].View().DeadOrLeft())
        invariant 0 <= probeIdx <= |nodes|
        invariant RoundRobin.From(ok, probeIdx) == RoundRobin.From(ok, old(probeIdx))
      {
        probeIdx := probeIdx + 1;
      }
    }

    /** The next node to probe, or none; the position moves even when there is none. */
    method NextProbeNode() returns (found: Option<NodeState>)
      requires probeIdx >= -1
      modifies this`probeIdx
      ensures probeIdx == RoundRobin.Next(EligibleList(nodes, id), old(probeIdx))
      ensures found == if probeIdx < |nodes| then Some(nodes[probeIdx]) else None
    {
      ghost var ok := EligibleList(nodes, id);
      ghost var first := RoundRobin.From(ok, probeIdx + 1);
      probeIdx := probeIdx + 1;
      var wrapAround := false;
      while !wrapAround
        invariant probeIdx >= 0
        invariant !wrapAround ==> RoundRobin.From(ok, probeIdx) == first
        invariant wrapAround ==> first == |ok| && RoundRobin.From(ok, 0) == |ok| && probeIdx == |ok|
        decreases !wrapAround, |nodes| - probeIdx
      {
        if probeIdx >= |nodes| {
          probeIdx := 0;
          wrapAround := true;
        }
        SkipIneligible();
        if probeIdx < |nodes| {
          return Some(nodes[probeIdx]);
        }
      }
      return None;
    }

    /** Read a node that is about to be probed. */
    method ReadNode(node: NodeState) returns (claim: SuspectClaim)
      requires Valid() && node in nodes && Eligible(node, id)
      modifies this`probes
      ensures Valid() && View() == N.BeginProbe(old(View()), node.id)
      ensures claim == Suspect(node.lives, node.id, id) && claim in probes
    {
      assert Tells(table, node);
      claim := Suspect(node.lives, node.id, id);
      probes := probes + {claim};
    }

    /** Choose the next node of the round and read it; the probe itself runs beside everything else. */
    method BeginProbe() returns (claim: Option<SuspectClaim>)
      requires Valid() && probeIdx >= -1
      modifies this`probeIdx, this`probes
      ensures Valid()
      ensures probeIdx == RoundRobin.Next(EligibleList(nodes, id), old(probeIdx))
      ensures claim.None? <==> forall x :: x in nodes ==> x.id == id || x.state == StateDead || x.state == StateLeft
      ensures claim.None? ==> View() == old(View())
      ensures claim.Some? ==> probeIdx < |nodes| && claim.value.id == nodes[probeIdx].id && claim.value in probes
      ensures claim.Some? ==> View() == N.BeginProbe(old(View()), claim.value.id)
    {
      NextEligible(nodes, id, probeIdx);
      var found := NextProbeNode();
      if found.None? {
        return None;
      }
      var s := ReadNode(found.value);
      return Some(s);
    }

    /** A probe has failed. */
    method FailProbe(s: SuspectClaim, now: int)
      requires Valid() && s in probes
      modifies this, nodes
      ensures Valid() && View() == N.FailProbe(old(View()), s, now)
    {
      SuspectNode(s, now);
    }
  }
}
