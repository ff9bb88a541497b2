/** The broadcast queue as the object that members share, proved against its account. */
module Broadcasts {
  import opened Types
  import opened Queue
  import opened QueueRuns

  /** `index` finds exactly the named queued items. */
  ghost predicate Indexes(index: map<Id, Item>, items: set<Item>) {
    && (forall name :: name in index ==> name != NO_ID && index[name] in items && index[name].name == name)
    && (forall it :: it in items && it.name != NO_ID ==> it.name in index)
  }

  function Messages(s: seq<Item>): seq<Bytes> {
    if s == [] then [] else [s[0].msg] + Messages(s[1..])
  }

  lemma CapGrows(q: Account, cap: int, cap': int)
    requires QueueInv(q, cap) && cap <= cap'
    ensures QueueInv(q, cap')
  {
    forall serial: nat ensures SerialInv(q, cap', serial) {
      assert SerialInv(q, cap, serial);
    }
    forall it | it in q.items ensures ItemInv(q, cap', it) {
      assert ItemInv(q, cap, it);
    }
  }

  lemma SortedSingle(it: Item)
    ensures Sorted({it}) == [it] && Sorted({}) == []
  {
    SortedIs([it]);
    SortedIs([]);
    assert Elems([it]) == {it} && Elems([]) == {};
  }

  /** What an index finds under a name is all that a new item of that name replaces. */
  lemma ReplacedIsIndexed(index: map<Id, Item>, items: set<Item>, name: Id)
    requires Apart(items) && Indexes(index, items)
    ensures Replaced(items, name) == if name in index then {index[name]} else {}
  {
    if name in index {
      forall x | x in Replaced(items, name) ensures x == index[name] {
        assert Clash(x, index[name]);
      }
    }
  }

  lemma {:induction false} SortedSize(items: set<Item>)
    requires DistinctIds(items)
    ensures |Sorted(items)| == |items|
  {
    SortedSingle(Item(NO_ID, 0, 0, [], 0));
    if items != {} {
      LeastExists(items);
      var m :| IsLeast(m, items);
      PopIsHead(items, m);
      SortedSize(items - {m});
    }
  }

  lemma NoClashAfterSend(items: set<Item>, x: Item, it: Item)
    requires Apart(items) && x in items && it in items && x != it
    ensures !Clash(x, it.Sent()) && !Clash(x.Sent(), it.Sent())
  {
    assert !Clash(x, it);
  }

  /** What is queued while `waiting` is still to be transmitted: other items, some transmitted already. */
  ghost predicate Behind(queue: set<Item>, items: set<Item>, waiting: seq<Item>) {
    forall x :: x in queue ==>
      (x in items && x !in waiting) || (exists y :: y in items && y !in waiting && x == y.Sent())
  }

  /** A transmitted item goes back beside nothing that it could be confused with. */
  lemma BackInPlace(items: set<Item>, queue: set<Item>, picked: seq<Item>, i: nat)
    requires Apart(items) && OneEach(picked) && Elems(picked) <= items && i < |picked|
    requires Behind(queue, items, picked[i..])
    ensures forall x :: x in queue ==> !Clash(x, picked[i].Sent())
    ensures Behind(queue, items, picked[i + 1..]) && Behind(queue + {picked[i].Sent()}, items, picked[i + 1..])
  {
    var it := picked[i];
    assert it in Elems(picked) && it in picked[i..];
    assert it !in picked[i + 1..];
    assert forall y :: y in picked[i + 1..] ==> y in picked[i..];
    forall x | x in queue ensures !Clash(x, it.Sent()) {
      if x in items && x !in picked[i..] {
        NoClashAfterSend(items, x, it);
      } else {
        var y :| y in items && y !in picked[i..] && x == y.Sent();
        NoClashAfterSend(items, y, it);
      }
    }
  }

  /** What `Choose` hands on: the picked items, and the rest in two parts. */
  lemma ChosenApart(items: set<Item>, c: Choice, notPicked: seq<Item>, queue: set<Item>)
    requires Apart(items) && Elems(c.picked) + Elems(c.rest) == items && Elems(c.picked) !! Elems(c.rest)
    requires Ordered(c.picked) && Ordered(c.rest) && DistinctIds(queue) && c.rest == notPicked + Sorted(queue)
    ensures Apart(queue + Elems(notPicked)) && queue !! Elems(notPicked) && Ordered(notPicked)
    ensures queue + Elems(notPicked) == Elems(c.rest) && OneEach(c.picked)
  {
    SortedSorts(queue);
    SplitElems(c.rest, |notPicked|);
    assert c.rest[..|notPicked|] == notPicked && c.rest[|notPicked|..] == Sorted(queue);
    ApartIsDistinct(items, Elems(c.rest));
    ApartIsDistinct(items, Elems(c.picked));
    OrderedIsOneEach(c.picked);
  }

  /** The greedy pass as the loop makes it, adding to what it has picked and passed over so far. */
  function PickOnto(s: seq<Item>, used: nat, overhead: nat, size: int, picked: seq<Item>, passed: seq<Item>): Choice {
    if s == [] || used + MIN_MESSAGE + overhead > size then
      Choice(picked, passed + s)
    else if used + |s[0].msg| + overhead > size then
      PickOnto(s[1..], used, overhead, size, picked, passed + [s[0]])
    else
      PickOnto(s[1..], used + |s[0].msg| + overhead, overhead, size, picked + [s[0]], passed)
  }

  lemma {:induction false} PickOntoPicks(
      s: seq<Item>, used: nat, overhead: nat, size: int, picked: seq<Item>, passed: seq<Item>)
    ensures var c := Pick(s, used, overhead, size);
            PickOnto(s, used, overhead, size, picked, passed) == Choice(picked + c.picked, passed + c.rest)
  {
    if s == [] || used + MIN_MESSAGE + overhead > size {
      assert picked + [] == picked;
    } else if used + |s[0].msg| + overhead > size {
      PickOntoPicks(s[1..], used, overhead, size, picked, passed + [s[0]]);
      var c := Pick(s[1..], used, overhead, size);
      assert passed + [s[0]] + c.rest == passed + ([s[0]] + c.rest);
    } else {
      PickOntoPicks(s[1..], used + |s[0].msg| + overhead, overhead, size, picked + [s[0]], passed);
      var c := Pick(s[1..], used + |s[0].msg| + overhead, overhead, size);
      assert picked + [s[0]] + c.picked == picked + ([s[0]] + c.picked);
    }
  }

  lemma {:induction false} PickOntoNothing(s: seq<Item>, overhead: nat, size: int)
    ensures PickOnto(s, 0, overhead, size, [], []) == Pick(s, 0, overhead, size)
  {
    PickOntoPicks(s, 0, overhead, size, [], []);
    var c := Pick(s, 0, overhead, size);
    assert [] + c.picked == c.picked && [] + c.rest == c.rest;
  }

  lemma {:induction false} PickOntoPop(queue: set<Item>, left: set<Item>, m: Item, used: nat, overhead: nat, size: int,
                    picked: seq<Item>, passed: seq<Item>)
    requires Apart(queue) && IsLeast(m, queue) && left == queue - {m} && used + MIN_MESSAGE + overhead <= size
    ensures PickOnto(Sorted(queue), used, overhead, size, picked, passed)
         == if used + |m.msg| + overhead > size then
              PickOnto(Sorted(left), used, overhead, size, picked, passed + [m])
            else
              PickOnto(Sorted(left), used + |m.msg| + overhead, overhead, size, picked + [m], passed)
  {
    ApartIsDistinct(queue, queue);
    PopIsHead(queue, m);
    assert Sorted(queue)[0] == m && Sorted(queue)[1..] == Sorted(left);
  }

  /** One picked item is transmitted: finished if it has reached the limit, else queued again. */
  function SendOne(q: Account, it: Item, limit: int): Account {
    if it.transmits + 1 >= limit then
      q.(sent := Bump(q.sent, it), finished := Bump(q.finished, it))
    else
      q.(sent := Bump(q.sent, it), items := q.items + {it.Sent()})
  }

  function SendAll(q: Account, picked: seq<Item>, limit: int): Account
    decreases |picked|
  {
    if picked == [] then q else SendAll(SendOne(q, picked[0], limit), picked[1..], limit)
  }

  lemma {:induction false} SendAllNext(q: Account, picked: seq<Item>, i: nat, limit: int)
    requires i < |picked|
    ensures SendAll(q, picked[i..], limit) == SendAll(SendOne(q, picked[i], limit), picked[i + 1..], limit)
    ensures Messages(picked[i..]) == [picked[i].msg] + Messages(picked[i + 1..])
  {
    assert picked[i..][0] == picked[i] && picked[i..][1..] == picked[i + 1..];
  }

  lemma {:induction false} SendAllSends(q: Account, picked: seq<Item>, limit: int)
    ensures SendAll(q, picked, limit)
         == q.(items := q.items + Elems(Again(picked, limit)), finished := Tally(q.finished, Done(picked, limit)),
               sent := Tally(q.sent, picked))
    decreases |picked|
  {
    if picked == [] {
      assert q.items + Elems([]) == q.items;
    } else {
      var it, q1 := picked[0], SendOne(q, picked[0], limit);
      SendAllSends(q1, picked[1..], limit);
      var again, done := Again(picked[1..], limit), Done(picked[1..], limit);
      if it.transmits + 1 >= limit {
        assert ([it] + done)[1..] == done;
      } else {
        Cons(it.Sent(), again);
        assert q1.items + Elems(again) == q.items + Elems([it.Sent()] + again);
      }
    }
  }

  /** The first `n` of the sorted items are finished, the rest is kept. */
  ghost function Cut(q: Account, s: seq<Item>, n: nat): Account
    requires n <= |s|
  {
    q.(items := Elems(s[n..]), finished := Tally(q.finished, s[..n]))
  }

  lemma ResizeIsCut(q: Account, size: nat)
    requires Apart(q.items)
    ensures var s := Sorted(q.items); Resize(q, size) == Cut(q, s, if |s| > size then |s| - size else 0)
  {
    ApartIsDistinct(q.items, q.items);
    SortedSorts(q.items);
    var s := Sorted(q.items);
    assert s[0..] == s && s[..0] == [];
  }

  lemma CutPop(q: Account, q1: Account, m: Item, s: seq<Item>, t: seq<Item>, n: nat)
    requires s == [m] + t && 0 < n <= |s| && q1 == q.(items := q1.items, finished := Bump(q.finished, m))
    ensures Cut(q1, t, n - 1) == Cut(q, s, n)
  {
    assert s[n..] == t[n - 1..] && s[..n] == [m] + t[..n - 1];
    assert ([m] + t[..n - 1])[1..] == t[..n - 1];
  }

  lemma ResizePop(q: Account, left: set<Item>, m: Item, size: nat)
    requires Apart(q.items) && IsLeast(m, q.items) && left == q.items - {m} && |q.items| > size
    ensures Resize(q.(items := left, finished := Bump(q.finished, m)), size) == Resize(q, size)
  {
    var q1 := q.(items := left, finished := Bump(q.finished, m));
    ApartIsDistinct(q.items, q.items);
    ApartIsDistinct(q.items, left);
    PopIsHead(q.items, m);
    SortedSize(q.items);
    ResizeIsCut(q, size);
    ResizeIsCut(q1, size);
    CutPop(q, q1, m, Sorted(q.items), Sorted(left), |q.items| - size);
  }

  lemma ResizeEnd(q: Account, size: nat)
    requires Apart(q.items) && |q.items| <= size
    ensures Resize(q, size) == q
  {
    ApartIsDistinct(q.items, q.items);
    SortedSize(q.items);
  }

  /** Resizing keeps as many items as asked for, if there are so many, and drops none behind one it keeps. */
  lemma ResizeDropsFront(q: Account, size: nat, x: Item, y: Item)
    requires Apart(q.items)
    ensures var items := Resize(q, size).items;
            && items <= q.items && |items| == (if |q.items| < size then |q.items| else size)
            && (x in q.items && x !in items && y in items ==> GoesFirst(x, y))
  {
    ApartIsDistinct(q.items, q.items);
    SortedSorts(q.items);
    SortedSize(q.items);
    var s := Sorted(q.items);
    if |s| > size {
      DropsFront(q.items, |s| - size, x, y);
    }
  }

  lemma DropsFront(items: set<Item>, n: nat, x: Item, y: Item)
    requires Apart(items) && IsSorting(Sorted(items), items) && n <= |Sorted(items)|
    ensures var s := Sorted(items);
            && Elems(s[n..]) <= items && |Elems(s[n..])| == |s| - n
            && (x in items && x !in Elems(s[n..]) && y in Elems(s[n..]) ==> GoesFirst(x, y))
  {
    var s := Sorted(items);
    SplitElems(s, n);
    ApartIsDistinct(items, Elems(s[n..]));
    SortedIs(s[n..]);
    SortedSize(Elems(s[n..]));
    if x in items && x !in Elems(s[n..]) && y in Elems(s[n..]) {
      assert x in Elems(s[..n]);
      var i: nat :| i < n && s[i] == x;
      var j: nat :| n <= j < |s| && s[j] == y;
      ApartIsDistinct(items, items);
      SortedGoesFirst(items, i, j);
    }
  }

  class TransmitCapQueue {
    const transmitScale: int
    /** The heap: its `Pop` takes the least item, its `Remove` the item with a given id. */
    var queue: set<Item>
    var index: map<Id, Item>
    var idSeq: nat
    /** The rest is a record of the run. */
    var born: nat
    ghost var finished: map<nat, nat>
    ghost var sent: map<nat, nat>
    ghost var cap: int

    ghost function View(): Account
      reads this
    {
      Account(queue, idSeq, born, finished, sent)
    }

    ghost predicate Valid()
      reads this
    {
      QueueInv(View(), cap) && Indexes(index, queue)
    }

    constructor (scale: int)
      ensures Valid() && View() == EMPTY && transmitScale == scale && cap == 0
    {
      transmitScale := scale;
      queue, index, idSeq, born := {}, map[], 0, 0;
      finished, sent, cap := map[], map[], 0;
      new;
      forall serial: nat ensures SerialInv(View(), 0, serial) {
        assert !Carries(queue, serial);
      }
    }

    method Pop() returns (item: Option<Item>)
      requires Apart(queue) && Indexes(index, queue)
      modifies this`queue, this`index
      ensures Apart(queue) && Indexes(index, queue)
      ensures item.None? <==> old(queue) == {}
      ensures item.None? ==> queue == old(queue)
      ensures item.Some? ==> IsLeast(item.value, old(queue)) && queue == old(queue) - {item.value}
      ensures item.Some? ==> item.value in old(queue) && forall x :: x in queue ==> GoesFirst(item.value, x)
    {
      if queue == {} {
        return None;
      }
      ApartIsDistinct(queue, queue);
      LeastExists(queue);
      var m: Item :| m in queue && IsLeast(m, queue);
      queue := queue - {m};
      assert forall x :: x in queue && x.name == m.name && m.name != NO_ID ==> Clash(x, m);
      index := index - {m.name};
      return Some(m);
    }

    method Push(item: Item)
      requires Apart(queue) && Indexes(index, queue)
      requires forall x :: x in queue ==> x.id != item.id && x.serial != item.serial
      modifies this`queue, this`index, this`finished
      ensures Apart(queue) && Indexes(index, queue)
      ensures queue == old(queue) - Replaced(old(queue), item.name) + {item}
      ensures finished == Tally(old(finished), Sorted(Replaced(old(queue), item.name)))
    {
      ReplacedIsIndexed(index, queue, item.name);
      SortedSingle(item);
      if item.name != NO_ID {
        if item.name in index {
          var gone := index[item.name];
          SortedSingle(gone);
          finished := Tally(finished, [gone]);
          queue := set x | x in queue && x.id != gone.id;
          assert forall x :: x in old(queue) && x.id == gone.id ==> Clash(x, gone);
          assert queue == old(queue) - {gone};
        }
        index := index[item.name := item];
      }
      queue := queue + {item};
    }

    method QueueMsg(name: Id, msg: Bytes)
      requires Valid()
      modifies this
      ensures Valid() && cap == old(cap)
      ensures View() == QueueRuns.QueueMsg(old(View()), name, msg)
    {
      var item := Item(name, idSeq, 0, msg, born);
      idSeq := idSeq + 1;
      born := born + 1;
      QueueMsgKeeps(old(View()), cap, name, msg);
      assert forall x :: x in queue ==> ItemInv(old(View()), cap, x);
      Push(item);
    }

    /** Look at the first item: it is picked if it fits, and else passed over. */
    method ChooseOne(used: nat, overhead: nat, size: int, picked: seq<Item>, notPicked: seq<Item>)
      returns (used': nat, picked': seq<Item>, notPicked': seq<Item>)
      requires Apart(queue) && Indexes(index, queue) && queue != {} && used + MIN_MESSAGE + overhead <= size
      modifies this`queue, this`index
      ensures Apart(queue) && Indexes(index, queue) && |queue| < |old(queue)|
      ensures PickOnto(Sorted(queue), used', overhead, size, picked', notPicked')
           == PickOnto(Sorted(old(queue)), used, overhead, size, picked, notPicked)
    {
      var item := Pop();
      PickOntoPop(old(queue), queue, item.value, used, overhead, size, picked, notPicked);
      if used + |item.value.msg| + overhead > size {
        return used, picked, notPicked + [item.value];
      }
      return used + |item.value.msg| + overhead, picked + [item.value], notPicked;
    }

    /** Choose what fits: the first loop of `GetMessages`. */
    method Choose(overhead: nat, size: int) returns (picked: seq<Item>, notPicked: seq<Item>)
      requires Apart(queue) && Indexes(index, queue)
      modifies this`queue, this`index
      ensures Apart(queue) && Indexes(index, queue)
      ensures Pick(Sorted(old(queue)), 0, overhead, size) == Choice(picked, notPicked + Sorted(queue))
    {
      var bytesUsed: nat := 0;
      picked, notPicked := [], [];
      ghost var goal := Pick(Sorted(queue), 0, overhead, size);
      PickOntoNothing(Sorted(queue), overhead, size);
      while bytesUsed + MIN_MESSAGE + overhead <= size && queue != {}
        invariant Apart(queue) && Indexes(index, queue)
        invariant goal == PickOnto(Sorted(queue), bytesUsed, overhead, size, picked, notPicked)
        decreases |queue|
      {
        bytesUsed, picked, notPicked := ChooseOne(bytesUsed, overhead, size, picked, notPicked);
      }
      SortedSingle(Item(NO_ID, 0, 0, [], 0));
    }

    /** Put back what was passed over: the second loop. */
    method PutBack(notPicked: seq<Item>)
      requires Apart(queue + Elems(notPicked)) && Indexes(index, queue)
      requires queue !! Elems(notPicked) && Ordered(notPicked)
      modifies this`queue, this`index, this`finished
      ensures queue == old(queue) + Elems(notPicked) && finished == old(finished)
      ensures Apart(queue) && Indexes(index, queue)
    {
      ApartIsDistinct(queue + Elems(notPicked), queue);
      for i := 0 to |notPicked|
        invariant queue == old(queue) + Elems(notPicked[..i]) && finished == old(finished)
        invariant Apart(queue) && Indexes(index, queue)
      {
        var it := notPicked[i];
        assert notPicked[..i] + [it] == notPicked[..i + 1];
        assert it in Elems(notPicked);
        SplitElems(notPicked, i);
        assert it in Elems(notPicked[i..]);
        forall x | x in queue ensures !Clash(x, it) && !Clash(it, x) {
          assert x in old(queue) + Elems(notPicked) && x != it;
        }
        SortedSingle(it);
        assert Replaced(queue, it.name) == {};
        Push(it);
      }
      assert notPicked[..|notPicked|] == notPicked;
    }

    /** One transmission is counted, and the item goes back if it is below the limit. */
    method TransmitOne(item: Item, limit: int)
      requires Apart(queue) && Indexes(index, queue) && forall x :: x in queue ==> !Clash(x, item.Sent())
      modifies this`queue, this`index, this`finished, this`sent
      ensures View() == SendOne(old(View()), item, limit) && Apart(queue) && Indexes(index, queue)
    {
      sent := Bump(sent, item);
      if item.Sent().transmits >= limit {
        finished := Bump(finished, item);
      } else {
        SortedSingle(item);
        assert Replaced(queue, item.name) == {};
        Push(item.Sent());
      }
    }

    /** Count the transmissions: the third loop. */
    method Transmit(picked: seq<Item>, limit: int) returns (msgs: seq<Bytes>)
      requires Apart(Elems(picked) + queue) && Elems(picked) !! queue && OneEach(picked) && Indexes(index, queue)
      modifies this`queue, this`index, this`finished, this`sent
      ensures View() == SendAll(old(View()), picked, limit) && Indexes(index, queue)
      ensures msgs == Messages(picked)
    {
      msgs := [];
      ApartIsDistinct(Elems(picked) + queue, queue);
      ghost var items := Elems(picked) + queue;
      for i := 0 to |picked|
        invariant SendAll(View(), picked[i..], limit) == SendAll(old(View()), picked, limit)
        invariant Behind(queue, items, picked[i..])
        invariant Apart(queue) && Indexes(index, queue)
        invariant msgs + Messages(picked[i..]) == Messages(picked)
      {
        BackInPlace(items, queue, picked, i);
        SendAllNext(View(), picked, i, limit);
        ghost var later := Messages(picked[i + 1..]);
        assert msgs + ([picked[i].msg] + later) == msgs + [picked[i].msg] + later;
        msgs := msgs + [picked[i].msg];
        TransmitOne(picked[i], limit);
      }
    }

    /** The three loops together. */
    method TakeOut(overhead: nat, size: int, limit: int) returns (msgs: seq<Bytes>)
      requires Apart(queue) && Indexes(index, queue)
      modifies this`queue, this`index, this`finished, this`sent
      ensures var c := Pick(Sorted(old(queue)), 0, overhead, size);
              && View() == SendAll(old(View()).(items := Elems(c.rest)), c.picked, limit)
              && msgs == Messages(c.picked)
      ensures Indexes(index, queue)
    {
      ApartIsDistinct(queue, queue);
      SortedSorts(queue);
      PickPartitions(Sorted(queue), 0, overhead, size);
      var picked, notPicked := Choose(overhead, size);
      ApartIsDistinct(queue, queue);
      ChosenApart(old(queue), Choice(picked, notPicked + Sorted(queue)), notPicked, queue);
      PutBack(notPicked);
      msgs := Transmit(picked, limit);
    }

    method GetMessages(overhead: nat, size: int, numNodes: nat) returns (msgs: seq<Bytes>)
      requires Valid()
      modifies this
      ensures Valid() && cap == Max(old(cap), TransmitLimit(transmitScale, numNodes))
      ensures View() == QueueRuns.GetMessages(old(View()), overhead, size, TransmitLimit(transmitScale, numNodes))
      ensures msgs == if size <= overhead then [] else Messages(Pick(Sorted(old(queue)), 0, overhead, size).picked)
    {
      var limit := TransmitLimit(transmitScale, numNodes);
      CapGrows(View(), cap, Max(cap, limit));
      GetMessagesKeeps(View(), Max(cap, limit), overhead, size, limit);
      cap := Max(cap, limit);
      if size <= overhead || queue == {} {
        SortedSingle(Item(NO_ID, 0, 0, [], 0));
        return [];
      }
      ghost var c := Pick(Sorted(queue), 0, overhead, size);
      SendAllSends(View().(items := Elems(c.rest)), c.picked, limit);
      msgs := TakeOut(overhead, size, limit);
      if queue == {} {
        idSeq := 0;
      }
    }

    /** Finish the item that would go out first. */
    method FinishFirst(ghost keep: nat)
      requires Apart(queue) && Indexes(index, queue) && |queue| > keep
      modifies this`queue, this`index, this`finished
      ensures Apart(queue) && Indexes(index, queue) && |queue| < |old(queue)|
      ensures QueueRuns.Resize(View(), keep) == QueueRuns.Resize(old(View()), keep)
    {
      ghost var q := View();
      var item := Pop();
      ResizePop(q, queue, item.value, keep);
      finished := Bump(finished, item.value);
    }

    /** Finish items from the front until `size` are left. A negative size empties the queue and then
        crashes on the item that is not there. */
    method PopDown(size: int) returns (crashed: bool)
      requires Apart(queue) && Indexes(index, queue)
      modifies this`queue, this`index, this`finished
      ensures Indexes(index, queue) && (crashed <==> size < 0)
      ensures View() == QueueRuns.Resize(old(View()), Max(0, size))
    {
      ghost var goal := QueueRuns.Resize(View(), Max(0, size));
      while |queue| > size
        invariant Apart(queue) && Indexes(index, queue)
        invariant QueueRuns.Resize(View(), Max(0, size)) == goal
        decreases |queue|
      {
        if queue == {} {
          ResizeEnd(View(), Max(0, size));
          return true;
        }
        FinishFirst(Max(0, size));
      }
      ResizeEnd(View(), Max(0, size));
      return false;
    }

    method Resize(size: int) returns (crashed: bool)
      requires Valid()
      modifies this
      ensures Valid() && cap == old(cap)
      ensures View() == QueueRuns.Resize(old(View()), Max(0, size))
      ensures crashed <==> size < 0
    {
      ResizeKeeps(View(), cap, Max(0, size));
      crashed := PopDown(size);
    }
  }
}
