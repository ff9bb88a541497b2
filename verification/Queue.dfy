/** The broadcast queue as a value: which messages go out, and what becomes of each one. */
module Queue {
  import opened Types

  /** The smallest message worth another look at the queue. */
  const MIN_MESSAGE := 20

  /** `id` is the queue's resettable number; `serial` tells items apart over a whole run. */
  datatype Item = Item(name: Id, id: nat, transmits: nat, msg: Bytes, serial: nat) {
    function Sent(): Item {
      this.(transmits := transmits + 1)
    }
  }

  // ---------- The order ----------

  /** Fewer transmits first, then longer messages, then newer ones. */
  predicate Less(i: Item, j: Item) {
    if i.transmits == j.transmits then
      if |i.msg| == |j.msg| then i.id > j.id else |i.msg| > |j.msg|
    else
      i.transmits < j.transmits
  }

  ghost predicate DistinctIds(items: set<Item>) {
    forall i, j :: i in items && j in items && i.id == j.id ==> i == j
  }

  predicate IsLeast(m: Item, items: set<Item>) {
    m in items && forall x :: x in items && x != m ==> Less(m, x)
  }

  lemma {:induction false} LeastExists(items: set<Item>)
    requires items != {} && DistinctIds(items)
    ensures exists m :: IsLeast(m, items)
  {
    var x :| x in items;
    var others := items - {x};
    assert forall y :: y in items ==> y == x || y in others;
    if others == {} {
      assert IsLeast(x, items);
    } else {
      LeastExists(others);
      var m :| IsLeast(m, others);
      assert if Less(m, x) then IsLeast(m, items) else IsLeast(x, items);
    }
  }

  ghost function Elems(s: seq<Item>): set<Item> {
    set it | it in s
  }

  ghost predicate Ordered(s: seq<Item>) {
    forall i, j :: 0 <= i < j < |s| ==> Less(s[i], s[j])
  }

  lemma NoElems(s: seq<Item>)
    ensures Elems(s) == {} <==> s == []
  {
    if s != [] {
      assert s[0] in Elems(s);
    }
  }

  lemma Cons(m: Item, s: seq<Item>)
    ensures Elems([m] + s) == {m} + Elems(s)
    ensures Ordered(s) && (forall x :: x in Elems(s) ==> Less(m, x)) ==> Ordered([m] + s)
  {
    assert forall k :: 0 <= k < |s| ==> s[k] in Elems(s);
  }

  lemma Uncons(s: seq<Item>)
    requires s != [] && Ordered(s)
    ensures Elems(s) == {s[0]} + Elems(s[1..]) && s[0] !in Elems(s[1..])
    ensures Ordered(s[1..]) && forall x :: x in Elems(s[1..]) ==> Less(s[0], x)
  {
    assert s == [s[0]] + s[1..];
    Cons(s[0], s[1..]);
  }

  ghost predicate IsSorting(s: seq<Item>, items: set<Item>) {
    Elems(s) == items && Ordered(s)
  }

  lemma {:induction false} SortingExists(items: set<Item>) returns (s: seq<Item>)
    requires DistinctIds(items)
    ensures IsSorting(s, items)
  {
    if items == {} {
      s := [];
    } else {
      LeastExists(items);
      var m :| IsLeast(m, items);
      var rest := SortingExists(items - {m});
      Cons(m, rest);
      s := [m] + rest;
    }
  }

  /** The queue in the order in which its heap gives items up. */
  ghost function Sorted(items: set<Item>): seq<Item> {
    if exists s :: IsSorting(s, items) then var s :| IsSorting(s, items); s else []
  }

  lemma SortedSorts(items: set<Item>)
    requires DistinctIds(items)
    ensures IsSorting(Sorted(items), items)
  {
    var s := SortingExists(items);
  }

  lemma SameTail(s: seq<Item>, t: seq<Item>)
    requires Ordered(s) && Ordered(t) && s != [] && t != [] && Elems(s) == Elems(t) && s[0] == t[0]
    ensures Elems(s[1..]) <= Elems(t[1..])
  {
    forall x | x in s[1..] ensures x in t[1..] {
      assert x in Elems(t) && Less(s[0], x);
    }
  }

  /** There is only one such order. */
  lemma {:induction false} SortedIsUnique(s: seq<Item>, t: seq<Item>)
    requires Ordered(s) && Ordered(t) && Elems(s) == Elems(t)
    ensures s == t
  {
    if s != [] && t != [] {
      assert s[0] in Elems(t) && t[0] in Elems(s);
      assert s[0] == t[0];
      SameTail(s, t);
      SameTail(t, s);
      SortedIsUnique(s[1..], t[1..]);
    } else {
      NoElems(s);
      NoElems(t);
    }
  }

  lemma SortedIs(s: seq<Item>)
    requires Ordered(s)
    ensures Sorted(Elems(s)) == s
  {
    assert IsSorting(s, Elems(s));
    SortedIsUnique(s, Sorted(Elems(s)));
  }

  lemma PopIsHead(items: set<Item>, m: Item)
    requires DistinctIds(items) && IsLeast(m, items)
    ensures Sorted(items) == [m] + Sorted(items - {m})
  {
    var rest := Sorted(items - {m});
    SortedSorts(items - {m});
    Cons(m, rest);
    assert Elems([m] + rest) == items;
    SortedIs([m] + rest);
  }

  // ---------- The greedy pass ----------

  datatype Choice = Choice(picked: seq<Item>, rest: seq<Item>)

  /** Take from the sorted queue what still fits; stop when not even a minimal message would. */
  function Pick(s: seq<Item>, used: nat, overhead: nat, size: int): Choice {
    if s == [] || used + MIN_MESSAGE + overhead > size then
      Choice([], s)
    else if used + |s[0].msg| + overhead > size then
      var c := Pick(s[1..], used, overhead, size);
      Choice(c.picked, [s[0]] + c.rest)
    else
      var c := Pick(s[1..], used + |s[0].msg| + overhead, overhead, size);
      Choice([s[0]] + c.picked, c.rest)
  }

  function Load(s: seq<Item>, overhead: nat): nat {
    if s == [] then 0 else |s[0].msg| + overhead + Load(s[1..], overhead)
  }

  /** The pass stays within its budget, and what it leaves behind would not have fitted, or the
      room left is below the smallest message worth looking for. */
  lemma {:induction false} PickFillsBudget(s: seq<Item>, used: nat, overhead: nat, size: int)
    ensures var c := Pick(s, used, overhead, size);
            var total := used + Load(c.picked, overhead);
            && (used <= size ==> total <= size)
            && (total + 20 + overhead > size
                || forall it :: it in c.rest ==> total + |it.msg| + overhead > size)
  {
    if s == [] || used + MIN_MESSAGE + overhead > size {
    } else if used + |s[0].msg| + overhead > size {
      PickFillsBudget(s[1..], used, overhead, size);
    } else {
      var c := Pick(s[1..], used + |s[0].msg| + overhead, overhead, size);
      PickFillsBudget(s[1..], used + |s[0].msg| + overhead, overhead, size);
      assert ([s[0]] + c.picked)[1..] == c.picked;
    }
  }

  /** The pass splits the queue in two, and both parts keep the queue's order. */
  lemma {:induction false} PickPartitions(s: seq<Item>, used: nat, overhead: nat, size: int)
    requires Ordered(s)
    ensures var c := Pick(s, used, overhead, size);
            && Elems(c.picked) + Elems(c.rest) == Elems(s) && Elems(c.picked) !! Elems(c.rest)
            && Ordered(c.picked) && Ordered(c.rest)
  {
    if s != [] && used + MIN_MESSAGE + overhead <= size {
      var used' := if used + |s[0].msg| + overhead > size then used else used + |s[0].msg| + overhead;
      var c := Pick(s[1..], used', overhead, size);
      Uncons(s);
      PickPartitions(s[1..], used', overhead, size);
      Cons(s[0], c.picked);
      Cons(s[0], c.rest);
    }
  }

  lemma FirstPicked(s: seq<Item>, used: nat, overhead: nat, size: int)
    requires s != [] && used + MIN_MESSAGE + overhead <= size
    ensures var used' := if used + |s[0].msg| + overhead <= size then used + |s[0].msg| + overhead else used;
            var later := Pick(s[1..], used', overhead, size).picked;
            used + Load(Pick(s, used, overhead, size).picked, overhead) == used' + Load(later, overhead)
  {
    if used + |s[0].msg| + overhead <= size {
      var c := Pick(s[1..], used + |s[0].msg| + overhead, overhead, size);
      assert ([s[0]] + c.picked)[1..] == c.picked;
    }
  }

  lemma {:induction false} HeadPicked(s: seq<Item>, used: nat, overhead: nat, size: int)
    requires s != [] && Ordered(s)
    ensures s[0] in Pick(s, used, overhead, size).picked
       <==> used + Max(MIN_MESSAGE, |s[0].msg|) + overhead <= size
  {
    Uncons(s);
    PickPartitions(s[1..], used, overhead, size);
    var c := Pick(s[1..], used, overhead, size);
    assert s[0] !in Elems(c.picked);
  }

  lemma TailPicked(s: seq<Item>, used: nat, overhead: nat, size: int, x: Item)
    requires s != [] && x != s[0] && used + MIN_MESSAGE + overhead <= size
    ensures var used' := if used + |s[0].msg| + overhead <= size then used + |s[0].msg| + overhead else used;
            x in Pick(s, used, overhead, size).picked <==> x in Pick(s[1..], used', overhead, size).picked
  {
  }

  /** Nothing jumps the queue: item `i` is taken exactly if it fits beside the items taken before it
      and the pass has not stopped by then. */
  lemma {:induction false} PickIsGreedy(s: seq<Item>, used: nat, overhead: nat, size: int, i: nat)
    requires Ordered(s) && i < |s|
    ensures var before := used + Load(Pick(s[..i], used, overhead, size).picked, overhead);
            s[i] in Pick(s, used, overhead, size).picked
            <==> before + Max(20, |s[i].msg|) + overhead <= size
  {
    if used + MIN_MESSAGE + overhead > size {
      assert Pick(s[..i], used, overhead, size).picked == [];
    } else if i == 0 {
      HeadPicked(s, used, overhead, size);
    } else {
      var used' := if used + |s[0].msg| + overhead <= size then used + |s[0].msg| + overhead else used;
      Uncons(s);
      assert Less(s[0], s[i]);
      TailPicked(s, used, overhead, size, s[i]);
      PickIsGreedy(s[1..], used', overhead, size, i - 1);
      FirstPicked(s[..i], used, overhead, size);
      assert s[..i][1..] == s[1..][..i - 1];
    }
  }

  // ---------- Which order it is ----------

  /** `x` goes out before `y`: it was sent less often, or as often and is longer, or is as long and newer. */
  predicate GoesFirst(x: Item, y: Item) {
    && x.transmits <= y.transmits
    && (x.transmits == y.transmits ==> |x.msg| >= |y.msg|)
    && (x.transmits == y.transmits && |x.msg| == |y.msg| ==> x.id > y.id)
  }

  /** The queue gives up what was sent least, then what is longest, then what is newest. */
  lemma SortedGoesFirst(items: set<Item>, i: nat, j: nat)
    requires DistinctIds(items) && i < j < |Sorted(items)|
    ensures GoesFirst(Sorted(items)[i], Sorted(items)[j])
  {
    SortedSorts(items);
    assert Less(Sorted(items)[i], Sorted(items)[j]);
  }

  /** The bytes taken when item `i` is looked at. */
  function TakenBefore(s: seq<Item>, used: nat, overhead: nat, size: int, i: nat): nat
    requires i <= |s|
  {
    used + Load(Pick(s[..i], used, overhead, size).picked, overhead)
  }

  lemma {:induction false} TakenGrows(s: seq<Item>, used: nat, overhead: nat, size: int, i: nat, j: nat)
    requires i <= j <= |s|
    ensures TakenBefore(s, used, overhead, size, i) <= TakenBefore(s, used, overhead, size, j)
  {
    if i > 0 && used + MIN_MESSAGE + overhead <= size {
      var used' := if used + |s[0].msg| + overhead <= size then used + |s[0].msg| + overhead else used;
      TakenGrows(s[1..], used', overhead, size, i - 1, j - 1);
      FirstPicked(s[..i], used, overhead, size);
      FirstPicked(s[..j], used, overhead, size);
      assert s[..i][1..] == s[1..][..i - 1] && s[..j][1..] == s[1..][..j - 1];
    } else if i > 0 {
      assert Pick(s[..i], used, overhead, size).picked == [] && Pick(s[..j], used, overhead, size).picked == [];
    }
  }

  lemma {:induction false} PickedAfterPassedOver(s: seq<Item>, used: nat, overhead: nat, size: int, i: nat, j: nat)
    requires Ordered(s) && i < j < |s|
    requires s[i] !in Pick(s, used, overhead, size).picked && s[j] in Pick(s, used, overhead, size).picked
    ensures TakenBefore(s, used, overhead, size, i) + |s[i].msg| + overhead > size
  {
    PickIsGreedy(s, used, overhead, size, i);
    PickIsGreedy(s, used, overhead, size, j);
    TakenGrows(s, used, overhead, size, i, j);
  }

  lemma OrderedByTransmits(s: seq<Item>)
    requires Ordered(s)
    ensures forall i, j :: 0 <= i <= j < |s| ==> s[i].transmits <= s[j].transmits
  {
  }

  /** Nothing is passed over in favour of something sent more often unless it did not fit when it was
      looked at. */
  lemma {:induction false} PassedOverDidNotFit(s: seq<Item>, overhead: nat, size: int, x: Item, y: Item)
    requires Ordered(s) && x in Pick(s, 0, overhead, size).rest && y in Pick(s, 0, overhead, size).picked
    requires x.transmits < y.transmits
    ensures exists i: nat :: i < |s| && s[i] == x && TakenBefore(s, 0, overhead, size, i) + |x.msg| + overhead > size
  {
    var c := Pick(s, 0, overhead, size);
    PickPartitions(s, 0, overhead, size);
    assert x in Elems(c.rest) && y in Elems(c.picked) && x in Elems(s) && y in Elems(s);
    var i: nat :| i < |s| && s[i] == x;
    var j: nat :| j < |s| && s[j] == y;
    OrderedByTransmits(s);
    assert x !in c.picked by {
      assert x !in Elems(c.picked);
    }
    PickedAfterPassedOver(s, 0, overhead, size, i, j);
  }
}
