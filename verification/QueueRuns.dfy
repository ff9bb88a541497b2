/** Whole runs of the broadcast queue: every message is accounted for. */
module QueueRuns {
  import opened Types
  import opened Queue

  // ---------- The transmit limit ----------

  function Pow10(k: nat): nat {
    if k == 0 then 1 else 10 * Pow10(k - 1)
  }

  /** Decimal digits of `n`, none for 0. */
  function Digits(n: nat): nat {
    if n == 0 then 0 else 1 + Digits(n / 10)
  }

  /** `k` is the ceiling of log10(m). */
  ghost predicate IsCeilLog10(k: nat, m: nat) {
    m <= Pow10(k) && (k > 0 ==> Pow10(k - 1) < m)
  }

  lemma {:induction false} PowGrows(j: nat, k: nat)
    requires j < k
    ensures Pow10(j) < Pow10(k) && Pow10(j) > 0
    decreases k
  {
    if j + 1 < k {
      PowGrows(j, k - 1);
    } else if j > 0 {
      PowGrows(j - 1, j);
    }
  }

  lemma {:induction false} DigitsIsCeilLog(n: nat)
    ensures IsCeilLog10(Digits(n), n + 1)
  {
    if n > 0 {
      DigitsIsCeilLog(n / 10);
      if n >= 10 {
        assert n / 10 >= Pow10(Digits(n / 10) - 1);
        assert Pow10(Digits(n / 10)) == 10 * Pow10(Digits(n / 10) - 1);
      }
    }
  }

  /** The limit for a cluster of `n`: `scale` times the ceiling of log10(n + 1). */
  function TransmitLimit(scale: int, n: nat): int {
    scale * Digits(n)
  }

  lemma CeilLogIsUnique(j: nat, k: nat, m: nat)
    requires IsCeilLog10(j, m) && IsCeilLog10(k, m)
    ensures j >= k
  {
    if j < k - 1 {
      PowGrows(j, k - 1);
    }
  }

  /** The only integer that the ceiling of log10(n + 1) can be is the number of digits of `n`, and the limit
      is that times the scale. */
  lemma {:induction false} LimitIsLogarithmic(scale: int, n: nat, k: nat)
    ensures IsCeilLog10(k, n + 1) <==> k == Digits(n)
    ensures IsCeilLog10(k, n + 1) ==> TransmitLimit(scale, n) == scale * k
  {
    DigitsIsCeilLog(n);
    if IsCeilLog10(k, n + 1) {
      CeilLogIsUnique(k, Digits(n), n + 1);
      CeilLogIsUnique(Digits(n), k, n + 1);
    }
  }

  // ---------- The queue with its record ----------

  /** `born` counts the messages ever queued, `finished` and `sent` record by serial how often each was
      finished and handed out; they record the run and steer nothing. */
  datatype Account = Account(
    items: set<Item>, idSeq: nat, born: nat, finished: map<nat, nat>, sent: map<nat, nat>)

  function Times(m: map<nat, nat>, serial: nat): nat {
    if serial in m then m[serial] else 0
  }

  function Bump(m: map<nat, nat>, it: Item): map<nat, nat> {
    m[it.serial := Times(m, it.serial) + 1]
  }

  /** Add one for every item of `s`. */
  function Tally(m: map<nat, nat>, s: seq<Item>): map<nat, nat>
    decreases |s|
  {
    if s == [] then m else Tally(Bump(m, s[0]), s[1..])
  }

  /** The queued items that a new message named `name` replaces. */
  function Replaced(items: set<Item>, name: Id): set<Item> {
    set it | it in items && name != NO_ID && it.name == name
  }

  ghost function QueueMsg(q: Account, name: Id, msg: Bytes): Account {
    var gone := Replaced(q.items, name);
    Account(q.items - gone + {Item(name, q.idSeq, 0, msg, q.born)}, q.idSeq + 1, q.born + 1,
            Tally(q.finished, Sorted(gone)), q.sent)
  }

  /** What goes back into the queue after a transmission, and what is finished. */
  function Again(picked: seq<Item>, limit: int): seq<Item> {
    if picked == [] then []
    else
      var it, rest := picked[0].Sent(), Again(picked[1..], limit);
      if it.transmits >= limit then rest else [it] + rest
  }

  function Done(picked: seq<Item>, limit: int): seq<Item> {
    if picked == [] then []
    else
      var rest := Done(picked[1..], limit);
      if picked[0].Sent().transmits >= limit then [picked[0]] + rest else rest
  }

  ghost function GetMessages(q: Account, overhead: nat, size: int, limit: int): Account {
    if size <= overhead || q.items == {} then q
    else
      var c := Pick(Sorted(q.items), 0, overhead, size);
      var items := Elems(c.rest) + Elems(Again(c.picked, limit));
      Account(items, if items == {} then 0 else q.idSeq, q.born,
              Tally(q.finished, Done(c.picked, limit)), Tally(q.sent, c.picked))
  }

  /** Drop from the front of the queue until `size` items are left. */
  ghost function Resize(q: Account, size: nat): Account {
    var s := Sorted(q.items);
    if |s| <= size then q
    else
      q.(items := Elems(s[|s| - size..]), finished := Tally(q.finished, s[..|s| - size]))
  }

  // ---------- The invariant ----------

  predicate Clash(i: Item, j: Item) {
    i.id == j.id || i.serial == j.serial || (i.name == j.name && i.name != NO_ID)
  }

  /** No two items share an id, a serial or a name. */
  ghost predicate Apart(items: set<Item>) {
    forall i, j {:trigger Clash(i, j)} :: i in items && j in items && Clash(i, j) ==> i == j
  }

  ghost predicate Carries(items: set<Item>, serial: nat) {
    exists it :: it in items && it.serial == serial
  }

  /** A queued item: its id and serial have been given out, its transmit count is what was handed out,
      and it is below the limit. */
  predicate ItemInv(q: Account, cap: int, it: Item) {
    it.id < q.idSeq && it.serial < q.born && it.transmits == Times(q.sent, it.serial) && it.transmits < Max(1, cap)
  }

  /** A message is queued, or was finished exactly once; it was handed out at most max(1, cap) times. */
  ghost predicate SerialInv(q: Account, cap: int, serial: nat) {
    && Times(q.finished, serial) == (if serial >= q.born || Carries(q.items, serial) then 0 else 1)
    && Times(q.sent, serial) <= (if serial < q.born then Max(1, cap) else 0)
  }

  ghost predicate QueueInv(q: Account, cap: int) {
    && Apart(q.items)
    && (forall it :: it in q.items ==> ItemInv(q, cap, it))
    && (forall serial: nat :: SerialInv(q, cap, serial))
  }

  // ---------- Tallies ----------

  ghost predicate OneEach(s: seq<Item>) {
    forall i, j :: 0 <= i < j < |s| ==> s[i].serial != s[j].serial
  }

  lemma ApartIsDistinct(items: set<Item>, part: set<Item>)
    requires Apart(items) && part <= items
    ensures DistinctIds(part) && Apart(part)
  {
    forall i, j | i in part && j in part && i.id == j.id ensures i == j {
      assert Clash(i, j);
    }
  }

  lemma OrderedIsOneEach(s: seq<Item>)
    requires Ordered(s) && Apart(Elems(s))
    ensures OneEach(s)
  {
    forall i, j | 0 <= i < j < |s| ensures s[i].serial != s[j].serial {
      assert s[i] in Elems(s) && s[j] in Elems(s) && Less(s[i], s[j]);
      assert s[i].serial == s[j].serial ==> Clash(s[i], s[j]);
    }
  }

  lemma {:induction false} TallyAddsOne(m: map<nat, nat>, s: seq<Item>, serial: nat)
    requires OneEach(s)
    ensures Times(Tally(m, s), serial) == Times(m, serial) + (if Carries(Elems(s), serial) then 1 else 0)
    decreases |s|
  {
    if s != [] {
      TallyAddsOne(Bump(m, s[0]), s[1..], serial);
      assert s == [s[0]] + s[1..];
      Cons(s[0], s[1..]);
      assert s[0] in Elems(s);
      assert forall it :: it in Elems(s[1..]) ==> it.serial != s[0].serial;
      assert Carries(Elems(s), serial) <==> serial == s[0].serial || Carries(Elems(s[1..]), serial);
    }
  }

  lemma {:induction false} DoneElems(picked: seq<Item>, limit: int)
    ensures Elems(Done(picked, limit)) == set it | it in Elems(picked) && it.transmits + 1 >= limit
  {
    if picked != [] {
      DoneElems(picked[1..], limit);
      assert [picked[0]] + picked[1..] == picked;
      Cons(picked[0], picked[1..]);
      Cons(picked[0], Done(picked[1..], limit));
    }
  }

  lemma {:induction false} AgainElems(picked: seq<Item>, limit: int)
    ensures Elems(Again(picked, limit)) == set it | it in Elems(picked) && it.transmits + 1 < limit :: it.Sent()
  {
    if picked != [] {
      AgainElems(picked[1..], limit);
      assert [picked[0]] + picked[1..] == picked;
      Cons(picked[0], picked[1..]);
      Cons(picked[0].Sent(), Again(picked[1..], limit));
    }
  }

  lemma {:induction false} DoneOneEach(picked: seq<Item>, limit: int)
    requires OneEach(picked)
    ensures OneEach(Done(picked, limit))
  {
    if picked != [] {
      var done := Done(picked[1..], limit);
      DoneOneEach(picked[1..], limit);
      DoneElems(picked[1..], limit);
      forall k | 0 <= k < |done| ensures done[k].serial != picked[0].serial {
        assert done[k] in Elems(done);
        assert done[k] in picked[1..];
      }
    }
  }

  // ---------- Every operation keeps it ----------

  lemma CarriesOne(items: set<Item>, it: Item)
    requires it in items
    ensures Carries(items, it.serial)
  {
  }

  lemma NewItemApart(q: Account, cap: int, part: set<Item>, name: Id, msg: Bytes)
    requires QueueInv(q, cap) && part == q.items - Replaced(q.items, name)
    ensures Apart(part + {Item(name, q.idSeq, 0, msg, q.born)})
  {
    var it := Item(name, q.idSeq, 0, msg, q.born);
    forall x | x in part ensures !Clash(x, it) && !Clash(it, x) {
      assert ItemInv(q, cap, x);
    }
  }

  lemma QueueMsgSerial(q: Account, cap: int, name: Id, msg: Bytes, serial: nat)
    requires QueueInv(q, cap)
    ensures SerialInv(QueueMsg(q, name, msg), cap, serial)
  {
    var gone := Replaced(q.items, name);
    var q' := QueueMsg(q, name, msg);
    ApartIsDistinct(q.items, gone);
    SortedSorts(gone);
    OrderedIsOneEach(Sorted(gone));
    TallyAddsOne(q.finished, Sorted(gone), serial);
    assert SerialInv(q, cap, serial);
    CarriesOne(q'.items, Item(name, q.idSeq, 0, msg, q.born));
    if Carries(q.items, serial) {
      var x :| x in q.items && x.serial == serial;
      assert ItemInv(q, cap, x);
      assert forall y :: y in q.items && y.serial == serial ==> Clash(x, y);
      assert Carries(gone, serial) <==> x in gone;
      assert Carries(q'.items, serial) <==> x !in gone;
    } else {
      assert Carries(q'.items, serial) <==> serial == q.born;
    }
  }

  lemma QueueMsgKeeps(q: Account, cap: int, name: Id, msg: Bytes)
    requires QueueInv(q, cap)
    ensures QueueInv(QueueMsg(q, name, msg), cap)
  {
    var q' := QueueMsg(q, name, msg);
    NewItemApart(q, cap, q.items - Replaced(q.items, name), name, msg);
    forall serial: nat ensures SerialInv(q', cap, serial) {
      QueueMsgSerial(q, cap, name, msg, serial);
    }
    assert SerialInv(q, cap, q.born);
    forall it | it in q'.items ensures ItemInv(q', cap, it) {
      assert it in q.items ==> ItemInv(q, cap, it);
    }
  }

  /** The queue of `q` as one pass over it leaves it. */
  ghost predicate Pass(q: Account, cap: int, c: Choice, limit: int) {
    && QueueInv(q, cap) && limit <= cap
    && Elems(c.picked) + Elems(c.rest) == q.items && Elems(c.picked) !! Elems(c.rest)
    && OneEach(c.picked) && OneEach(Done(c.picked, limit))
    && Elems(Done(c.picked, limit)) == (set it | it in Elems(c.picked) && it.transmits + 1 >= limit)
    && Elems(Again(c.picked, limit)) == (set it | it in Elems(c.picked) && it.transmits + 1 < limit :: it.Sent())
  }

  lemma {:induction false} PickIsPass(q: Account, cap: int, overhead: nat, size: int, limit: int)
    requires QueueInv(q, cap) && limit <= cap
    ensures Pass(q, cap, Pick(Sorted(q.items), 0, overhead, size), limit)
  {
    var c := Pick(Sorted(q.items), 0, overhead, size);
    ApartIsDistinct(q.items, q.items);
    SortedSorts(q.items);
    PickPartitions(Sorted(q.items), 0, overhead, size);
    ApartIsDistinct(q.items, Elems(c.picked));
    OrderedIsOneEach(c.picked);
    DoneOneEach(c.picked, limit);
    DoneElems(c.picked, limit);
    AgainElems(c.picked, limit);
  }

  /** The account after a pass. */
  ghost function Passed(q: Account, c: Choice, limit: int, idSeq: nat): Account {
    Account(Elems(c.rest) + Elems(Again(c.picked, limit)), idSeq, q.born,
            Tally(q.finished, Done(c.picked, limit)), Tally(q.sent, c.picked))
  }

  /** The item of `q` that `it` was before the pass. */
  lemma Origin(q: Account, cap: int, c: Choice, limit: int, it: Item) returns (x: Item)
    requires Pass(q, cap, c, limit) && it in Elems(c.rest) + Elems(Again(c.picked, limit))
    ensures x in q.items && ItemInv(q, cap, x)
    ensures x in Elems(c.rest) ==> it == x
    ensures x in Elems(c.picked) ==> it == x.Sent() && x.transmits + 1 < limit
  {
    if it in Elems(c.rest) {
      x := it;
    } else {
      x :| x in Elems(c.picked) && x.transmits + 1 < limit && it == x.Sent();
    }
  }

  lemma {:induction false} PassApart(q: Account, cap: int, c: Choice, limit: int)
    requires Pass(q, cap, c, limit)
    ensures Apart(Elems(c.rest) + Elems(Again(c.picked, limit)))
  {
    var items := Elems(c.rest) + Elems(Again(c.picked, limit));
    forall i, j | i in items && j in items && Clash(i, j) ensures i == j {
      var x := Origin(q, cap, c, limit, i);
      var y := Origin(q, cap, c, limit, j);
      assert Clash(x, y);
    }
  }

  lemma {:induction false} SerialPicked(q: Account, cap: int, c: Choice, limit: int, x: Item)
    requires Pass(q, cap, c, limit) && x in q.items
    ensures Carries(Elems(c.picked), x.serial) <==> x in Elems(c.picked)
    ensures Carries(Elems(Done(c.picked, limit)), x.serial) <==> x in Elems(Done(c.picked, limit))
    ensures Carries(Elems(c.rest) + Elems(Again(c.picked, limit)), x.serial)
       <==> x !in Elems(Done(c.picked, limit))
  {
    assert forall y :: y in q.items && y.serial == x.serial ==> Clash(x, y);
    var items := Elems(c.rest) + Elems(Again(c.picked, limit));
    if Carries(items, x.serial) {
      var it :| it in items && it.serial == x.serial;
      var y := Origin(q, cap, c, limit, it);
      assert x == y;
    }
    if x in Elems(c.picked) && x.transmits + 1 < limit {
      CarriesOne(items, x.Sent());
    }
  }

  lemma PassKeepsSerial(q: Account, cap: int, c: Choice, limit: int, idSeq: nat, serial: nat)
    requires Pass(q, cap, c, limit)
    ensures SerialInv(Passed(q, c, limit, idSeq), cap, serial)
  {
    assert SerialInv(q, cap, serial);
    TallyAddsOne(q.finished, Done(c.picked, limit), serial);
    TallyAddsOne(q.sent, c.picked, serial);
    if Carries(q.items, serial) {
      var x :| x in q.items && x.serial == serial;
      assert ItemInv(q, cap, x);
      SerialPicked(q, cap, c, limit, x);
    } else {
      var items := Elems(c.rest) + Elems(Again(c.picked, limit));
      forall it | it in items ensures it.serial != serial {
        var y := Origin(q, cap, c, limit, it);
        CarriesOne(q.items, y);
      }
      assert !Carries(Elems(c.picked), serial);
      assert !Carries(Elems(Done(c.picked, limit)), serial);
    }
  }

  lemma PassKeepsItem(q: Account, cap: int, c: Choice, limit: int, it: Item)
    requires Pass(q, cap, c, limit) && it in Passed(q, c, limit, q.idSeq).items
    ensures ItemInv(Passed(q, c, limit, q.idSeq), cap, it)
  {
    var x := Origin(q, cap, c, limit, it);
    TallyAddsOne(q.sent, c.picked, it.serial);
    SerialPicked(q, cap, c, limit, x);
  }

  lemma GetMessagesKeeps(q: Account, cap: int, overhead: nat, size: int, limit: int)
    requires QueueInv(q, cap) && limit <= cap
    ensures QueueInv(GetMessages(q, overhead, size, limit), cap)
  {
    if !(size <= overhead || q.items == {}) {
      var q' := GetMessages(q, overhead, size, limit);
      var c := Pick(Sorted(q.items), 0, overhead, size);
      PickIsPass(q, cap, overhead, size, limit);
      PassApart(q, cap, c, limit);
      forall serial: nat ensures SerialInv(q', cap, serial) {
        PassKeepsSerial(q, cap, c, limit, q'.idSeq, serial);
      }
      forall it | it in q'.items ensures ItemInv(q', cap, it) {
        PassKeepsItem(q, cap, c, limit, it);
      }
    }
  }

  /** What a call that hands messages out does to each queued item: one that is passed over stays as it is,
      one that is picked is counted and stays until it has been sent as often as the limit says, and then
      it is finished. The counter of ids starts over exactly when the queue is empty. */
  lemma {:induction false} TakenExactly(q: Account, cap: int, overhead: nat, size: int, limit: int, x: Item)
    requires QueueInv(q, cap) && limit <= cap && size > overhead && x in q.items
    ensures var q', picked := GetMessages(q, overhead, size, limit), Pick(Sorted(q.items), 0, overhead, size).picked;
            && q'.idSeq == (if q'.items == {} then 0 else q.idSeq)
            && (x !in picked ==> x in q'.items && Times(q'.sent, x.serial) == x.transmits)
            && (x in picked ==> Times(q'.sent, x.serial) == x.transmits + 1)
            && (x in picked && x.transmits + 1 < limit ==> x.(transmits := x.transmits + 1) in q'.items)
            && (x in picked && x.transmits + 1 >= limit ==>
                  !Carries(q'.items, x.serial) && Times(q'.finished, x.serial) == 1)
  {
    var c := Pick(Sorted(q.items), 0, overhead, size);
    PickIsPass(q, cap, overhead, size, limit);
    assert ItemInv(q, cap, x) && SerialInv(q, cap, x.serial);
    CarriesOne(q.items, x);
    SerialPicked(q, cap, c, limit, x);
    TallyAddsOne(q.sent, c.picked, x.serial);
    TallyAddsOne(q.finished, Done(c.picked, limit), x.serial);
    assert x in c.picked <==> x in Elems(c.picked);
  }

  lemma SplitElems(s: seq<Item>, k: nat)
    requires Ordered(s) && k <= |s|
    ensures Elems(s[..k]) + Elems(s[k..]) == Elems(s) && Elems(s[..k]) !! Elems(s[k..])
    ensures Ordered(s[..k]) && Ordered(s[k..])
  {
    assert s == s[..k] + s[k..];
    forall x | x in Elems(s[..k]) ensures x !in Elems(s[k..]) {
      var i :| 0 <= i < k && s[i] == x;
      forall j | k <= j < |s| ensures s[j] != x {
        assert Less(s[i], s[j]);
      }
    }
  }

  lemma {:induction false} CutKeepsSerial(q: Account, cap: int, cut: seq<Item>, kept: set<Item>, serial: nat)
    requires QueueInv(q, cap) && OneEach(cut) && Elems(cut) + kept == q.items && Elems(cut) !! kept
    ensures SerialInv(q.(items := kept, finished := Tally(q.finished, cut)), cap, serial)
  {
    assert SerialInv(q, cap, serial);
    TallyAddsOne(q.finished, cut, serial);
    if Carries(q.items, serial) {
      var x :| x in q.items && x.serial == serial;
      assert ItemInv(q, cap, x);
      assert forall y :: y in q.items && y.serial == serial ==> Clash(x, y);
      assert Carries(Elems(cut), serial) <==> x in Elems(cut);
      assert Carries(kept, serial) <==> x in kept;
    } else {
      assert !Carries(Elems(cut), serial) && !Carries(kept, serial);
    }
  }

  lemma {:induction false} CutKeeps(q: Account, cap: int, cut: seq<Item>, kept: set<Item>)
    requires QueueInv(q, cap) && OneEach(cut) && Elems(cut) + kept == q.items && Elems(cut) !! kept
    ensures QueueInv(q.(items := kept, finished := Tally(q.finished, cut)), cap)
  {
    var q' := q.(items := kept, finished := Tally(q.finished, cut));
    forall serial: nat ensures SerialInv(q', cap, serial) {
      CutKeepsSerial(q, cap, cut, kept, serial);
    }
    forall it | it in kept ensures ItemInv(q', cap, it) {
      assert ItemInv(q, cap, it);
    }
  }

  lemma FrontKeeps(q: Account, cap: int, s: seq<Item>, n: nat)
    requires QueueInv(q, cap) && IsSorting(s, q.items) && n <= |s|
    ensures QueueInv(q.(items := Elems(s[n..]), finished := Tally(q.finished, s[..n])), cap)
  {
    SplitElems(s, n);
    ApartIsDistinct(q.items, Elems(s[..n]));
    OrderedIsOneEach(s[..n]);
    CutKeeps(q, cap, s[..n], Elems(s[n..]));
  }

  lemma ResizeKeeps(q: Account, cap: int, size: nat)
    requires QueueInv(q, cap)
    ensures QueueInv(Resize(q, size), cap)
  {
    ApartIsDistinct(q.items, q.items);
    SortedSorts(q.items);
    var s := Sorted(q.items);
    if |s| > size {
      FrontKeeps(q, cap, s, |s| - size);
    }
  }

  // ---------- Whole runs ----------

  datatype Call = Queued(name: Id, msg: Bytes) | Taken(overhead: nat, size: int, limit: int) | Resized(keep: nat)

  /** The calls made so far, oldest first. */
  datatype Calls = Fresh | And(before: Calls, call: Call)

  const EMPTY := Account({}, 0, 0, map[], map[])

  /** No call so far had a limit above `cap`. */
  predicate LimitsWithin(calls: Calls, cap: int) {
    calls.And? ==> LimitsWithin(calls.before, cap) && (calls.call.Taken? ==> calls.call.limit <= cap)
  }

  ghost function Apply(q: Account, call: Call): Account {
    match call
    case Queued(name, msg) => QueueMsg(q, name, msg)
    case Taken(overhead, size, limit) => GetMessages(q, overhead, size, limit)
    case Resized(keep) => Resize(q, keep)
  }

  /** The queue after `calls`. */
  ghost function After(calls: Calls): Account {
    match calls
    case Fresh => EMPTY
    case And(before, call) => Apply(After(before), call)
  }

  lemma EmptyIsSound(cap: int)
    ensures QueueInv(EMPTY, cap)
  {
    forall serial: nat ensures SerialInv(EMPTY, cap, serial) {
      assert !Carries(EMPTY.items, serial);
    }
  }

  /** After any calls: queued ids and names are distinct and ids are below the counter, even across
      resets; every message queued so far is still queued or was finished exactly once; and none was
      handed out more than max(1, cap) times, where cap bounds the limits seen. */
  lemma {:induction false} Accounted(calls: Calls, cap: int)
    requires LimitsWithin(calls, cap)
    ensures QueueInv(After(calls), cap)
  {
    match calls
    case Fresh => EmptyIsSound(cap);
    case And(before, call) =>
      Accounted(before, cap);
      match call {
        case Queued(name, msg) => QueueMsgKeeps(After(before), cap, name, msg);
        case Taken(overhead, size, limit) => GetMessagesKeeps(After(before), cap, overhead, size, limit);
        case Resized(keep) => ResizeKeeps(After(before), cap, keep);
      }
  }

  // ---------- The queue by name ----------

  /** `msg` is queued under `name`. */
  ghost predicate Named(items: set<Item>, name: Id, msg: Bytes) {
    name != NO_ID && exists it :: it in items && it.name == name && it.msg == msg
  }

  /** Queueing under a name replaces what was there and touches no other name; handing messages out
      never puts one under a name that was not there. */
  lemma NamesFollowCalls(q: Account, cap: int, call: Call, name: Id, msg: Bytes)
    requires QueueInv(q, cap) && (call.Taken? ==> call.limit <= cap)
    ensures call.Queued? && call.name != NO_ID ==>
              (Named(Apply(q, call).items, name, msg)
               <==> if name == call.name then msg == call.msg else Named(q.items, name, msg))
    ensures call.Queued? && call.name == NO_ID ==>
              (Named(Apply(q, call).items, name, msg) <==> Named(q.items, name, msg))
    ensures !call.Queued? && Named(Apply(q, call).items, name, msg) ==> Named(q.items, name, msg)
  {
    ApartIsDistinct(q.items, q.items);
    SortedSorts(q.items);
    var q' := Apply(q, call);
    match call
    case Queued(n, m) =>
      var it := Item(n, q.idSeq, 0, m, q.born);
      assert it in q'.items;
      assert forall x :: x in q.items && x.name != n ==> x in q'.items;
      assert n == NO_ID ==> forall x :: x in q.items ==> x in q'.items;
    case Taken(overhead, size, limit) =>
      if Named(q'.items, name, msg) && q' != q {
        var it :| it in q'.items && it.name == name && it.msg == msg;
        PickIsPass(q, cap, overhead, size, limit);
        var x := Origin(q, cap, Pick(Sorted(q.items), 0, overhead, size), limit, it);
      }
    case Resized(keep) =>
      var s := Sorted(q.items);
      if |s| > keep {
        SplitElems(s, |s| - keep);
      }
  }
}
