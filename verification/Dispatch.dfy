/** What becomes of a received packet: nested compounds are taken apart, everything else is handed on. */
module Dispatch {
  import opened Types
  import opened Compound

  const PING_MSG: Byte := 0
  const INDIRECT_PING_MSG: Byte := 1
  const ACK_MSG: Byte := 2
  const INDIRECT_ACK_MSG: Byte := 3
  const ALIVE_MSG: Byte := 4
  const SUSPECT_MSG: Byte := 5
  const DEAD_MSG: Byte := 6
  const USER_MSG: Byte := 9

  predicate IsLongRun(kind: Byte) {
    kind == ALIVE_MSG || kind == SUSPECT_MSG || kind == DEAD_MSG || kind == USER_MSG
  }

  predicate IsQuick(kind: Byte) {
    kind == PING_MSG || kind == ACK_MSG || kind == INDIRECT_PING_MSG || kind == INDIRECT_ACK_MSG
  }

  datatype Action =
    | Enqueue(kind: Byte, body: Bytes)
    | Serve(kind: Byte, body: Bytes)
    | Complain

  lemma {:induction false} PartsShrink(lengths: seq<nat>, body: Bytes)
    ensures |Join(Carve(lengths, body).msgs)| <= |body|
    decreases |lengths|
  {
    if lengths != [] && |body| >= lengths[0] {
      var r := Carve(lengths[1..], body[lengths[0]..]);
      PartsShrink(lengths[1..], body[lengths[0]..]);
      assert ([body[..lengths[0]]] + r.msgs)[1..] == r.msgs;
    }
  }

  /** The parts of a compound, with one byte more for each, are shorter than the compound. */
  lemma UnpackShrinks(msg: Bytes)
    requires Unpack(msg).Parts?
    ensures |Join(Unpack(msg).msgs)| + 2 * |Unpack(msg).msgs| < |msg|
  {
    var numParts, rest := msg[0] as nat, msg[1..];
    PartsShrink(ReadLengths(rest, numParts), rest[2 * numParts..]);
  }

  lemma {:induction false} JoinCons(msgs: seq<Bytes>)
    requires msgs != []
    ensures |Join(msgs)| == |msgs[0]| + |Join(msgs[1..])|
  {
  }

  /** Everything that `handleUdpMsg` does about `msg`, in order. */
  function Handled(msg: Bytes): seq<Action>
    decreases |msg|, 0
  {
    if msg == [] then [Complain]
    else
      var kind, body := msg[0], msg[1..];
      if IsLongRun(kind) then [Enqueue(kind, body)]
      else if kind == COMPOUND_MSG then HandledCompound(body)
      else if IsQuick(kind) then [Serve(kind, body)]
      else [Complain]
  }

  function HandledCompound(msg: Bytes): seq<Action>
    decreases |msg|, 2
  {
    var parts := Unpack(msg);
    if !parts.Parts? then [Complain]
    else
      UnpackShrinks(msg);
      (if parts.trunc > 0 then [Complain] else []) + HandledAll(parts.msgs)
  }

  function HandledAll(msgs: seq<Bytes>): seq<Action>
    decreases |Join(msgs)| + |msgs|, 1
  {
    if msgs == [] then []
    else
      JoinCons(msgs);
      Handled(msgs[0]) + HandledAll(msgs[1..])
  }

  // ---------- How much work a packet can cause ----------

  /** The number of `handleUdpMsg` calls that handling `msg` takes, its own included. */
  function Calls(msg: Bytes): nat
    decreases |msg|, 0
  {
    if msg == [] || msg[0] != COMPOUND_MSG || !Unpack(msg[1..]).Parts? then 1
    else
      UnpackShrinks(msg[1..]);
      1 + CallsAll(Unpack(msg[1..]).msgs)
  }

  function CallsAll(msgs: seq<Bytes>): nat
    decreases |Join(msgs)| + |msgs|, 1
  {
    if msgs == [] then 0
    else
      JoinCons(msgs);
      Calls(msgs[0]) + CallsAll(msgs[1..])
  }

  /** However compounds are nested or cut off, a packet causes no more calls than it has bytes, or
      one call if it has none. */
  lemma {:induction false} CallsBounded(msg: Bytes)
    ensures Calls(msg) <= Max(1, |msg|)
    decreases |msg|, 0
  {
    if msg != [] && msg[0] == COMPOUND_MSG && Unpack(msg[1..]).Parts? {
      UnpackShrinks(msg[1..]);
      CallsAllBounded(Unpack(msg[1..]).msgs);
    }
  }

  lemma {:induction false} CallsAllBounded(msgs: seq<Bytes>)
    ensures CallsAll(msgs) <= |Join(msgs)| + |msgs|
    decreases |Join(msgs)| + |msgs|, 1
  {
    if msgs != [] {
      JoinCons(msgs);
      CallsBounded(msgs[0]);
      CallsAllBounded(msgs[1..]);
    }
  }

  // ---------- Packing changes nothing about handling ----------

  /** A compound is handled as its messages would be, one by one, in order. */
  lemma {:induction false} CompoundIsTransparent(msgs: seq<Bytes>)
    requires Packable(msgs)
    ensures Handled(Pack(msgs)) == HandledAll(msgs)
  {
    PackedIsUnpacked(msgs);
    assert [] + HandledAll(msgs) == HandledAll(msgs);
  }

  lemma {:induction false} HandledConcat(a: seq<Bytes>, b: seq<Bytes>)
    ensures HandledAll(a + b) == HandledAll(a) + HandledAll(b)
    decreases |a|
  {
    if a == [] {
      assert a + b == b;
    } else {
      HandledConcat(a[1..], b);
      assert (a + b)[1..] == a[1..] + b;
      assert Handled(a[0]) + (HandledAll(a[1..]) + HandledAll(b))
          == Handled(a[0]) + HandledAll(a[1..]) + HandledAll(b);
    }
  }

  /** Messages split over several compounds are handled as if sent on their own. */
  lemma {:induction false} SplitIsTransparent(msgs: seq<Bytes>)
    requires Short(msgs)
    ensures HandledAll(Split(msgs)) == HandledAll(msgs)
    decreases |msgs|
  {
    if |msgs| > MAX_MSGS {
      var first, more := msgs[..MAX_MSGS], msgs[MAX_MSGS..];
      CompoundIsTransparent(first);
      SplitIsTransparent(more);
      HandledConcat(first, more);
      assert ([Pack(first)] + Split(more))[1..] == Split(more);
      assert msgs == first + more;
    } else if msgs != [] {
      CompoundIsTransparent(msgs);
      assert [Pack(msgs)][1..] == [];
      assert HandledAll([Pack(msgs)]) == Handled(Pack(msgs)) + HandledAll([]);
    }
  }

  /** Which message goes where, by the number of its type: alive (4), suspect (5), dead (6) and user
      messages (9) are queued; pings and acks (0 to 3) are served at once; all else but compounds (8) is
      complained about. */
  lemma {:induction false} PlainIsHandled(kind: Byte, body: Bytes)
    requires kind != 8
    ensures Handled([kind] + body)
         == if kind == 4 || kind == 5 || kind == 6 || kind == 9 then [Enqueue(kind, body)]
            else if kind <= 3 then [Serve(kind, body)]
            else [Complain]
  {
    assert ([kind] + body)[1..] == body;
  }

  /** A compound that lost bytes off its end: inside the header nothing is handled, and else one complaint
      is followed by exactly the messages that are still whole, in order. */
  lemma {:induction false} CutIsHandled(msgs: seq<Bytes>, n: nat)
    requires Packable(msgs) && 0 < n < |Pack(msgs)|
    ensures var header := 1 + 2 * |msgs|;
            && (n - 1 < header ==> Handled(Pack(msgs)[..n]) == [Complain])
            && (n - 1 >= header ==>
                  var k := Whole(msgs, n - 1 - header);
                  Handled(Pack(msgs)[..n]) == (if k < |msgs| then [Complain] else []) + HandledAll(msgs[..k]))
  {
    CutCompound(msgs, n - 1);
    var cut := Pack(msgs)[..n];
    assert cut[0] == COMPOUND_MSG && cut[1..] == Pack(msgs)[1..n];
  }

  // ---------- The handlers ----------

  class Dispatcher {
    var actions: seq<Action>
    ghost var calls: nat

    method HandleUdpMsg(msg: Bytes)
      modifies this
      ensures actions == old(actions) + Handled(msg)
      ensures calls == old(calls) + Calls(msg)
      decreases |msg|, 0
    {
      calls := calls + 1;
      if |msg| < 1 {
        actions := actions + [Complain];
        return;
      }
      var kind, body := msg[0], msg[1..];
      if IsLongRun(kind) {
        actions := actions + [Enqueue(kind, body)];
        return;
      }
      if kind == COMPOUND_MSG {
        HandleCompound(body);
      } else if IsQuick(kind) {
        actions := actions + [Serve(kind, body)];
      } else {
        actions := actions + [Complain];
      }
    }

    method HandleCompound(msg: Bytes)
      modifies this
      ensures actions == old(actions) + HandledCompound(msg)
      ensures calls == old(calls) + if Unpack(msg).Parts? then CallsAll(Unpack(msg).msgs) else 0
      decreases |msg|, 2
    {
      var parts := UnpackCompoundMsg(msg);
      if !parts.Parts? {
        actions := actions + [Complain];
        return;
      }
      if parts.trunc > 0 {
        actions := actions + [Complain];
      }
      UnpackShrinks(msg);
      ghost var warned := if parts.trunc > 0 then [Complain] else [];
      assert actions == old(actions) + warned;
      HandleParts(parts.msgs);
      assert old(actions) + (warned + HandledAll(parts.msgs)) == old(actions) + warned + HandledAll(parts.msgs);
    }

    /** The loop over the parts of a compound. */
    method HandleParts(msgs: seq<Bytes>)
      modifies this
      ensures actions == old(actions) + HandledAll(msgs)
      ensures calls == old(calls) + CallsAll(msgs)
      decreases |Join(msgs)| + |msgs|, 1
    {
      for i := 0 to |msgs|
        invariant actions + HandledAll(msgs[i..]) == old(actions) + HandledAll(msgs)
        invariant calls + CallsAll(msgs[i..]) == old(calls) + CallsAll(msgs)
        invariant |Join(msgs[i..])| <= |Join(msgs)|
      {
        ghost var rest := msgs[i..];
        JoinCons(rest);
        assert rest[0] == msgs[i] && rest[1..] == msgs[i + 1..];
        ghost var now, later := Handled(rest[0]), HandledAll(rest[1..]);
        assert actions + (now + later) == actions + now + later;
        HandleUdpMsg(msgs[i]);
      }
      assert actions + [] == actions;
    }
  }
}
