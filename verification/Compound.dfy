/** Compound messages: many messages in one packet, as a type byte, a count byte, two bytes for each
    length, and the messages. */
module Compound {
  import opened Types

  const COMPOUND_MSG: Byte := 8
  const MAX_MSGS := 255

  // ---------- Packing ----------

  /** The low 16 bits of `n`, big end first. */
  function U16(n: nat): Bytes {
    [(n / 256 % 256) as Byte, (n % 256) as Byte]
  }

  function ReadU16(hi: Byte, lo: Byte): nat {
    hi as nat * 256 + lo as nat
  }

  function Lengths(msgs: seq<Bytes>): Bytes {
    if msgs == [] then [] else U16(|msgs[0]|) + Lengths(msgs[1..])
  }

  function Join(msgs: seq<Bytes>): Bytes {
    if msgs == [] then [] else msgs[0] + Join(msgs[1..])
  }

  /** The count is one byte, so only its low 8 bits are kept. */
  function Pack(msgs: seq<Bytes>): Bytes {
    [COMPOUND_MSG, (|msgs| % 256) as Byte] + Lengths(msgs) + Join(msgs)
  }

  // ---------- Unpacking, after the type byte ----------

  datatype Unpacked = MissingCount | TruncatedLengths | Parts(trunc: nat, msgs: seq<Bytes>)

  function ReadLengths(b: Bytes, n: nat): (lengths: seq<nat>)
    requires |b| >= 2 * n
    ensures |lengths| == n && forall i :: 0 <= i < n ==> lengths[i] < 65536
  {
    if n == 0 then [] else [ReadU16(b[0], b[1])] + ReadLengths(b[2..], n - 1)
  }

  /** Cut the body into pieces; stop at the first that is not there in full. */
  function Carve(lengths: seq<nat>, body: Bytes): (r: Unpacked)
    ensures r.Parts? && r.trunc + |r.msgs| == |lengths|
    ensures forall i :: 0 <= i < |r.msgs| ==> |r.msgs[i]| == lengths[i]
    decreases |lengths|
  {
    if lengths == [] then Parts(0, [])
    else if |body| < lengths[0] then Parts(|lengths|, [])
    else
      var r := Carve(lengths[1..], body[lengths[0]..]);
      Parts(r.trunc, [body[..lengths[0]]] + r.msgs)
  }

  function Unpack(msg: Bytes): Unpacked {
    if msg == [] then MissingCount
    else
      var numParts, rest := msg[0] as nat, msg[1..];
      if |rest| < 2 * numParts then TruncatedLengths
      else Carve(ReadLengths(rest, numParts), rest[2 * numParts..])
  }

  // ---------- Round trip ----------

  ghost predicate Packable(msgs: seq<Bytes>) {
    |msgs| <= MAX_MSGS && Short(msgs)
  }

  ghost predicate Short(msgs: seq<Bytes>) {
    forall i :: 0 <= i < |msgs| ==> |msgs[i]| < 65536
  }

  function Sizes(msgs: seq<Bytes>): seq<nat> {
    if msgs == [] then [] else [|msgs[0]|] + Sizes(msgs[1..])
  }

  lemma {:induction false} SizesAt(msgs: seq<Bytes>)
    ensures |Sizes(msgs)| == |msgs| && |Lengths(msgs)| == 2 * |msgs|
    ensures forall i :: 0 <= i < |msgs| ==> Sizes(msgs)[i] == |msgs[i]|
  {
    if msgs != [] {
      SizesAt(msgs[1..]);
    }
  }

  lemma {:induction false} LengthsRead(msgs: seq<Bytes>, tail: Bytes)
    requires Short(msgs)
    ensures |Lengths(msgs)| == 2 * |msgs| && ReadLengths(Lengths(msgs) + tail, |msgs|) == Sizes(msgs)
  {
    SizesAt(msgs);
    if msgs != [] {
      LengthsRead(msgs[1..], tail);
      var b := Lengths(msgs) + tail;
      assert b[2..] == Lengths(msgs[1..]) + tail;
      var n := |msgs[0]|;
      assert n / 256 % 256 == n / 256 && n / 256 * 256 + n % 256 == n;
    }
  }

  /** How many whole messages the first `n` bytes of their concatenation hold. */
  function Whole(msgs: seq<Bytes>, n: nat): (k: nat)
    ensures k <= |msgs|
  {
    if msgs == [] || n < |msgs[0]| then 0 else 1 + Whole(msgs[1..], n - |msgs[0]|)
  }

  lemma {:induction false} CarveFirst(first: Bytes, sizes: seq<nat>, rest: Bytes)
    ensures var r := Carve(sizes, rest);
            Carve([|first|] + sizes, first + rest) == Parts(r.trunc, [first] + r.msgs)
  {
    var lengths, body := [|first|] + sizes, first + rest;
    assert lengths[1..] == sizes && body[..|first|] == first && body[|first|..] == rest;
  }

  lemma TakeAfter(a: Bytes, b: Bytes, n: nat)
    requires |a| <= n <= |a| + |b|
    ensures (a + b)[..n] == a + b[..n - |a|]
  {
  }

  lemma {:induction false} CarveJoined(msgs: seq<Bytes>, n: nat)
    requires n <= |Join(msgs)|
    ensures var k := Whole(msgs, n);
            Carve(Sizes(msgs), Join(msgs)[..n]) == Parts(|msgs| - k, msgs[..k])
  {
    SizesAt(msgs);
    if msgs != [] && n >= |msgs[0]| {
      var first, more := msgs[0], msgs[1..];
      var k := Whole(more, n - |first|);
      CarveJoined(more, n - |first|);
      CarveFirst(first, Sizes(more), Join(more)[..n - |first|]);
      TakeAfter(first, Join(more), n);
      assert [first] + more[..k] == msgs[..k + 1];
    }
  }

  lemma {:induction false} WholeIsAll(msgs: seq<Bytes>)
    ensures Whole(msgs, |Join(msgs)|) == |msgs|
  {
    if msgs != [] {
      WholeIsAll(msgs[1..]);
    }
  }

  /** The number of whole messages is the largest count that fits. */
  lemma {:induction false} WholeIsLargest(msgs: seq<Bytes>, n: nat)
    ensures var k := Whole(msgs, n);
            |Join(msgs[..k])| <= n && (k < |msgs| ==> n < |Join(msgs[..k + 1])|)
  {
    if msgs != [] {
      if n >= |msgs[0]| {
        var k := Whole(msgs[1..], n - |msgs[0]|);
        WholeIsLargest(msgs[1..], n - |msgs[0]|);
        assert msgs[..k + 1][0] == msgs[0] && msgs[..k + 1][1..] == msgs[1..][..k];
        if k + 1 < |msgs| {
          assert msgs[..k + 2][0] == msgs[0] && msgs[..k + 2][1..] == msgs[1..][..k + 1];
        }
      } else {
        assert msgs[..1][0] == msgs[0] && msgs[..1][1..] == [];
      }
    }
  }

  /** What is left of a compound, after the type byte, that is cut behind its count. */
  lemma CutAfterCount(msgs: seq<Bytes>, n: nat)
    requires |msgs| <= MAX_MSGS && 0 < n < |Pack(msgs)|
    ensures var cut := Pack(msgs)[1..n + 1];
            |cut| == n && cut[0] as nat == |msgs| && cut[1..] == (Lengths(msgs) + Join(msgs))[..n - 1]
  {
  }

  lemma {:induction false} CutBody(msgs: seq<Bytes>, k: nat)
    requires Short(msgs) && k <= |Join(msgs)|
    ensures |Lengths(msgs)| == 2 * |msgs|
    ensures var rest := (Lengths(msgs) + Join(msgs))[..2 * |msgs| + k];
            && |rest| == 2 * |msgs| + k
            && Carve(ReadLengths(rest, |msgs|), rest[2 * |msgs|..])
            == Parts(|msgs| - Whole(msgs, k), msgs[..Whole(msgs, k)])
  {
    SizesAt(msgs);
    var tail := Join(msgs)[..k];
    var rest := (Lengths(msgs) + Join(msgs))[..2 * |msgs| + k];
    assert rest == Lengths(msgs) + tail;
    LengthsRead(msgs, tail);
    assert rest[2 * |msgs|..] == tail;
    CarveJoined(msgs, k);
  }

  /** A compound that loses bytes off its end yields the messages that are still whole, in order, and
      counts the rest as truncated; one cut inside its header is an error. */
  lemma CutCompound(msgs: seq<Bytes>, n: nat)
    requires Packable(msgs) && n < |Pack(msgs)|
    ensures var got, header := Unpack(Pack(msgs)[1..n + 1]), 1 + 2 * |msgs|;
            && (n == 0 ==> got == MissingCount)
            && (0 < n < header ==> got == TruncatedLengths)
            && (n >= header ==>
                  var k := Whole(msgs, n - header);
                  got == Parts(|msgs| - k, msgs[..k]))
  {
    SizesAt(msgs);
    if n > 0 {
      CutAfterCount(msgs, n);
      if n >= 1 + 2 * |msgs| {
        CutBody(msgs, n - 1 - 2 * |msgs|);
      }
    }
  }

  lemma {:induction false} LengthsAt(msgs: seq<Bytes>, i: nat)
    requires i < |msgs|
    ensures |Lengths(msgs)| == 2 * |msgs|
    ensures Lengths(msgs)[2 * i] as nat == |msgs[i]| / 256 % 256 && Lengths(msgs)[2 * i + 1] as nat == |msgs[i]| % 256
  {
    SizesAt(msgs);
    if i > 0 {
      LengthsAt(msgs[1..], i - 1);
    }
  }

  /** The bytes of a compound: its type 8, the count, and two bytes for each length, the high one first. */
  lemma {:induction false} HeaderLayout(msgs: seq<Bytes>, i: nat)
    requires i < |msgs|
    ensures var p := Pack(msgs);
            && |p| >= 2 + 2 * |msgs| && p[0] == 8 && p[1] as nat == |msgs| % 256
            && p[2 + 2 * i] as nat == |msgs[i]| / 256 % 256 && p[3 + 2 * i] as nat == |msgs[i]| % 256
            && p[2 + 2 * |msgs|..] == Join(msgs)
  {
    LengthsAt(msgs, i);
  }

  lemma PackedIsUnpacked(msgs: seq<Bytes>)
    requires Packable(msgs)
    ensures Unpack(Pack(msgs)[1..]) == Parts(0, msgs)
  {
    SizesAt(msgs);
    var n := |Pack(msgs)| - 1;
    CutCompound(msgs, n);
    WholeIsAll(msgs);
    assert Pack(msgs)[1..n + 1] == Pack(msgs)[1..];
    assert msgs[..|msgs|] == msgs;
  }

  lemma UnpackedIsPackable(msg: Bytes)
    ensures Unpack(msg).Parts? ==> Packable(Unpack(msg).msgs)
  {
  }

  /** Packing loses nothing exactly when there are at most 255 messages, each below 65536 bytes: beyond
      that the count or a length no longer fits its field. */
  lemma RoundTripIffFits(msgs: seq<Bytes>)
    ensures Unpack(Pack(msgs)[1..]) == Parts(0, msgs) <==> Packable(msgs)
  {
    if Packable(msgs) {
      PackedIsUnpacked(msgs);
    } else {
      UnpackedIsPackable(Pack(msgs)[1..]);
    }
  }

  // ---------- Splitting ----------

  function Split(msgs: seq<Bytes>): seq<Bytes> {
    if |msgs| > MAX_MSGS then [Pack(msgs[..MAX_MSGS])] + Split(msgs[MAX_MSGS..])
    else if msgs == [] then []
    else [Pack(msgs)]
  }

  /** The messages of several compounds, one after the other. */
  function UnpackAll(compounds: seq<Bytes>): seq<Bytes> {
    if compounds == [] then []
    else
      var parts := if compounds[0] == [] then MissingCount else Unpack(compounds[0][1..]);
      (if parts.Parts? then parts.msgs else []) + UnpackAll(compounds[1..])
  }

  /** Splitting loses no message and keeps their order, for a list of any length. */
  lemma {:induction false} SplitRoundTrip(msgs: seq<Bytes>)
    requires Short(msgs)
    ensures UnpackAll(Split(msgs)) == msgs
  {
    if |msgs| > MAX_MSGS {
      var first, more := msgs[..MAX_MSGS], msgs[MAX_MSGS..];
      PackedIsUnpacked(first);
      SplitRoundTrip(more);
      assert ([Pack(first)] + Split(more))[1..] == Split(more);
      assert msgs == first + more;
    } else if msgs != [] {
      PackedIsUnpacked(msgs);
    }
  }

  // ---------- The loops ----------

  lemma {:induction false} LengthsSnoc(msgs: seq<Bytes>, m: Bytes)
    ensures Lengths(msgs + [m]) == Lengths(msgs) + U16(|m|)
  {
    if msgs == [] {
      assert [m][1..] == [];
    } else {
      LengthsSnoc(msgs[1..], m);
      assert (msgs + [m])[1..] == msgs[1..] + [m];
    }
  }

  lemma {:induction false} JoinSnoc(msgs: seq<Bytes>, m: Bytes)
    ensures Join(msgs + [m]) == Join(msgs) + m
  {
    if msgs == [] {
      assert [m][1..] == [];
    } else {
      JoinSnoc(msgs[1..], m);
      assert (msgs + [m])[1..] == msgs[1..] + [m];
    }
  }

  method PackCompoundMsg(msgs: seq<Bytes>) returns (buf: Bytes)
    ensures buf == Pack(msgs)
  {
    buf := [COMPOUND_MSG];
    buf := buf + [(|msgs| % 256) as Byte];
    ghost var head := buf;
    for i := 0 to |msgs|
      invariant buf == head + Lengths(msgs[..i])
    {
      assert msgs[..i + 1] == msgs[..i] + [msgs[i]];
      LengthsSnoc(msgs[..i], msgs[i]);
      buf := buf + U16(|msgs[i]|);
    }
    assert msgs[..|msgs|] == msgs;
    head := buf;
    for i := 0 to |msgs|
      invariant buf == head + Join(msgs[..i])
    {
      assert msgs[..i + 1] == msgs[..i] + [msgs[i]];
      JoinSnoc(msgs[..i], msgs[i]);
      buf := buf + msgs[i];
    }
  }

  /** The first loop of unpacking. */
  method DecodeLengths(msg: Bytes, numParts: nat) returns (lengths: seq<nat>)
    requires |msg| >= numParts * 2
    ensures lengths == ReadLengths(msg, numParts)
  {
    lengths := [];
    for i := 0 to numParts
      invariant ReadLengths(msg, numParts) == lengths + ReadLengths(msg[2 * i..], numParts - i)
    {
      ghost var rest := msg[2 * i..];
      ghost var later := ReadLengths(rest[2..], numParts - i - 1);
      assert rest[2..] == msg[2 * (i + 1)..];
      assert lengths + ([ReadU16(rest[0], rest[1])] + later) == lengths + [ReadU16(rest[0], rest[1])] + later;
      lengths := lengths + [ReadU16(msg[i * 2], msg[i * 2 + 1])];
    }
  }

  /** Cutting as the loop does it, adding to the pieces found so far. */
  function CarveOnto(lengths: seq<nat>, idx: nat, body: Bytes, msgs: seq<Bytes>): Unpacked
    requires idx <= |lengths|
    decreases |lengths| - idx
  {
    if idx == |lengths| then Parts(0, msgs)
    else if |body| < lengths[idx] then Parts(|lengths| - idx, msgs)
    else CarveOnto(lengths, idx + 1, body[lengths[idx]..], msgs + [body[..lengths[idx]]])
  }

  lemma {:induction false} CarveOntoCarves(lengths: seq<nat>, idx: nat, body: Bytes, msgs: seq<Bytes>)
    requires idx <= |lengths|
    ensures var r := Carve(lengths[idx..], body);
            CarveOnto(lengths, idx, body, msgs) == Parts(r.trunc, msgs + r.msgs)
    decreases |lengths| - idx
  {
    if idx == |lengths| || |body| < lengths[idx] {
      assert msgs + [] == msgs;
    } else {
      var first, rest := body[..lengths[idx]], body[lengths[idx]..];
      CarveOntoCarves(lengths, idx + 1, rest, msgs + [first]);
      assert lengths[idx..][0] == lengths[idx] && lengths[idx..][1..] == lengths[idx + 1..];
      var later := Carve(lengths[idx + 1..], rest).msgs;
      assert msgs + [first] + later == msgs + ([first] + later);
    }
  }

  /** The second loop of unpacking. */
  method CarveParts(lengths: seq<nat>, body: Bytes) returns (result: Unpacked)
    ensures result == CarveOnto(lengths, 0, body, [])
  {
    var msg, msgs := body, [];
    for idx := 0 to |lengths|
      invariant CarveOnto(lengths, 0, body, []) == CarveOnto(lengths, idx, msg, msgs)
    {
      if |msg| < lengths[idx] {
        return Parts(|lengths| - idx, msgs);
      }
      var slice := msg[..lengths[idx]];
      msg := msg[lengths[idx]..];
      msgs := msgs + [slice];
    }
    return Parts(0, msgs);
  }

  method UnpackCompoundMsg(msg: Bytes) returns (result: Unpacked)
    ensures result == Unpack(msg)
  {
    if |msg| < 1 {
      return MissingCount;
    }
    var numParts := msg[0] as nat;
    var rest := msg[1..];
    if |rest| < numParts * 2 {
      return TruncatedLengths;
    }
    var lengths := DecodeLengths(rest, numParts);
    var body := rest[numParts * 2..];
    CarveOntoCarves(lengths, 0, body, []);
    assert lengths[0..] == lengths && [] + Carve(lengths, body).msgs == Carve(lengths, body).msgs;
    result := CarveParts(lengths, body);
  }

  method SplitToCompoundMsgs(all: seq<Bytes>) returns (split: seq<Bytes>)
    ensures split == Split(all)
  {
    split := [];
    var msgs := all;
    while |msgs| > MAX_MSGS
      invariant Split(all) == split + Split(msgs)
    {
      var packed := PackCompoundMsg(msgs[..MAX_MSGS]);
      assert split + ([packed] + Split(msgs[MAX_MSGS..])) == split + [packed] + Split(msgs[MAX_MSGS..]);
      split := split + [packed];
      msgs := msgs[MAX_MSGS..];
    }
    if |msgs| > 0 {
      var packed := PackCompoundMsg(msgs);
      split := split + [packed];
    }
  }
}
