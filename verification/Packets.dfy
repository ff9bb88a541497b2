/** From queued messages to UDP packets: the byte budgets, and what they leave out. */
module Packets {
  import opened Types
  import opened Queue
  import QueueRuns
  import opened Compound
  import opened Dispatch
  import opened Broadcasts

  const COMPOUND_HEADER_OVERHEAD := 2
  const LEN_MSG_OVERHEAD := 2
  const USER_MSG_OVERHEAD := 1
  const ENCRYPT_OVERHEAD := 29
  const CRC_HEADER := 5
  const COMPRESS_MSG: Byte := 10
  const HAS_CRC_MSG: Byte := 12

  function Total(msgs: seq<Bytes>, overhead: nat): nat {
    if msgs == [] then 0 else |msgs[0]| + overhead + Total(msgs[1..], overhead)
  }

  lemma {:induction false} TotalConcat(a: seq<Bytes>, b: seq<Bytes>, overhead: nat)
    ensures Total(a + b, overhead) == Total(a, overhead) + Total(b, overhead)
  {
    if a == [] {
      assert a + b == b;
    } else {
      TotalConcat(a[1..], b, overhead);
      assert (a + b)[1..] == a[1..] + b;
    }
  }

  lemma {:induction false} TotalOfMessages(s: seq<Item>, overhead: nat)
    ensures Total(Messages(s), overhead) == Load(s, overhead)
  {
    if s != [] {
      TotalOfMessages(s[1..], overhead);
      assert Messages(s)[1..] == Messages(s[1..]);
    }
  }

  lemma {:induction false} JoinedLength(msgs: seq<Bytes>)
    ensures |Lengths(msgs)| + |Join(msgs)| == Total(msgs, LEN_MSG_OVERHEAD)
  {
    if msgs != [] {
      JoinedLength(msgs[1..]);
    }
  }

  lemma {:induction false} PackedLength(msgs: seq<Bytes>)
    ensures |Pack(msgs)| == COMPOUND_HEADER_OVERHEAD + Total(msgs, LEN_MSG_OVERHEAD)
  {
    JoinedLength(msgs);
  }

  // ---------- Gathering ----------

  /** The application's own broadcasts: a delegate asked for messages of a given overhead and total. */
  type Delegate = (nat, int) -> seq<Bytes>

  ghost predicate Respectful(user: Delegate) {
    forall overhead: nat, limit: int :: Total(user(overhead, limit), overhead) <= Max(0, limit)
  }

  function Tagged(msgs: seq<Bytes>): seq<Bytes> {
    if msgs == [] then [] else [[USER_MSG] + msgs[0]] + Tagged(msgs[1..])
  }

  lemma {:induction false} TaggedTotal(msgs: seq<Bytes>, overhead: nat)
    ensures Total(Tagged(msgs), overhead) == Total(msgs, overhead + USER_MSG_OVERHEAD)
  {
    if msgs != [] {
      TaggedTotal(msgs[1..], overhead);
      assert Tagged(msgs)[1..] == Tagged(msgs[1..]);
    }
  }

  /** Membership broadcasts first, then the application's in what is left of the limit. */
  function Gathered(queued: seq<Bytes>, user: Option<Delegate>, overhead: nat, limit: int): seq<Bytes> {
    if user.None? then queued
    else queued + Tagged((user.value)(overhead + USER_MSG_OVERHEAD, limit - Total(queued, overhead)))
  }

  /** The application is always asked, for what the queue left of the limit with one byte more for each
      message, and its answer follows the queue's, each message behind the byte of its type. */
  lemma {:induction false} ApplicationIsAsked(queued: seq<Bytes>, user: Delegate, overhead: nat, limit: int)
    ensures var umsgs := user(overhead + 1, limit - Total(queued, overhead));
            var all := Gathered(queued, Some(user), overhead, limit);
            && |all| == |queued| + |umsgs| && all[..|queued|] == queued
            && forall i :: 0 <= i < |umsgs| ==> all[|queued| + i] == [9] + umsgs[i]
  {
    TaggedEach(user(overhead + 1, limit - Total(queued, overhead)));
  }

  lemma {:induction false} TaggedEach(msgs: seq<Bytes>)
    ensures |Tagged(msgs)| == |msgs| && forall i :: 0 <= i < |msgs| ==> Tagged(msgs)[i] == [9] + msgs[i]
  {
    if msgs != [] {
      TaggedEach(msgs[1..]);
    }
  }

  lemma {:induction false} GatheredWithinLimit(queued: seq<Bytes>, user: Option<Delegate>, overhead: nat, limit: int)
    requires user.Some? ==> Respectful(user.value)
    requires Total(queued, overhead) <= limit
    ensures Total(Gathered(queued, user, overhead, limit), overhead) <= limit
  {
    if user.Some? {
      var umsgs := (user.value)(overhead + USER_MSG_OVERHEAD, limit - Total(queued, overhead));
      TaggedTotal(umsgs, overhead);
      TotalConcat(queued, Tagged(umsgs), overhead);
    }
  }

  lemma {:induction false} PickedWithinLimit(s: seq<Item>, user: Option<Delegate>, overhead: nat, limit: int)
    requires (user.Some? ==> Respectful(user.value)) && 0 <= limit
    ensures Total(Gathered(Messages(Pick(s, 0, overhead, limit).picked), user, overhead, limit), overhead) <= limit
  {
    var picked := Pick(s, 0, overhead, limit).picked;
    PickFillsBudget(s, 0, overhead, limit);
    TotalOfMessages(picked, overhead);
    GatheredWithinLimit(Messages(picked), user, overhead, limit);
  }

  method BytesUsed(msgs: seq<Bytes>, overhead: nat) returns (used: nat)
    ensures used == Total(msgs, overhead)
  {
    used := 0;
    for i := 0 to |msgs|
      invariant used + Total(msgs[i..], overhead) == Total(msgs, overhead)
    {
      assert msgs[i..][0] == msgs[i] && msgs[i..][1..] == msgs[i + 1..];
      used := used + |msgs[i]| + overhead;
    }
  }

  method AppendUserMsgs(queued: seq<Bytes>, umsgs: seq<Bytes>) returns (msgs: seq<Bytes>)
    ensures msgs == queued + Tagged(umsgs)
  {
    msgs := queued;
    for i := 0 to |umsgs|
      invariant msgs + Tagged(umsgs[i..]) == queued + Tagged(umsgs)
    {
      assert umsgs[i..][0] == umsgs[i] && umsgs[i..][1..] == umsgs[i + 1..];
      msgs := msgs + [[USER_MSG] + umsgs[i]];
    }
  }

  /** What a queue and an application have to send within a limit. */
  ghost function Chosen(items: set<Item>, user: Option<Delegate>, overhead: nat, limit: int): seq<Bytes> {
    if limit <= overhead then []
    else Gathered(Messages(Pick(Sorted(items), 0, overhead, limit).picked), user, overhead, limit)
  }

  /** The queue's account once it has handed messages out. */
  ghost function After(q: TransmitCapQueue, before: QueueRuns.Account, overhead: nat, limit: int, numNodes: nat)
    : QueueRuns.Account
  {
    QueueRuns.GetMessages(before, overhead, limit, QueueRuns.TransmitLimit(q.transmitScale, numNodes))
  }

  method AddUserMsgs(queued: seq<Bytes>, user: Option<Delegate>, overhead: nat, limit: int)
    returns (msgs: seq<Bytes>)
    ensures msgs == Gathered(queued, user, overhead, limit)
  {
    if user.None? {
      return queued;
    }
    var bytesUsed := BytesUsed(queued, overhead);
    msgs := AppendUserMsgs(queued, (user.value)(overhead + USER_MSG_OVERHEAD, limit - bytesUsed));
  }

  method GetBroadcasts(q: TransmitCapQueue, numNodes: nat, user: Option<Delegate>, overhead: nat, limit: int)
    returns (msgs: seq<Bytes>)
    requires q.Valid() && (user.Some? ==> Respectful(user.value))
    modifies q
    ensures q.Valid()
    ensures Total(msgs, overhead) <= Max(0, limit)
    ensures msgs == Chosen(old(q.queue), user, overhead, limit)
    ensures q.View() == After(q, old(q.View()), overhead, limit, numNodes)
    ensures limit <= overhead ==> q.View() == old(q.View())
  {
    if limit <= overhead {
      return [];
    }
    PickedWithinLimit(Sorted(q.queue), user, overhead, limit);
    msgs := q.GetMessages(overhead, limit, numNodes);
    msgs := AddUserMsgs(msgs, user, overhead, limit);
  }

  // ---------- Packing for the wire ----------

  /** The library codecs: compression and encryption if enabled, and the four bytes of a checksum. */
  datatype Codec = Codec(
    compress: Option<Bytes -> Bytes>,
    decompress: Bytes -> Option<Bytes>,
    crc: Bytes -> Bytes,
    encrypt: Option<Bytes -> Bytes>,
    decrypt: Bytes -> Option<Bytes>)

  /** What the codecs are relied on for: their lengths, and that each undoes its counterpart. */
  ghost predicate Lawful(codec: Codec) {
    && (forall b :: |codec.crc(b)| == 4)
    && (codec.compress.Some? ==>
          forall b :: var c := (codec.compress.value)(b);
                      |c| > 0 && c[0] == COMPRESS_MSG && codec.decompress(c[1..]) == Some(b))
    && (codec.encrypt.Some? ==>
          forall b :: |(codec.encrypt.value)(b)| == |b| + ENCRYPT_OVERHEAD
                      && codec.decrypt((codec.encrypt.value)(b)) == Some(b))
  }

  function EncryptOverhead(codec: Codec): nat {
    if codec.encrypt.Some? then ENCRYPT_OVERHEAD else 0
  }

  function Squeeze(codec: Codec, msg: Bytes): Bytes {
    if codec.compress.Some? && |(codec.compress.value)(msg)| < |msg| then (codec.compress.value)(msg) else msg
  }

  function PackUdp(codec: Codec, msg: Bytes): Bytes {
    var payload := Squeeze(codec, msg);
    var framed := [HAS_CRC_MSG] + codec.crc(payload) + payload;
    if codec.encrypt.Some? then (codec.encrypt.value)(framed) else framed
  }

  /** What the receiver makes of a packet. */
  datatype Receipt = Rejected | Panics | Message(msg: Bytes)

  /** The type byte of the payload is read without looking whether there is one. */
  function UnpackPacket(codec: Codec, packet: Bytes): Receipt {
    var plain := if codec.encrypt.Some? then codec.decrypt(packet) else Some(packet);
    if plain.None? || |plain.value| < CRC_HEADER || plain.value[0] != HAS_CRC_MSG then Rejected
    else
      var payload := plain.value[CRC_HEADER..];
      if codec.crc(payload) != plain.value[1..CRC_HEADER] then Rejected
      else if payload == [] then Panics
      else if payload[0] == COMPRESS_MSG then
        var b := codec.decompress(payload[1..]);
        if b.None? then Rejected else Message(b.value)
      else Message(payload)
  }

  /** The receiver crashes on exactly one plain packet: the header with the checksum of nothing. */
  lemma PanicsIffBare(codec: Codec, packet: Bytes)
    requires Lawful(codec)
    ensures UnpackPacket(codec, packet) == Panics
       <==> (if codec.encrypt.Some? then codec.decrypt(packet) else Some(packet)) == Some([HAS_CRC_MSG] + codec.crc([]))
  {
    var plain := if codec.encrypt.Some? then codec.decrypt(packet) else Some(packet);
    if plain.Some? && |plain.value| == CRC_HEADER {
      assert plain.value == [plain.value[0]] + plain.value[1..CRC_HEADER];
      assert plain.value[CRC_HEADER..] == [];
    }
  }

  lemma PackUdpLength(codec: Codec, msg: Bytes)
    requires Lawful(codec)
    ensures |PackUdp(codec, msg)| == |Squeeze(codec, msg)| + CRC_HEADER + EncryptOverhead(codec)
    ensures |Squeeze(codec, msg)| <= |msg|
  {
  }

  /** With compression on, the shorter of the two forms is sent, and the message as it is if they are equal;
      the header takes 5 bytes and encryption 29. */
  lemma PacketIsShorter(codec: Codec, msg: Bytes)
    requires Lawful(codec)
    ensures var short := codec.compress.Some? && |(codec.compress.value)(msg)| < |msg|;
            var sent := if short then |(codec.compress.value)(msg)| else |msg|;
            && |PackUdp(codec, msg)| == sent + 5 + (if codec.encrypt.Some? then 29 else 0)
            && (!short && codec.encrypt.None? ==> PackUdp(codec, msg)[5..] == msg)
  {
    PackUdpLength(codec, msg);
  }

  /** Nothing is taken from a packet whose plain form is not a header with the checksum of the rest. */
  lemma AcceptsOnlyChecked(codec: Codec, packet: Bytes)
    requires Lawful(codec) && UnpackPacket(codec, packet) != Rejected
    ensures var plain := if codec.encrypt.Some? then codec.decrypt(packet) else Some(packet);
            exists payload :: plain == Some([12] + codec.crc(payload) + payload)
  {
    var plain := if codec.encrypt.Some? then codec.decrypt(packet) else Some(packet);
    var payload := plain.value[CRC_HEADER..];
    assert plain.value == [HAS_CRC_MSG] + plain.value[1..CRC_HEADER] + payload;
  }

  /** Sent as it is, a message is not mistaken for a compressed one, and has a type byte. */
  predicate Opens(codec: Codec, msg: Bytes) {
    Squeeze(codec, msg) != msg
    || (msg != [] && (msg[0] == COMPRESS_MSG ==> codec.decompress(msg[1..]) == Some(msg)))
  }

  /** The receiver gets back what was sent, compressed or not, encrypted or not, unless the message
      went out uncompressed and is empty or looks compressed. */
  lemma PacketRoundTrip(codec: Codec, msg: Bytes)
    requires Lawful(codec)
    ensures UnpackPacket(codec, PackUdp(codec, msg)) == Message(msg) <==> Opens(codec, msg)
  {
    var payload := Squeeze(codec, msg);
    var framed := [HAS_CRC_MSG] + codec.crc(payload) + payload;
    assert framed[CRC_HEADER..] == payload && framed[1..CRC_HEADER] == codec.crc(payload);
    if codec.encrypt.Some? {
      assert codec.decrypt((codec.encrypt.value)(framed)) == Some(framed);
    }
  }

  /** The bytes that compression takes off `msg`. */
  function Saved(codec: Codec, msg: Bytes): (n: nat)
    ensures n == |msg| - |Squeeze(codec, msg)|
    ensures codec.compress.None? ==> n == 0
  {
    |msg| - |Squeeze(codec, msg)|
  }

  // ---------- A message with others on its back ----------

  /** What is left of the buffer for other messages beside `msg`. */
  function PiggybackBudget(codec: Codec, udpBufferSize: int, msg: Bytes): int {
    udpBufferSize - |msg| - COMPOUND_HEADER_OVERHEAD - EncryptOverhead(codec)
  }

  function Piggybacked(codec: Codec, msg: Bytes, piggy: seq<Bytes>): Bytes {
    PackUdp(codec, if piggy == [] then msg else Pack([msg] + piggy))
  }

  lemma {:induction false} PiggybackedLength(codec: Codec, udpBufferSize: int, msg: Bytes, piggy: seq<Bytes>)
    requires Lawful(codec) && piggy != []
    ensures |Piggybacked(codec, msg, piggy)| + Saved(codec, Pack([msg] + piggy))
         == udpBufferSize + LEN_MSG_OVERHEAD + CRC_HEADER
            + Total(piggy, LEN_MSG_OVERHEAD) - PiggybackBudget(codec, udpBufferSize, msg)
  {
    PackedLength([msg] + piggy);
    TotalConcat([msg], piggy, LEN_MSG_OVERHEAD);
    assert [msg][1..] == [];
    PackUdpLength(codec, Pack([msg] + piggy));
  }

  /** A packet that carries other messages fits the buffer exactly when what the queue left of its
      budget and what compression saves make up for 7 bytes: the budget knows neither the 5 bytes of the
      checksum header nor the 2 bytes of the first message's length. */
  lemma {:induction false} FitsIffSlack(codec: Codec, udpBufferSize: int, msg: Bytes, piggy: seq<Bytes>)
    requires Lawful(codec) && piggy != []
    ensures |Piggybacked(codec, msg, piggy)| <= udpBufferSize
       <==> Total(piggy, LEN_MSG_OVERHEAD) + LEN_MSG_OVERHEAD + CRC_HEADER
              <= PiggybackBudget(codec, udpBufferSize, msg) + Saved(codec, Pack([msg] + piggy))
  {
    PiggybackedLength(codec, udpBufferSize, msg, piggy);
  }

  /** A buffer of 1400 bytes, a 10 byte message and one broadcast of 1386 bytes, which the budget
      allows: the packet has 1407 bytes. */
  lemma BudgetExceeded(codec: Codec, msg: Bytes, other: Bytes)
    requires Lawful(codec) && codec.compress.None? && codec.encrypt.None? && |msg| == 10 && |other| == 1386
    ensures Total([other], LEN_MSG_OVERHEAD) <= PiggybackBudget(codec, 1400, msg)
    ensures |Piggybacked(codec, msg, [other])| == 1407
  {
    PiggybackedLength(codec, 1400, msg, [other]);
    assert [other][1..] == [];
  }

  lemma {:induction false} PiggybackedBounded(codec: Codec, udpBufferSize: int, msg: Bytes, piggy: seq<Bytes>)
    requires Lawful(codec)
    requires Total(piggy, LEN_MSG_OVERHEAD) <= Max(0, PiggybackBudget(codec, udpBufferSize, msg))
    ensures var packet := Piggybacked(codec, msg, piggy);
            if piggy == [] then |packet| <= |msg| + CRC_HEADER + EncryptOverhead(codec)
            else |packet| <= udpBufferSize + LEN_MSG_OVERHEAD + CRC_HEADER
  {
    if piggy == [] {
      PackUdpLength(codec, msg);
    } else {
      TotalBoundsEach(piggy, LEN_MSG_OVERHEAD, 0);
      PiggybackedLength(codec, udpBufferSize, msg, piggy);
    }
  }

  /** The same with encryption, which takes 29 bytes of the budget: a broadcast of 1357 bytes. */
  lemma EncryptedBudgetExceeded(codec: Codec, msg: Bytes, other: Bytes)
    requires Lawful(codec) && codec.compress.None? && codec.encrypt.Some? && |msg| == 10 && |other| == 1357
    ensures Total([other], LEN_MSG_OVERHEAD) == PiggybackBudget(codec, 1400, msg)
    ensures |Piggybacked(codec, msg, [other])| == 1407
  {
    PiggybackedLength(codec, 1400, msg, [other]);
    assert [other][1..] == [];
  }

  method PackPiggyback(codec: Codec, msg: Bytes, piggy: seq<Bytes>) returns (packet: Bytes)
    ensures packet == Piggybacked(codec, msg, piggy)
  {
    if |piggy| == 0 {
      return PackUdp(codec, msg);
    }
    var compound := PackCompoundMsg([msg] + piggy);
    packet := PackUdp(codec, compound);
  }

  method SendMsgPiggyback(codec: Codec, q: TransmitCapQueue, numNodes: nat, user: Option<Delegate>,
                          udpBufferSize: int, msg: Bytes) returns (packet: Bytes, piggy: seq<Bytes>)
    requires Lawful(codec) && q.Valid() && (user.Some? ==> Respectful(user.value))
    modifies q
    ensures q.Valid()
    ensures piggy == Chosen(old(q.queue), user, LEN_MSG_OVERHEAD, PiggybackBudget(codec, udpBufferSize, msg))
    ensures q.View()
         == After(q, old(q.View()), LEN_MSG_OVERHEAD, PiggybackBudget(codec, udpBufferSize, msg), numNodes)
    ensures packet == Piggybacked(codec, msg, piggy)
    ensures Total(piggy, LEN_MSG_OVERHEAD) <= Max(0, PiggybackBudget(codec, udpBufferSize, msg))
    ensures if piggy == [] then |packet| <= |msg| + CRC_HEADER + EncryptOverhead(codec)
            else |packet| <= udpBufferSize + LEN_MSG_OVERHEAD + CRC_HEADER
  {
    var bytesRemaining := udpBufferSize - |msg| - COMPOUND_HEADER_OVERHEAD;
    if codec.encrypt.Some? {
      bytesRemaining := bytesRemaining - ENCRYPT_OVERHEAD;
    }
    piggy := GetBroadcasts(q, numNodes, user, LEN_MSG_OVERHEAD, bytesRemaining);
    packet := PackPiggyback(codec, msg, piggy);
    PiggybackedBounded(codec, udpBufferSize, msg, piggy);
  }

  lemma {:induction false} TotalBoundsEach(msgs: seq<Bytes>, overhead: nat, i: nat)
    requires i < |msgs|
    ensures |msgs[i]| + overhead <= Total(msgs, overhead)
  {
    if i > 0 {
      TotalBoundsEach(msgs[1..], overhead, i - 1);
    }
  }

  /** Messages gathered for a buffer within the reach of UDP have lengths that fit their fields. */
  lemma {:induction false} GatheredIsShort(msgs: seq<Bytes>, limit: int)
    requires Total(msgs, LEN_MSG_OVERHEAD) <= limit <= 65535
    ensures Short(msgs)
  {
    forall i | 0 <= i < |msgs| ensures |msgs[i]| < 65536 {
      TotalBoundsEach(msgs, LEN_MSG_OVERHEAD, i);
    }
  }

  lemma CompoundOpens(codec: Codec, msgs: seq<Bytes>)
    requires Lawful(codec)
    ensures Opens(codec, Pack(msgs)) && UnpackPacket(codec, PackUdp(codec, Pack(msgs))) == Message(Pack(msgs))
  {
    PacketRoundTrip(codec, Pack(msgs));
  }

  lemma {:induction false} PiggybackIsShort(codec: Codec, udpBufferSize: int, msg: Bytes, piggy: seq<Bytes>)
    requires piggy != [] && Total(piggy, LEN_MSG_OVERHEAD) <= PiggybackBudget(codec, udpBufferSize, msg)
    requires udpBufferSize <= 65535
    ensures Short([msg] + piggy)
  {
    GatheredIsShort(piggy, 65535);
    TotalBoundsEach(piggy, LEN_MSG_OVERHEAD, 0);
  }

  /** A piggybacked packet always opens, but its compound is never split: it holds the message and the
      gathered others exactly when these are at most 254 and no message is longer than its length field
      can say, which a buffer within the reach of UDP rules out. */
  lemma {:induction false} PiggybackIffCounted(codec: Codec, udpBufferSize: int, msg: Bytes, piggy: seq<Bytes>)
    requires Lawful(codec) && piggy != []
    requires Total(piggy, LEN_MSG_OVERHEAD) <= PiggybackBudget(codec, udpBufferSize, msg)
    ensures var got := UnpackPacket(codec, Piggybacked(codec, msg, piggy));
            && got == Message(Pack([msg] + piggy))
            && (Unpack(got.msg[1..]) == Parts(0, [msg] + piggy) <==> |piggy| <= 254 && Short([msg] + piggy))
            && (udpBufferSize <= 65535 ==> Short([msg] + piggy))
  {
    CompoundOpens(codec, [msg] + piggy);
    if udpBufferSize <= 65535 {
      PiggybackIsShort(codec, udpBufferSize, msg, piggy);
    }
    RoundTripIffFits([msg] + piggy);
  }

  /** The receiver of a piggybacked packet handles the message and then each of the others, as if
      they had come alone. */
  lemma {:induction false} PiggybackIsTransparent(codec: Codec, msg: Bytes, piggy: seq<Bytes>)
    requires Lawful(codec) && |piggy| <= 254
    requires if piggy == [] then Opens(codec, msg) else Short([msg] + piggy)
    ensures var got := UnpackPacket(codec, Piggybacked(codec, msg, piggy));
            got.Message? && Handled(got.msg) == Handled(msg) + HandledAll(piggy)
  {
    if piggy == [] {
      PacketRoundTrip(codec, msg);
    } else {
      CompoundOpens(codec, [msg] + piggy);
      CompoundIsTransparent([msg] + piggy);
      assert ([msg] + piggy)[1..] == piggy;
    }
  }

  /** An application with 255 messages of one byte to tell, whenever they fit. */
  function Chatty(overhead: nat, limit: int): seq<Bytes> {
    if 255 * (1 + overhead) <= limit then Repeated([0], 255) else []
  }

  function Repeated(msg: Bytes, n: nat): seq<Bytes> {
    if n == 0 then [] else [msg] + Repeated(msg, n - 1)
  }

  lemma {:induction false} RepeatedTotal(msg: Bytes, n: nat, overhead: nat)
    ensures Total(Repeated(msg, n), overhead) == n * (|msg| + overhead)
    ensures |Repeated(msg, n)| == n && |Tagged(Repeated(msg, n))| == n
  {
    if n > 0 {
      RepeatedTotal(msg, n - 1, overhead);
      assert Repeated(msg, n)[1..] == Repeated(msg, n - 1);
    }
  }

  /** A count that is a multiple of 256 is sent as none at all. */
  lemma CountWraps(msgs: seq<Bytes>)
    requires |msgs| % 256 == 0
    ensures Handled(Pack(msgs)) == []
  {
    assert Unpack(Pack(msgs)[1..]) == Parts(0, []);
    assert HandledAll([]) == [];
  }

  lemma ChattyIsRespectful()
    ensures Respectful(Chatty)
  {
    forall overhead: nat, limit: int ensures Total(Chatty(overhead, limit), overhead) <= Max(0, limit) {
      RepeatedTotal([0], 255, overhead);
    }
  }

  lemma ChattyGathered(budget: int)
    requires budget >= 1020
    ensures var piggy := Gathered([], Some(Chatty), LEN_MSG_OVERHEAD, budget);
            |piggy| == 255 && Total(piggy, LEN_MSG_OVERHEAD) <= budget
  {
    ChattyIsRespectful();
    GatheredWithinLimit([], Some(Chatty), LEN_MSG_OVERHEAD, budget);
    RepeatedTotal([0], 255, LEN_MSG_OVERHEAD);
    assert [] + Tagged(Repeated([0], 255)) == Tagged(Repeated([0], 255));
  }

  /** A buffer of 1400 bytes, a 10 byte message, an empty queue and that application: everything
      gathered is within the budget, the packet opens, and the receiver does nothing about it, not even
      about the message itself. */
  lemma PiggybackLost(codec: Codec, msg: Bytes)
    requires Lawful(codec) && codec.encrypt.None? && |msg| == 10
    ensures Respectful(Chatty)
    ensures var budget := PiggybackBudget(codec, 1400, msg);
            var piggy := Gathered([], Some(Chatty), LEN_MSG_OVERHEAD, budget);
            var got := UnpackPacket(codec, Piggybacked(codec, msg, piggy));
            Total(piggy, LEN_MSG_OVERHEAD) <= budget && got.Message? && Handled(got.msg) == []
  {
    ChattyIsRespectful();
    var budget := PiggybackBudget(codec, 1400, msg);
    ChattyGathered(budget);
    var piggy := Gathered([], Some(Chatty), LEN_MSG_OVERHEAD, budget);
    CompoundOpens(codec, [msg] + piggy);
    CountWraps([msg] + piggy);
  }

  // ---------- Gossip ----------

  function GossipBudget(codec: Codec, udpBufferSize: int): int {
    udpBufferSize - COMPOUND_HEADER_OVERHEAD - EncryptOverhead(codec)
  }

  function PackAll(codec: Codec, payloads: seq<Bytes>): (packets: seq<Bytes>)
    ensures |packets| == |payloads|
    ensures forall i :: 0 <= i < |payloads| ==> packets[i] == PackUdp(codec, payloads[i])
  {
    if payloads == [] then [] else [PackUdp(codec, payloads[0])] + PackAll(codec, payloads[1..])
  }

  /** A single message goes out as it is, more go out in compounds. */
  function Payloads(msgs: seq<Bytes>): seq<Bytes> {
    if |msgs| == 1 then msgs else Split(msgs)
  }

  /** The packets of one gossip round to one member. */
  function GossipPackets(codec: Codec, msgs: seq<Bytes>): seq<Bytes> {
    PackAll(codec, Payloads(msgs))
  }

  /** The messages that share the `i`th compound. */
  function Chunk(msgs: seq<Bytes>, i: nat): seq<Bytes> {
    if |msgs| <= MAX_MSGS then msgs
    else if i == 0 then msgs[..MAX_MSGS]
    else Chunk(msgs[MAX_MSGS..], i - 1)
  }

  lemma {:induction false} SplitPacksChunks(msgs: seq<Bytes>, i: nat)
    requires i < |Split(msgs)|
    ensures Split(msgs)[i] == Pack(Chunk(msgs, i))
    ensures Total(Chunk(msgs, i), LEN_MSG_OVERHEAD) <= Total(msgs, LEN_MSG_OVERHEAD)
    decreases |msgs|
  {
    if |msgs| > MAX_MSGS {
      assert msgs == msgs[..MAX_MSGS] + msgs[MAX_MSGS..];
      TotalConcat(msgs[..MAX_MSGS], msgs[MAX_MSGS..], LEN_MSG_OVERHEAD);
      if i > 0 {
        SplitPacksChunks(msgs[MAX_MSGS..], i - 1);
      }
    }
  }

  /** What a gossip packet needs beyond the share of the budget that its messages take: the checksum
      header, which the budget leaves out, less the compound header and length that a single message
      does without. */
  function GossipExcess(msgs: seq<Bytes>): int {
    if |msgs| == 1 then CRC_HEADER - COMPOUND_HEADER_OVERHEAD - LEN_MSG_OVERHEAD else CRC_HEADER
  }

  lemma {:induction false} GossipLength(codec: Codec, udpBufferSize: int, msgs: seq<Bytes>, i: nat)
    requires Lawful(codec) && i < |GossipPackets(codec, msgs)|
    ensures |GossipPackets(codec, msgs)[i]| + Saved(codec, Payloads(msgs)[i])
         == udpBufferSize + GossipExcess(msgs)
            + Total(Chunk(msgs, i), LEN_MSG_OVERHEAD) - GossipBudget(codec, udpBufferSize)
  {
    PackUdpLength(codec, Payloads(msgs)[i]);
    if |msgs| == 1 {
      assert msgs[1..] == [];
    } else {
      SplitPacksChunks(msgs, i);
      PackedLength(Chunk(msgs, i));
    }
  }

  /** Every gossip packet is at most 5 bytes over the buffer, and one with a single message at most 1. */
  lemma {:induction false} GossipBounded(codec: Codec, udpBufferSize: int, msgs: seq<Bytes>, i: nat)
    requires Lawful(codec) && Total(msgs, LEN_MSG_OVERHEAD) <= GossipBudget(codec, udpBufferSize)
    requires i < |GossipPackets(codec, msgs)|
    ensures |GossipPackets(codec, msgs)[i]| <= udpBufferSize + GossipExcess(msgs)
  {
    GossipLength(codec, udpBufferSize, msgs, i);
    if |msgs| != 1 {
      SplitPacksChunks(msgs, i);
    }
  }

  /** A gossip packet fits the buffer exactly when its messages leave 5 bytes of the budget, or 1 if it is
      a single message, counting what compression saves. */
  lemma {:induction false} GossipFitsIff(codec: Codec, udpBufferSize: int, msgs: seq<Bytes>, i: nat)
    requires Lawful(codec) && i < |GossipPackets(codec, msgs)|
    ensures |GossipPackets(codec, msgs)[i]| <= udpBufferSize
       <==> Total(Chunk(msgs, i), LEN_MSG_OVERHEAD) + GossipExcess(msgs)
              <= GossipBudget(codec, udpBufferSize) + Saved(codec, Payloads(msgs)[i])
  {
    GossipLength(codec, udpBufferSize, msgs, i);
  }

  /** A buffer of 1400 bytes and two messages of 697, which the budget allows: the packet has 1405. */
  lemma GossipExceeds(codec: Codec, a: Bytes, b: Bytes)
    requires Lawful(codec) && codec.compress.None? && codec.encrypt.None? && |a| == 697 && |b| == 697
    ensures Total([a, b], LEN_MSG_OVERHEAD) <= GossipBudget(codec, 1400)
    ensures |GossipPackets(codec, [a, b])| == 1 && |GossipPackets(codec, [a, b])[0]| == 1405
  {
    assert [a, b][1..] == [b] && [b][1..] == [];
    assert Total([b], LEN_MSG_OVERHEAD) == 699;
    GossipLength(codec, 1400, [a, b], 0);
  }

  /** What the receiver of these packets hands on, in order. */
  function Opened(codec: Codec, packets: seq<Bytes>): seq<Bytes> {
    if packets == [] then []
    else
      var got := UnpackPacket(codec, packets[0]);
      (if got.Message? then [got.msg] else []) + Opened(codec, packets[1..])
  }

  lemma {:induction false} OpenedIsPacked(codec: Codec, payloads: seq<Bytes>)
    requires Lawful(codec) && forall i :: 0 <= i < |payloads| ==> Opens(codec, payloads[i])
    ensures Opened(codec, PackAll(codec, payloads)) == payloads
  {
    if payloads != [] {
      PacketRoundTrip(codec, payloads[0]);
      OpenedIsPacked(codec, payloads[1..]);
      assert PackAll(codec, payloads)[1..] == PackAll(codec, payloads[1..]);
    }
  }

  lemma {:induction false} UnpackedIsShort(compounds: seq<Bytes>)
    ensures Short(UnpackAll(compounds))
  {
    if compounds != [] {
      if compounds[0] != [] {
        UnpackedIsPackable(compounds[0][1..]);
      }
      UnpackedIsShort(compounds[1..]);
    }
  }

  lemma {:induction false} PayloadsOpen(codec: Codec, msgs: seq<Bytes>)
    requires Lawful(codec) && (|msgs| == 1 ==> Opens(codec, msgs[0]))
    ensures Opened(codec, GossipPackets(codec, msgs)) == Payloads(msgs)
  {
    var payloads := Payloads(msgs);
    forall i | 0 <= i < |payloads| ensures Opens(codec, payloads[i]) {
      if |msgs| != 1 {
        SplitPacksChunks(msgs, i);
        CompoundOpens(codec, Chunk(msgs, i));
      }
    }
    OpenedIsPacked(codec, payloads);
  }

  /** The compounds of a gossip round hold exactly the gathered messages, however many they are, if and
      only if no message is longer than its length field can say, which a buffer within the reach of UDP
      rules out. */
  lemma {:induction false} GossipIffShort(codec: Codec, udpBufferSize: int, msgs: seq<Bytes>)
    requires Lawful(codec) && |msgs| != 1
    requires Total(msgs, LEN_MSG_OVERHEAD) <= GossipBudget(codec, udpBufferSize)
    ensures UnpackAll(Opened(codec, GossipPackets(codec, msgs))) == msgs <==> Short(msgs)
    ensures udpBufferSize <= 65535 ==> Short(msgs)
  {
    PayloadsOpen(codec, msgs);
    UnpackedIsShort(Split(msgs));
    if Short(msgs) {
      SplitRoundTrip(msgs);
    }
    if udpBufferSize <= 65535 {
      GatheredIsShort(msgs, 65535);
    }
  }

  /** The receiver of a gossip round handles exactly the gathered messages, in order, however many they
      are. Only a message sent alone could fail to open. */
  lemma {:induction false} GossipIsTransparent(codec: Codec, msgs: seq<Bytes>)
    requires Lawful(codec) && if |msgs| == 1 then Opens(codec, msgs[0]) else Short(msgs)
    ensures HandledAll(Opened(codec, GossipPackets(codec, msgs))) == HandledAll(msgs)
  {
    PayloadsOpen(codec, msgs);
    if |msgs| != 1 {
      SplitIsTransparent(msgs);
    }
  }

  method PackEach(codec: Codec, payloads: seq<Bytes>) returns (packets: seq<Bytes>)
    ensures packets == PackAll(codec, payloads)
  {
    packets := [];
    for i := 0 to |payloads|
      invariant |packets| == i && forall k :: 0 <= k < i ==> packets[k] == PackUdp(codec, payloads[k])
    {
      packets := packets + [PackUdp(codec, payloads[i])];
    }
  }

  method PackGossip(codec: Codec, msgs: seq<Bytes>) returns (packets: seq<Bytes>)
    ensures packets == GossipPackets(codec, msgs)
  {
    if |msgs| == 0 {
      return [];
    }
    if |msgs| == 1 {
      return [PackUdp(codec, msgs[0])];
    }
    var compounds := SplitToCompoundMsgs(msgs);
    packets := PackEach(codec, compounds);
  }

  lemma {:induction false} AllGossipBounded(codec: Codec, udpBufferSize: int, msgs: seq<Bytes>)
    requires Lawful(codec) && Total(msgs, LEN_MSG_OVERHEAD) <= Max(0, GossipBudget(codec, udpBufferSize))
    ensures forall i :: 0 <= i < |GossipPackets(codec, msgs)| ==>
              |GossipPackets(codec, msgs)[i]| <= udpBufferSize + GossipExcess(msgs)
  {
    forall i | 0 <= i < |GossipPackets(codec, msgs)|
      ensures |GossipPackets(codec, msgs)[i]| <= udpBufferSize + GossipExcess(msgs) {
      TotalBoundsEach(msgs, LEN_MSG_OVERHEAD, 0);
      GossipBounded(codec, udpBufferSize, msgs, i);
    }
  }

  method GossipTo(codec: Codec, q: TransmitCapQueue, numNodes: nat, user: Option<Delegate>, udpBufferSize: int)
    returns (packets: seq<Bytes>, msgs: seq<Bytes>)
    requires Lawful(codec) && q.Valid() && (user.Some? ==> Respectful(user.value))
    modifies q
    ensures q.Valid() && packets == GossipPackets(codec, msgs)
    ensures msgs == Chosen(old(q.queue), user, LEN_MSG_OVERHEAD, GossipBudget(codec, udpBufferSize))
    ensures q.View() == After(q, old(q.View()), LEN_MSG_OVERHEAD, GossipBudget(codec, udpBufferSize), numNodes)
    ensures Total(msgs, LEN_MSG_OVERHEAD) <= Max(0, GossipBudget(codec, udpBufferSize))
    ensures forall i :: 0 <= i < |packets| ==> |packets[i]| <= udpBufferSize + GossipExcess(msgs)
  {
    var remainingBytes := udpBufferSize - COMPOUND_HEADER_OVERHEAD;
    if codec.encrypt.Some? {
      remainingBytes := remainingBytes - ENCRYPT_OVERHEAD;
    }
    msgs := GetBroadcasts(q, numNodes, user, LEN_MSG_OVERHEAD, remainingBytes);
    packets := PackGossip(codec, msgs);
    AllGossipBounded(codec, udpBufferSize, msgs);
  }
}
