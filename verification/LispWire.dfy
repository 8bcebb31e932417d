/**
 What the LispBM transfers put on the wire and what they take for an answer, byte by byte and against any
 device: the requests of a write and of a read, and the acknowledgements without which there is no
 success.
 */
module LispWire {
  import opened Checksums
  import opened Framing
  import opened Polynomials
  import opened Wrappers
  import opened Codec
  import opened LispTransfer
  import opened LispLaws

  // ---- Requests ---------------------------------------------------------------------------

  /** Which requests are built at all: reads of 1 to 502 bytes that end below 2^31, erases of 1 to 2^31 - 1
      bytes, and writes of 1 to 507 bytes. Each says what it asks for. */
  lemma BuiltExactlyWhen(length: nat, offset: nat, chunk: Code)
    ensures BuildRead(length, offset) ==
            if 1 <= length <= 502 && length + offset <= 0x7FFF_FFFF
            then [130] + BigEndian(4, length) + BigEndian(4, offset) else []
    ensures BuildErase(length) == if 1 <= length <= 0x7FFF_FFFF then [132] + BigEndian(4, length) else []
    ensures BuildWrite(chunk, offset) == if 1 <= |chunk| <= 507 then [131] + BigEndian(4, offset) + chunk else []
  {}

  // ---- A conversation ---------------------------------------------------------------------

  /** The device after it was sent the requests one after the other. */
  function DeviceAfter<D>(respond: Respond<D>, d: D, requests: seq<Payload>): D {
    if requests == [] then d else DeviceAfter(respond, respond(d, requests[0]).0, requests[1..])
  }

  /** What it says to request i, sent after those before it. */
  function ReplyTo<D>(respond: Respond<D>, d: D, requests: seq<Payload>, i: nat): Option<Payload>
    requires i < |requests|
  {
    respond(DeviceAfter(respond, d, requests[..i]), requests[i]).1
  }

  lemma ReplyLater<D>(respond: Respond<D>, d: D, requests: seq<Payload>, i: nat)
    requires i + 1 < |requests|
    ensures ReplyTo(respond, d, requests, i + 1) ==
            ReplyTo(respond, respond(d, requests[0]).0, requests[1..], i)
  {
    assert requests[..i + 1][1..] == requests[1..][..i];
  }

  /** The bytes of the acknowledgement of an order. */
  function AckOf(order: Order): Payload {
    match order
    case Erase(_) => [132, 1]
    case Write(offset, _) => [131, 1] + BigEndian(WORD, offset)
  }

  predicate Sendable(order: Order) {
    BodyOf(order) != [] && (order.Write? ==> order.offset < 0x1_0000_0000)
  }

  lemma AckIsAcknowledged(order: Order, reply: Payload)
    requires Sendable(order)
    ensures Acknowledges(order, reply) <==> reply == AckOf(order)
  {
    if order.Write? {
      FourBytes();
      ValueOfField(4, order.offset);
      if |reply| == 6 {
        FieldOfValue(reply[2..]);
        assert reply == [reply[0], reply[1]] + reply[2..];
      }
      assert AckOf(order)[2..] == BigEndian(WORD, order.offset);
    }
  }

  function BodiesOf(orders: seq<Order>): (bodies: seq<Payload>)
    ensures |bodies| == |orders|
  {
    seq(|orders|, i requires 0 <= i < |orders| => BodyOf(orders[i]))
  }

  predicate AckedUpTo<D>(respond: Respond<D>, d: D, orders: seq<Order>, n: nat)
    requires n <= |orders|
  {
    forall i :: 0 <= i < n ==> ReplyTo(respond, d, BodiesOf(orders), i) == Some(AckOf(orders[i]))
  }

  lemma AckedShift<D>(respond: Respond<D>, d: D, orders: seq<Order>, n: nat)
    requires 0 < n <= |orders|
    ensures AckedUpTo(respond, d, orders, n) <==>
            && respond(d, BodyOf(orders[0])).1 == Some(AckOf(orders[0]))
            && AckedUpTo(respond, respond(d, BodyOf(orders[0])).0, orders[1..], n - 1)
  {
    var bodies := BodiesOf(orders);
    assert bodies[..0] == [] && BodiesOf(orders[1..]) == bodies[1..];
    assert ReplyTo(respond, d, bodies, 0) == respond(d, BodyOf(orders[0])).1;
    forall i | 0 <= i < n - 1
      ensures ReplyTo(respond, d, bodies, i + 1) == ReplyTo(respond, respond(d, bodies[0]).0, bodies[1..], i)
    {
      ReplyLater(respond, d, bodies, i);
    }
    if AckedUpTo(respond, respond(d, BodyOf(orders[0])).0, orders[1..], n - 1) {
      forall i | 1 <= i < n
        ensures ReplyTo(respond, d, bodies, i) ==
                ReplyTo(respond, respond(d, bodies[0]).0, bodies[1..], i - 1)
      {
        ReplyLater(respond, d, bodies, i - 1);
      }
    }
  }

  /** Orders succeed if and only if each gets its own acknowledgement. */
  lemma {:induction false} SucceedsExactlyWhenAcked<D>(respond: Respond<D>, d: D, orders: seq<Order>)
    requires forall i :: 0 <= i < |orders| ==> Sendable(orders[i])
    ensures Perform(respond, d, orders).result.Success? <==> AckedUpTo(respond, d, orders, |orders|)
  {
    if orders != [] {
      var (after, reply) := respond(d, BodyOf(orders[0]));
      AckedShift(respond, d, orders, |orders|);
      if reply.Some? {
        AckIsAcknowledged(orders[0], reply.value);
      }
      SucceedsExactlyWhenAcked(respond, after, orders[1..]);
    }
  }

  lemma FirstFails<D>(respond: Respond<D>, d: D, orders: seq<Order>)
    requires orders != [] && Sendable(orders[0])
    requires respond(d, BodyOf(orders[0])).1 != Some(AckOf(orders[0]))
    ensures Perform(respond, d, orders).result ==
            if respond(d, BodyOf(orders[0])).1.None? then NoReply else Rejected
  {
    var reply := respond(d, BodyOf(orders[0])).1;
    if reply.Some? {
      AckIsAcknowledged(orders[0], reply.value);
    }
  }

  lemma FirstSucceeds<D>(respond: Respond<D>, d: D, orders: seq<Order>)
    requires orders != [] && Sendable(orders[0])
    requires respond(d, BodyOf(orders[0])).1 == Some(AckOf(orders[0]))
    ensures Perform(respond, d, orders).result ==
            Perform(respond, respond(d, BodyOf(orders[0])).0, orders[1..]).result
  {
    AckIsAcknowledged(orders[0], AckOf(orders[0]));
  }

  lemma RepliesShift<D>(respond: Respond<D>, d: D, orders: seq<Order>, k: nat)
    requires k < |orders|
    ensures ReplyTo(respond, d, BodiesOf(orders), k) ==
            if k == 0 then respond(d, BodyOf(orders[0])).1
            else ReplyTo(respond, respond(d, BodyOf(orders[0])).0, BodiesOf(orders[1..]), k - 1)
  {
    var bodies := BodiesOf(orders);
    assert bodies[..0] == [] && BodiesOf(orders[1..]) == bodies[1..];
    if k > 0 {
      ReplyLater(respond, d, bodies, k - 1);
    }
  }

  /** What is needed of orders performed one after the other. */
  ghost predicate OneByOne<D(!new)>(
    perform: (D, seq<Order>) -> OperationResult, reply: (D, seq<Order>, nat) -> Option<Payload>,
    after: (D, Order) -> D, ack: Order -> Payload, ok: Order -> bool)
  {
    && (forall e, os :: os != [] && ok(os[0]) && reply(e, os, 0) != Some(ack(os[0])) ==>
          perform(e, os) == if reply(e, os, 0).None? then NoReply else Rejected)
    && (forall e, os :: os != [] && ok(os[0]) && reply(e, os, 0) == Some(ack(os[0])) ==>
          perform(e, os) == perform(after(e, os[0]), os[1..]))
    && (forall e, os, k: nat :: 0 < k < |os| ==> reply(e, os, k) == reply(after(e, os[0]), os[1..], k - 1))
  }

  lemma {:induction false} FailsAt<D(!new)>(
    perform: (D, seq<Order>) -> OperationResult, reply: (D, seq<Order>, nat) -> Option<Payload>,
    after: (D, Order) -> D, ack: Order -> Payload, ok: Order -> bool, d: D, orders: seq<Order>, k: nat)
    requires OneByOne(perform, reply, after, ack, ok)
    requires k < |orders| && forall i :: 0 <= i < |orders| ==> ok(orders[i])
    requires forall i: nat :: i < k ==> reply(d, orders, i) == Some(ack(orders[i]))
    requires reply(d, orders, k) != Some(ack(orders[k]))
    ensures perform(d, orders) == if reply(d, orders, k).None? then NoReply else Rejected
    decreases k
  {
    if k > 0 {
      var rest, e := orders[1..], after(d, orders[0]);
      forall i: nat | i < k - 1
        ensures reply(e, rest, i) == Some(ack(rest[i]))
      {
        assert reply(d, orders, i + 1) == reply(e, rest, i);
      }
      FailsAt(perform, reply, after, ack, ok, e, rest, k - 1);
    }
  }

  function ReplyOf<D>(respond: Respond<D>, d: D, orders: seq<Order>, k: nat): Option<Payload> {
    if k < |orders| then ReplyTo(respond, d, BodiesOf(orders), k) else None
  }

  lemma PerformIsOneByOne<D(!new)>(
    respond: Respond<D>, perform: (D, seq<Order>) -> OperationResult, reply: (D, seq<Order>, nat) -> Option<Payload>,
    after: (D, Order) -> D)
    requires forall e, os :: perform(e, os) == Perform(respond, e, os).result
    requires forall e, os, k: nat :: reply(e, os, k) == ReplyOf(respond, e, os, k)
    requires forall e, o :: after(e, o) == respond(e, BodyOf(o)).0
    ensures OneByOne(perform, reply, after, AckOf, Sendable)
  {
    forall e, os, k: nat | k < |os|
      ensures reply(e, os, k) ==
              if k == 0 then respond(e, BodyOf(os[0])).1 else reply(after(e, os[0]), os[1..], k - 1)
    {
      RepliesShift(respond, e, os, k);
    }
    forall e, os | os != [] && Sendable(os[0])
      ensures respond(e, BodyOf(os[0])).1 != Some(AckOf(os[0])) ==>
                perform(e, os) == if respond(e, BodyOf(os[0])).1.None? then NoReply else Rejected
      ensures respond(e, BodyOf(os[0])).1 == Some(AckOf(os[0])) ==> perform(e, os) == perform(after(e, os[0]), os[1..])
    {
      if respond(e, BodyOf(os[0])).1 != Some(AckOf(os[0])) {
        FirstFails(respond, e, os);
      } else {
        FirstSucceeds(respond, e, os);
      }
    }
  }

  /** Otherwise the first that does not decides the result. */
  lemma FailureIsExplained<D(!new)>(respond: Respond<D>, d: D, orders: seq<Order>, k: nat)
    requires k < |orders| && forall i :: 0 <= i < |orders| ==> Sendable(orders[i])
    requires AckedUpTo(respond, d, orders, k)
    requires ReplyTo(respond, d, BodiesOf(orders), k) != Some(AckOf(orders[k]))
    ensures Perform(respond, d, orders).result ==
            if ReplyTo(respond, d, BodiesOf(orders), k).None? then NoReply else Rejected
  {
    var perform := (e, os) => Perform(respond, e, os).result;
    var reply := (e, os, i: nat) => ReplyOf(respond, e, os, i);
    var after := (e, o) => respond(e, BodyOf(o)).0;
    PerformIsOneByOne(respond, perform, reply, after);
    FailsAt(perform, reply, after, AckOf, Sendable, d, orders, k);
  }

  // ---- A write ----------------------------------------------------------------------------

  /** The orders for what is left of an image: the next chunk, and those for what is left after it. */
  ghost predicate ChunksOn(orders: nat -> seq<Order>, packed: Code, from: nat) {
    if from >= |packed| then orders(from) == []
    else
      var end := if from + 384 < |packed| then from + 384 else |packed|;
      orders(from) == [Write(from, packed[from..end])] + orders(end)
  }

  lemma {:induction false} ChunkAt(orders: nat -> seq<Order>, packed: Code, from: nat, i: nat)
    requires forall at :: ChunksOn(orders, packed, at)
    requires i < |orders(from)|
    ensures var at := from + 384 * i;
            && at < |packed|
            && orders(from)[i] == Write(at, packed[at..if at + 384 < |packed| then at + 384 else |packed|])
    decreases i
  {
    assert ChunksOn(orders, packed, from);
    if i > 0 {
      var end := if from + 384 < |packed| then from + 384 else |packed|;
      assert orders(from)[i] == orders(end)[i - 1] && ChunksOn(orders, packed, end);
      ChunkAt(orders, packed, end, i - 1);
    }
  }

  lemma {:induction false} ChunkCount(orders: nat -> seq<Order>, packed: Code, from: nat)
    requires from <= |packed| && forall at :: ChunksOn(orders, packed, at)
    ensures |orders(from)| == (|packed| - from + 383) / 384
    decreases |packed| - from
  {
    assert ChunksOn(orders, packed, from);
    if from < |packed| {
      var end := if from + 384 < |packed| then from + 384 else |packed|;
      ChunkCount(orders, packed, end);
      assert (|packed| - from + 383) / 384 == 1 + (|packed| - end + 383) / 384;
    }
  }

  lemma NextChunk(packed: Code, from: nat)
    requires from < |packed|
    ensures var end := if from + 384 < |packed| then from + 384 else |packed|;
            WriteOrders(packed, from) == [Write(from, packed[from..end])] + WriteOrders(packed, end)
  {}

  /** Order i of a write: chunks of 384 bytes, one after the other. */
  lemma OrderAt(packed: Code, i: nat)
    ensures |WriteOrders(packed, 0)| == (|packed| + 383) / 384
    ensures i < |WriteOrders(packed, 0)| ==>
              var at := 384 * i;
              && at < |packed|
              && WriteOrders(packed, 0)[i] ==
                 Write(at, packed[at..if at + 384 < |packed| then at + 384 else |packed|])
  {
    var orders := (from: nat) => if from <= |packed| then WriteOrders(packed, from) else [];
    forall from: nat
      ensures ChunksOn(orders, packed, from)
    {
      if from < |packed| {
        NextChunk(packed, from);
      }
    }
    ChunkCount(orders, packed, 0);
    if i < |WriteOrders(packed, 0)| {
      ChunkAt(orders, packed, 0, i);
    }
  }

  lemma PackUnfolds(image: Code, flags: Code)
    requires 0 < |image| <= 524274 && flags == [0, 0]
    ensures Pack(image) == BigEndian(WORD, |image|) + Bytes(Crc(flags + image)) + (flags + image)
  {}

  /** The bytes of a packed image: its size, a check, two zero flags and the image. */
  lemma PackedBytes(image: Code, check: seq<Byte>, flags: Code)
    requires 0 < |image| <= 524274 && |check| == 2 && flags == [0, 0]
    ensures Pack(image) == BigEndian(WORD, |image|) + check + flags + image <==> IsMultiple(flags + image + check)
  {
    PackUnfolds(image, flags);
    CheckedPack(Pack(image), BigEndian(WORD, |image|), check, flags, image);
  }

  lemma CheckedPack(packed: seq<Byte>, size: seq<Byte>, check: seq<Byte>, flags: seq<Byte>, image: seq<Byte>)
    requires |check| == 2 && packed == size + Bytes(Crc(flags + image)) + (flags + image)
    ensures packed == size + check + flags + image <==> IsMultiple(flags + image + check)
  {
    CrcIsRemainder(flags + image, check);
    SamePacked(packed, size, Bytes(Crc(flags + image)), check, flags, image);
  }

  lemma SamePacked(
    packed: seq<Byte>, size: seq<Byte>, x: seq<Byte>, y: seq<Byte>, flags: seq<Byte>, image: seq<Byte>)
    requires |x| == |y| && packed == size + x + (flags + image)
    ensures packed == size + y + flags + image <==> x == y
  {
    assert packed[|size|..|size| + |x|] == x;
    assert (size + y + flags + image)[|size|..|size| + |y|] == y;
  }

  /** Request i of a write of `image` packed as `packed`: the erase of the image and 102 bytes more, and then
      the chunks at offsets 0, 384, 768 and so on. */
  function WriteRequest(packed: Code, size: nat, i: nat): Payload
    requires i == 0 || 384 * (i - 1) <= |packed|
  {
    if i == 0 then [132] + BigEndian(WORD, size + 102)
    else
      var at := 384 * (i - 1);
      [131] + BigEndian(WORD, at) + packed[at..if at + 384 < |packed| then at + 384 else |packed|]
  }

  function WriteAck(i: nat): Payload {
    if i == 0 then [132, 1] else [131, 1] + BigEndian(WORD, 384 * (i - 1))
  }

  lemma PlanLength(image: Code)
    requires 0 < |image| <= 524274
    ensures |Pack(image)| == |image| + 8 && |Plan(image)| == 1 + (|image| + 391) / 384
  {
    PackedSize(image);
    OrderAt(Pack(image), 0);
  }

  lemma PlanErase(image: Code)
    requires 0 < |image| <= 524274
    ensures Plan(image)[0] == Erase(|image| + 102)
    ensures Sendable(Plan(image)[0]) && BodyOf(Plan(image)[0]) == WriteRequest(Pack(image), |image|, 0)
  {}

  lemma WriteBody(chunk: Code, offset: nat)
    requires 0 < |chunk| <= 384 && offset < 0x1_0000_0000
    ensures Sendable(Write(offset, chunk)) && BodyOf(Write(offset, chunk)) == [131] + BigEndian(WORD, offset) + chunk
  {}

  /** The chunk at index i - 1, as an order and as a request. */
  lemma ChunkRequest(packed: Code, size: nat, i: nat)
    requires 0 < i && 384 * (i - 1) < |packed| <= 524282
    ensures var at := 384 * (i - 1);
            var order := Write(at, packed[at..if at + 384 < |packed| then at + 384 else |packed|]);
            Sendable(order) && BodyOf(order) == WriteRequest(packed, size, i) && AckOf(order) == WriteAck(i)
  {
    var at := 384 * (i - 1);
    WriteBody(packed[at..if at + 384 < |packed| then at + 384 else |packed|], at);
  }

  lemma PlanAt(image: Code, packed: Code, i: nat)
    requires 0 < |image| <= 524274 && 0 < i < |Plan(image)| && packed == Pack(image)
    ensures |packed| == |image| + 8 && 384 * (i - 1) < |image| + 8
    ensures Sendable(Plan(image)[i]) && BodyOf(Plan(image)[i]) == WriteRequest(packed, |image|, i)
    ensures AckOf(Plan(image)[i]) == WriteAck(i)
  {
    PackedSize(image);
    OrderAt(packed, i - 1);
    assert Plan(image)[i] == WriteOrders(packed, 0)[i - 1];
    ChunkRequest(packed, |image|, i);
  }

  /** Against any device: a write succeeds if and only if the erase and every chunk get their own
      acknowledgement, the chunk at an offset the one with that offset. */
  lemma WriteSucceedsExactlyWhenAcked<D>(respond: Respond<D>, d: D, image: Code, requests: seq<Payload>)
    requires 0 < |image| <= 524274 && |requests| == 1 + (|image| + 391) / 384 && |Pack(image)| == |image| + 8
    requires forall i :: 0 <= i < |requests| ==>
               (i == 0 || 384 * (i - 1) <= |image| + 8) && requests[i] == WriteRequest(Pack(image), |image|, i)
    ensures Perform(respond, d, Plan(image)).result.Success? <==>
            forall i :: 0 <= i < |requests| ==> ReplyTo(respond, d, requests, i) == Some(WriteAck(i))
  {
    var orders := Plan(image);
    PlanLength(image);
    PlanErase(image);
    forall i | 0 <= i < |orders|
      ensures Sendable(orders[i]) && BodyOf(orders[i]) == requests[i] && AckOf(orders[i]) == WriteAck(i)
    {
      if i > 0 {
        PlanAt(image, Pack(image), i);
      }
    }
    assert BodiesOf(orders) == requests;
    SucceedsExactlyWhenAcked(respond, d, orders);
  }

  // ---- A read -----------------------------------------------------------------------------

  /** What a reply to a read must be, byte by byte. */
  lemma ReplyMeans(payload: Payload)
    ensures ParseRead(payload).Some? <==>
            && |payload| >= 9 && payload[0] == 130 && payload[1] < 128 && payload[5] < 128
            && WordAt(payload, 1) <= 524274 && WordAt(payload, 5) + |payload| - 9 <= WordAt(payload, 1)
    ensures ParseRead(payload).Some? ==>
              ParseRead(payload).value == LispTransfer.Chunk(WordAt(payload, 1), WordAt(payload, 5), payload[9..])
  {
    if |payload| >= 9 {
      SignedAt(payload, 1);
      SignedAt(payload, 5);
    }
  }

  function WordAt(payload: Payload, at: nat): nat
    requires at + 4 <= |payload|
  {
    (payload[at] as int) * 0x100_0000 + (payload[at + 1] as int) * 0x1_0000 + (payload[at + 2] as int) * 0x100
    + payload[at + 3]
  }

  lemma SignedAt(payload: Payload, at: nat)
    requires at + 4 <= |payload|
    ensures ReadInt32(payload[at..at + 4]) ==
            if payload[at] < 128 then WordAt(payload, at) else WordAt(payload, at) - 0x1_0000_0000
  {
    SignedBytes(payload[at], payload[at + 1], payload[at + 2], payload[at + 3]);
    assert payload[at..at + 4] == [payload[at], payload[at + 1], payload[at + 2], payload[at + 3]];
  }

  /** How much is asked for at offset `at`. */
  function Asked(total: nat, at: nat): nat
    requires at <= total
  {
    if total - at < 400 then total - at else 400
  }

  /** A reader that has `had` of `total` bytes asks for the next piece, and then stops or goes on with more. */
  ghost predicate AsksOn<D(!new)>(
    read: (D, Code) -> seq<Payload>, build: (nat, nat) -> Payload, total: nat, d: D, had: Code)
  {
    if |had| >= total then read(d, had) == []
    else
      var first := build(Asked(total, |had|), |had|);
      || read(d, had) == [first]
      || exists after, more :: |more| == |had| + Asked(total, |had|) && read(d, had) == [first] + read(after, more)
  }

  lemma {:induction false} PiecesInOrder<D(!new)>(
    read: (D, Code) -> seq<Payload>, build: (nat, nat) -> Payload, total: nat, d: D, had: Code, i: nat)
    requires forall e, c :: AsksOn(read, build, total, e, c)
    requires i < |read(d, had)|
    ensures var at := |had| + 400 * i; at < total && read(d, had)[i] == build(Asked(total, at), at)
    decreases i
  {
    assert AsksOn(read, build, total, d, had);
    if i > 0 {
      var first := build(Asked(total, |had|), |had|);
      var after, more :| |more| == |had| + Asked(total, |had|) && read(d, had) == [first] + read(after, more);
      assert AsksOn(read, build, total, after, more);
      PiecesInOrder(read, build, total, after, more, i - 1);
      assert read(d, had)[i] == read(after, more)[i - 1];
    }
  }

  function RequestsOf(exchanges: seq<Exchange>): (requests: seq<Payload>)
    ensures |requests| == |exchanges|
  {
    seq(|exchanges|, i requires 0 <= i < |exchanges| => exchanges[i].request)
  }

  function RestOf<D>(respond: Respond<D>, total: nat, d: D, had: Code): seq<Payload> {
    if |had| <= total then RequestsOf(ReadRest(respond, d, total, had).exchanges) else []
  }

  lemma RequestsAppend(first: Exchange, rest: seq<Exchange>)
    ensures RequestsOf([first] + rest) == [first.request] + RequestsOf(rest)
  {}

  /** One more exchange, with the request hidden behind `build`. */
  lemma RestUnfolds<D>(respond: Respond<D>, total: nat, d: D, had: Code, request: Payload)
    returns (after: D, more: Code)
    requires |had| < total && request == BuildRead(Asked(total, |had|), |had|)
    ensures RestOf(respond, total, d, had) == [request] ||
            (|more| == |had| + Asked(total, |had|) &&
             RestOf(respond, total, d, had) == [request] + RestOf(respond, total, after, more))
  {
    var length := Least(READ_CHUNK, total - |had|);
    var exchange := Ask(respond, d, request);
    after, more := exchange.0, [];
    if Continues(exchange.1, total, |had|, length) {
      more := had + ParseRead(exchange.1.value).value.bytes;
      RequestsAppend(Exchange(request, exchange.1), ReadRest(respond, after, total, more).exchanges);
    } else {
      RequestsAppend(Exchange(request, exchange.1), []);
    }
  }

  lemma RestAsksOn<D(!new)>(
    respond: Respond<D>, read: (D, Code) -> seq<Payload>, build: (nat, nat) -> Payload, total: nat, d: D, had: Code)
    requires forall e, c :: read(e, c) == RestOf(respond, total, e, c)
    requires forall length: nat, offset: nat :: build(length, offset) == BuildRead(length, offset)
    ensures AsksOn(read, build, total, d, had)
  {
    if |had| < total {
      var after, more := RestUnfolds(respond, total, d, had, build(Asked(total, |had|), |had|));
      assert read(d, had) == RestOf(respond, total, d, had) && read(after, more) == RestOf(respond, total, after, more);
    }
  }

  lemma RestRequests<D(!new)>(respond: Respond<D>, d: D, total: nat, image: Code, i: nat)
    requires |image| <= total && i < |ReadRest(respond, d, total, image).exchanges|
    ensures var at := |image| + 400 * i;
            && at < total
            && ReadRest(respond, d, total, image).exchanges[i].request == BuildRead(Asked(total, at), at)
  {
    var read := (e, c) => RestOf(respond, total, e, c);
    forall e, c
      ensures AsksOn(read, BuildRead, total, e, c)
    {
      RestAsksOn(respond, read, BuildRead, total, e, c);
    }
    PiecesInOrder(read, BuildRead, total, d, image, i);
  }

  lemma SmallField(v: nat)
    requires v < 256
    ensures BigEndian(4, v) == [0, 0, 0, v]
  {
    FieldBytes(v);
  }

  /** Below 256 the bytes of a read are its length and offset with zeros in front. */
  lemma SmallRead(length: nat, offset: nat)
    requires 0 < length < 256 && offset < 256
    ensures BuildRead(length, offset) == [130, 0, 0, 0, length, 0, 0, 0, offset]
  {
    BuiltExactlyWhen(length, offset, []);
    SmallField(length);
    SmallField(offset);
  }

  /** The first request, and the declared total that the others depend on. */
  lemma ReadBegins<D>(respond: Respond<D>, d: D) returns (after: D, image: Code)
    ensures var all := ReadCode(respond, d).exchanges;
            && all != [] && all[0].request == BuildRead(10, 0)
            && (|all| > 1 ==>
                  && |image| == 10 && FirstTotal(all).Some? && 10 <= FirstTotal(all).value <= 524274
                  && all[1..] == ReadRest(respond, after, FirstTotal(all).value, image).exchanges)
  {
    ReadStarts(respond, d);
    var first := respond(d, BuildRead(FIRST_READ, 0));
    after, image := first.0, [];
    if GoodStart(first.1) {
      var c := ParseRead(first.1.value).value;
      ParsedTotal(first.1.value);
      image := c.bytes;
      assert ReadCode(respond, d).exchanges[1..] == ReadRest(respond, after, c.total, c.bytes).exchanges;
    }
  }

  /** Against any device: a read asks for the first ten bytes, and then for the rest of the declared total in
      pieces of 400. */
  lemma ReadRequests<D(!new)>(respond: Respond<D>, d: D, i: nat)
    ensures var all := ReadCode(respond, d).exchanges;
            && all != [] && all[0].request == BuildRead(10, 0)
            && (0 < i < |all| ==>
                  && FirstTotal(all).Some?
                  && var total, at := FirstTotal(all).value, 10 + 400 * (i - 1);
                     at < total && all[i].request == BuildRead(Asked(total, at), at))
  {
    var all := ReadCode(respond, d).exchanges;
    var after, image := ReadBegins(respond, d);
    if 0 < i < |all| {
      RestRequests(respond, after, FirstTotal(all).value, image, i - 1);
      assert all[i] == all[1..][i - 1];
    }
  }
}
