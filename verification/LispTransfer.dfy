/**
 Moving a LispBM program to and from the controller in chunks.

 A device is any function from its state and a request to its next state and a reply, or none.
 The transfers are loops over such a device; `ReadCode` and `Perform` say what they compute.
 A request is written as its payload; a builder that refuses its arguments gives the empty one.
 */
module LispTransfer {
  import opened Checksums
  import opened Framing
  import opened Wrappers
  import opened Codec
  import Client

  const FIRST_READ: nat := 10
  const READ_CHUNK: nat := 400
  const WRITE_CHUNK: nat := 384
  const EMPTY_ERASE: nat := 16
  const ERASE_MARGIN: nat := 100
  const MAX_CODE: nat := 512 * 1024 - 14
  const MAX_INT32: nat := 0x7FFF_FFFF

  type Code = seq<Byte>

  type Respond<!D> = (D, Payload) -> (D, Option<Payload>)

  // ---- Requests and replies ---------------------------------------------------------------

  function BuildRead(length: nat, offset: nat): Payload {
    if length == 0 || length > MAX_PAYLOAD - 10 || length + offset > MAX_INT32 then []
    else [Client.LISP_READ] + BigEndian(WORD, length) + BigEndian(WORD, offset)
  }

  function BuildErase(size: nat): Payload {
    if size == 0 || size > MAX_INT32 then [] else [Client.LISP_ERASE] + BigEndian(WORD, size)
  }

  function BuildWrite(chunk: Code, offset: nat): Payload {
    if chunk == [] || |chunk| > MAX_PAYLOAD - 5 then [] else [Client.LISP_WRITE] + BigEndian(WORD, offset) + chunk
  }

  /** Size, CRC, two flag bytes and the program. */
  function Pack(image: Code): Code {
    if image == [] || |image| > MAX_CODE then []
    else BigEndian(WORD, |image|) + Bytes(Crc([0, 0] + image)) + ([0, 0] + image)
  }

  method PackLispCode(image: Code) returns (packed: Code)
    ensures packed == Pack(image)
  {
    if image == [] || |image| > MAX_CODE {
      return [];
    }
    var code := [0, 0] + image;
    packed := AppendIntegral([], 4, |image|);
    var crc := Checksum(code);
    packed := packed + Bytes(crc);
    packed := packed + code;
  }

  datatype Chunk = Chunk(total: nat, offset: nat, bytes: Code)

  function ParseRead(payload: Payload): Option<Chunk> {
    if |payload| < 9 || payload[0] != Client.LISP_READ then None
    else
      var total, offset := ReadInt32(payload[1..5]), ReadInt32(payload[5..9]);
      var bytes := payload[9..];
      if total < 0 || offset < 0 || total > MAX_CODE || offset + |bytes| > total then None
      else Some(Chunk(total, offset, bytes))
  }

  predicate IsEraseAck(payload: Payload) {
    payload == [Client.LISP_ERASE, 1]
  }

  predicate IsWriteAck(payload: Payload, offset: nat) {
    |payload| == 6 && payload[0] == Client.LISP_WRITE && payload[1] == 1 && Value(payload[2..]) == offset
  }

  /** One request: an empty one is refused before anything is sent. */
  function Ask<D>(respond: Respond<D>, d: D, request: Payload): (D, Option<Payload>) {
    if request == [] then (d, None) else respond(d, request)
  }

  // ---- Reading ----------------------------------------------------------------------------

  datatype Exchange = Exchange(request: Payload, reply: Option<Payload>)

  datatype Talk<D> = Talk(device: D, image: Option<Code>, exchanges: seq<Exchange>)

  function Least(a: nat, b: nat): nat {
    if a < b then a else b
  }

  /** A reply is used only if it is the chunk that was asked for. */
  predicate Continues(reply: Option<Payload>, total: nat, offset: nat, length: nat) {
    && reply.Some?
    && ParseRead(reply.value).Some?
    && var c := ParseRead(reply.value).value;
       c.total == total && c.offset == offset && |c.bytes| == length
  }

  function ReadRest<D>(respond: Respond<D>, d: D, total: nat, image: Code): Talk<D>
    requires |image| <= total
    decreases total - |image|
  {
    if |image| == total then Talk(d, Some(image), [])
    else
      var length := Least(READ_CHUNK, total - |image|);
      var request := BuildRead(length, |image|);
      var (after, reply) := Ask(respond, d, request);
      var exchange := Exchange(request, reply);
      if !Continues(reply, total, |image|, length) then Talk(after, None, [exchange])
      else
        var rest := ReadRest(respond, after, total, image + ParseRead(reply.value).value.bytes);
        rest.(exchanges := [exchange] + rest.exchanges)
  }

  function ReadCode<D>(respond: Respond<D>, d: D): Talk<D> {
    var request := BuildRead(FIRST_READ, 0);
    var (after, reply) := Ask(respond, d, request);
    var exchange := Exchange(request, reply);
    if reply.None? || ParseRead(reply.value).None? then Talk(after, None, [exchange])
    else
      var first := ParseRead(reply.value).value;
      if first.offset != 0 then Talk(after, None, [exchange])
      else if first.total == 0 then Talk(after, Some([]), [exchange])
      else if first.total < FIRST_READ || |first.bytes| != FIRST_READ then Talk(after, None, [exchange])
      else
        var rest := ReadRest(respond, after, first.total, first.bytes);
        rest.(exchanges := [exchange] + rest.exchanges)
  }

  method RequestLispCode<D>(respond: Respond<D>, start: D) returns (image: Option<Code>, device: D)
    ensures image == ReadCode(respond, start).image && device == ReadCode(respond, start).device
  {
    var answer := Ask(respond, start, BuildRead(FIRST_READ, 0));
    device := answer.0;
    if answer.1.None? {
      return None, device;
    }
    var parsed := ParseRead(answer.1.value);
    if parsed.None? || parsed.value.offset != 0 {
      return None, device;
    }
    var total := parsed.value.total;
    if total == 0 {
      return Some([]), device;
    }
    if total < FIRST_READ || |parsed.value.bytes| != FIRST_READ {
      return None, device;
    }
    var bytes := parsed.value.bytes;
    while |bytes| < total
      invariant |bytes| <= total
      invariant ReadCode(respond, start).image == ReadRest(respond, device, total, bytes).image
      invariant ReadCode(respond, start).device == ReadRest(respond, device, total, bytes).device
      decreases total - |bytes|
    {
      var requested := Least(READ_CHUNK, total - |bytes|);
      var next := Ask(respond, device, BuildRead(requested, |bytes|));
      ghost var was := device;
      device := next.0;
      if next.1.None? {
        return None, device;
      }
      parsed := ParseRead(next.1.value);
      if parsed.None? || parsed.value.total != total || parsed.value.offset != |bytes|
          || |parsed.value.bytes| != requested {
        return None, device;
      }
      bytes := bytes + parsed.value.bytes;
    }
    image := Some(bytes);
  }

  // ---- Erasing and writing ----------------------------------------------------------------

  datatype OperationResult = Success | InvalidData | NoReply | Rejected

  datatype Order = Erase(size: nat) | Write(offset: nat, chunk: Code)

  function BodyOf(order: Order): Payload {
    match order
    case Erase(size) => BuildErase(size)
    case Write(offset, chunk) => BuildWrite(chunk, offset)
  }

  predicate Acknowledges(order: Order, reply: Payload) {
    match order
    case Erase(_) => IsEraseAck(reply)
    case Write(offset, _) => IsWriteAck(reply, offset)
  }

  datatype Deed<D> = Deed(device: D, result: OperationResult)

  /** Sends the orders one by one, each only after the one before it was acknowledged. */
  function Perform<D>(respond: Respond<D>, d: D, orders: seq<Order>): Deed<D> {
    if orders == [] then Deed(d, OperationResult.Success)
    else if BodyOf(orders[0]) == [] then Deed(d, if orders[0].Erase? then InvalidData else NoReply)
    else
      var (after, reply) := respond(d, BodyOf(orders[0]));
      if reply.None? then Deed(after, NoReply)
      else if !Acknowledges(orders[0], reply.value) then Deed(after, Rejected)
      else Perform(respond, after, orders[1..])
  }

  function WriteOrders(packed: Code, offset: nat): seq<Order>
    requires offset <= |packed|
    decreases |packed| - offset
  {
    if offset == |packed| then []
    else
      var end := offset + Least(WRITE_CHUNK, |packed| - offset);
      [Write(offset, packed[offset..end])] + WriteOrders(packed, end)
  }

  function Plan(image: Code): seq<Order> {
    [Erase(|image| + 2 + ERASE_MARGIN)] + WriteOrders(Pack(image), 0)
  }

  method EraseLispCodeUntil<D>(respond: Respond<D>, start: D, size: nat) returns (result: OperationResult, device: D)
    ensures size == 0 || size > 0x7FFF_FFFF ==> result == InvalidData && device == start
    ensures 0 < size <= 0x7FFF_FFFF ==>
              var (after, reply) := respond(start, [132] + BigEndian(WORD, size));
              && device == after
              && result == (if reply.None? then NoReply
                            else if reply.value == [132, 1] then OperationResult.Success else Rejected)
    ensures Deed(device, result) == Perform(respond, start, [Erase(size)])
  {
    var request := BuildErase(size);
    if request == [] {
      return InvalidData, start;
    }
    var answer := Ask(respond, start, request);
    device := answer.0;
    if answer.1.None? {
      return NoReply, device;
    }
    result := if IsEraseAck(answer.1.value) then OperationResult.Success else Rejected;
  }

  /** Erasing alone: enough to make the device forget its program. */
  method EraseLispCode<D>(respond: Respond<D>, start: D) returns (result: OperationResult, device: D)
    ensures var (after, reply) := respond(start, [132] + BigEndian(WORD, 16));
            && device == after
            && result == (if reply.None? then NoReply
                          else if reply.value == [132, 1] then OperationResult.Success else Rejected)
    ensures Deed(device, result) == Perform(respond, start, [Erase(EMPTY_ERASE)])
  {
    result, device := EraseLispCodeUntil(respond, start, EMPTY_ERASE);
  }

  lemma PerformFirst<D>(respond: Respond<D>, d: D, order: Order, orders: seq<Order>)
    ensures var first := Perform(respond, d, [order]);
            Perform(respond, d, [order] + orders) ==
            if first.result.Success? then Perform(respond, first.device, orders) else first
  {
    assert ([order] + orders)[1..] == orders;
    assert [order][1..] == [];
  }

  lemma WriteIsBuilt(chunk: Code, offset: nat)
    requires 0 < |chunk| <= WRITE_CHUNK
    ensures BuildWrite(chunk, offset) != []
  {}

  /** What becomes of the orders for the rest of an image. */
  lemma NextWrite<D>(respond: Respond<D>, d: D, packed: Code, offset: nat)
    requires offset < |packed|
    ensures var size := Least(WRITE_CHUNK, |packed| - offset);
            var chunk := packed[offset..offset + size];
            var answer := Ask(respond, d, BuildWrite(chunk, offset));
            Perform(respond, d, WriteOrders(packed, offset)) ==
            if answer.1.None? then Deed(answer.0, NoReply)
            else if !IsWriteAck(answer.1.value, offset) then Deed(answer.0, Rejected)
            else Perform(respond, answer.0, WriteOrders(packed, offset + size))
  {
    var size := Least(WRITE_CHUNK, |packed| - offset);
    var order := Write(offset, packed[offset..offset + size]);
    WriteIsBuilt(order.chunk, offset);
    PerformFirst(respond, d, order, WriteOrders(packed, offset + size));
    SingleWrite(respond, d, order);
  }

  lemma SingleWrite<D>(respond: Respond<D>, d: D, order: Order)
    requires order.Write? && BodyOf(order) != []
    ensures var (after, reply) := respond(d, BodyOf(order));
            Perform(respond, d, [order]) ==
            Deed(after, if reply.None? then NoReply else if !IsWriteAck(reply.value, order.offset) then Rejected
                        else OperationResult.Success)
  {
    assert [order][1..] == [];
  }

  /** The writing loop: one chunk after the other, each acknowledged before the next. */
  method WriteChunks<D>(respond: Respond<D>, start: D, packed: Code) returns (result: OperationResult, device: D)
    ensures Deed(device, result) == Perform(respond, start, WriteOrders(packed, 0))
  {
    device := start;
    var offset := 0;
    ghost var deed := Perform(respond, start, WriteOrders(packed, 0));
    while offset < |packed|
      invariant offset <= |packed|
      invariant deed == Perform(respond, device, WriteOrders(packed, offset))
    {
      var size := Least(WRITE_CHUNK, |packed| - offset);
      var chunk := packed[offset..offset + size];
      NextWrite(respond, device, packed, offset);
      var answer := Ask(respond, device, BuildWrite(chunk, offset));
      device := answer.0;
      if answer.1.None? {
        return NoReply, device;
      }
      if !IsWriteAck(answer.1.value, offset) {
        return Rejected, device;
      }
      offset := offset + size;
    }
    result := OperationResult.Success;
  }

  method WriteLispCode<D>(respond: Respond<D>, start: D, image: Code) returns (result: OperationResult, device: D)
    ensures image == [] || |image| > 524274 ==> result == InvalidData && device == start
    ensures 0 < |image| <= 524274 ==> Deed(device, result) == Perform(respond, start, Plan(image))
  {
    var packed := PackLispCode(image);
    device := start;
    if packed == [] {
      return InvalidData, device;
    }
    result, device := EraseLispCodeUntil(respond, device, |image| + 2 + ERASE_MARGIN);
    PerformFirst(respond, start, Erase(|image| + 2 + ERASE_MARGIN), WriteOrders(packed, 0));
    if result != OperationResult.Success {
      return;
    }
    result, device := WriteChunks(respond, device, packed);
  }
}
