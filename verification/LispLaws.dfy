/**
 What the LispBM transfers achieve: against any device a completed read is a gapless tiling, and
 against an honest one a successful write stores the image and a completed read returns it.
 */
module LispLaws {
  import opened Checksums
  import opened Framing
  import opened Wrappers
  import opened Codec
  import opened LispTransfer

  // ---- Any device -------------------------------------------------------------------------

  /** The replies carry consecutive pieces of `image` from `from` to its end, all with its length
      as the declared total. */
  ghost predicate Tiles(exchanges: seq<Exchange>, image: Code, from: nat) {
    if exchanges == [] then from == |image|
    else
      && exchanges[0].reply.Some?
      && ParseRead(exchanges[0].reply.value).Some?
      && var c := ParseRead(exchanges[0].reply.value).value;
         && c.total == |image|
         && c.offset == from
         && c.bytes != []
         && from + |c.bytes| <= |image|
         && image[from..from + |c.bytes|] == c.bytes
         && Tiles(exchanges[1..], image, from + |c.bytes|)
  }

  /** Every request is one the builder accepts. */
  predicate AllSent(exchanges: seq<Exchange>) {
    forall i :: 0 <= i < |exchanges| ==> exchanges[i].request != []
  }

  /** Chunks of up to `size` bytes needed for `n` bytes. */
  function Pieces(n: nat, size: nat): nat
    requires size > 0
  {
    (n + size - 1) / size
  }

  lemma OneMorePiece(n: nat)
    requires n > 0
    ensures Pieces(n, READ_CHUNK) == 1 + Pieces(n - Least(READ_CHUNK, n), READ_CHUNK)
  {
    if n > READ_CHUNK {
      assert (n - 400 + 399) / 400 == (n + 399) / 400 - 1;
    }
  }

  lemma {:induction false} RestIsShort<D>(respond: Respond<D>, d: D, total: nat, image: Code)
    requires |image| <= total <= MAX_CODE
    ensures var t := ReadRest(respond, d, total, image);
            AllSent(t.exchanges) && |t.exchanges| <= Pieces(total - |image|, READ_CHUNK)
    decreases total - |image|
  {
    if |image| < total {
      var length := Least(READ_CHUNK, total - |image|);
      OneMorePiece(total - |image|);
      var request := BuildRead(length, |image|);
      assert request != [];
      var (after, reply) := Ask(respond, d, request);
      if Continues(reply, total, |image|, length) {
        RestIsShort(respond, after, total, image + ParseRead(reply.value).value.bytes);
      }
    }
  }

  /** One more piece in front of a tiling. */
  lemma TilesMore(exchange: Exchange, rest: seq<Exchange>, image: Code, had: Code, length: nat)
    requires 0 < length && Continues(exchange.reply, |image|, |had|, length)
    requires had + ParseRead(exchange.reply.value).value.bytes <= image && Tiles(rest, image, |had| + length)
    ensures Tiles([exchange] + rest, image, |had|)
  {
    assert ([exchange] + rest)[1..] == rest;
    assert image[|had|..|had| + length] == ParseRead(exchange.reply.value).value.bytes;
  }

  /** A read that reaches `total` extends what it had and tiles the rest. */
  lemma {:induction false} RestTiles<D>(respond: Respond<D>, d: D, total: nat, image: Code)
    requires |image| <= total <= MAX_CODE
    ensures var t := ReadRest(respond, d, total, image);
            t.image.Some? ==>
                  |t.image.value| == total && image <= t.image.value && Tiles(t.exchanges, t.image.value, |image|)
    decreases total - |image|
  {
    if |image| < total {
      var length := Least(READ_CHUNK, total - |image|);
      var request := BuildRead(length, |image|);
      var (after, reply) := Ask(respond, d, request);
      if Continues(reply, total, |image|, length) {
        var more := image + ParseRead(reply.value).value.bytes;
        RestTiles(respond, after, total, more);
        var rest := ReadRest(respond, after, total, more);
        if rest.image.Some? {
          TilesMore(Exchange(request, reply), rest.exchanges, rest.image.value, image, length);
        }
      }
    }
  }

  /** The total that the first reply of a conversation declares. */
  function FirstTotal(exchanges: seq<Exchange>): Option<nat> {
    if exchanges == [] || exchanges[0].reply.None? then None
    else
      var c := ParseRead(exchanges[0].reply.value);
      if c.None? then None else Some(c.value.total)
  }

  /** The reads allowed for a given total: the first, and what the rest of the program needs. */
  function ReadBound(total: Option<nat>): nat {
    if total.None? || total.value < FIRST_READ then 1 else 1 + Pieces(total.value - FIRST_READ, READ_CHUNK)
  }

  lemma ParsedTotal(payload: Payload)
    ensures ParseRead(payload).Some? ==> ParseRead(payload).value.total <= MAX_CODE
    ensures ParseRead(payload).Some? ==>
              ParseRead(payload).value.offset + |ParseRead(payload).value.bytes| <= ParseRead(payload).value.total
  {}

  /** A first reply that a read goes on from. */
  predicate GoodStart(reply: Option<Payload>) {
    && reply.Some?
    && ParseRead(reply.value).Some?
    && var c := ParseRead(reply.value).value;
       c.offset == 0 && c.total >= FIRST_READ && |c.bytes| == FIRST_READ
  }

  lemma ReadStarts<D>(respond: Respond<D>, d: D)
    ensures BuildRead(FIRST_READ, 0) != []
    ensures var (after, reply) := respond(d, BuildRead(FIRST_READ, 0));
            var first := Exchange(BuildRead(FIRST_READ, 0), reply);
            var t := ReadCode(respond, d);
            if GoodStart(reply)
            then var c := ParseRead(reply.value).value;
                 var rest := ReadRest(respond, after, c.total, c.bytes);
                 t.image == rest.image && t.exchanges == [first] + rest.exchanges
            else t.exchanges == [first] && (t.image.Some? ==> t.image.value == [] && FirstTotal([first]) == Some(0))
  {
    var request := BuildRead(FIRST_READ, 0);
    assert request != [];
    var (after, reply) := respond(d, request);
    if reply.Some? && ParseRead(reply.value).Some? {
      var c := ParseRead(reply.value).value;
      ParsedTotal(reply.value);
      if c.offset == 0 && c.total > 0 {
        if c.total < FIRST_READ || |c.bytes| != FIRST_READ {
          assert ReadCode(respond, d) == Talk(after, None, [Exchange(request, reply)]);
        } else {
          assert GoodStart(reply);
        }
      }
    }
  }

  /** Whatever the device does: every request is valid, the number of reads is bounded by the first
      declared total, and a result has that length and is tiled by the replies. */
  lemma ReadIsTiled<D>(respond: Respond<D>, d: D)
    ensures var t := ReadCode(respond, d);
            && t.exchanges != []
            && AllSent(t.exchanges)
            && |t.exchanges| <= ReadBound(FirstTotal(t.exchanges))
            && (t.image.Some? ==> FirstTotal(t.exchanges) == Some(|t.image.value|))
            && (t.image.Some? && t.image.value != [] ==> Tiles(t.exchanges, t.image.value, 0))
  {
    ReadStarts(respond, d);
    var (after, reply) := respond(d, BuildRead(FIRST_READ, 0));
    if GoodStart(reply) {
      var c := ParseRead(reply.value).value;
      ParsedTotal(reply.value);
      RestIsTiled(respond, after, c, Exchange(BuildRead(FIRST_READ, 0), reply));
    }
  }

  /** Whatever the device: no read returns one to nine bytes. */
  lemma ReadsNothingShort<D>(respond: Respond<D>, d: D)
    ensures var t := ReadCode(respond, d);
            t.image.Some? && t.image.value != [] ==> |t.image.value| >= FIRST_READ
  {
    ReadStarts(respond, d);
    var (after, reply) := respond(d, BuildRead(FIRST_READ, 0));
    if GoodStart(reply) {
      var c := ParseRead(reply.value).value;
      ParsedTotal(reply.value);
      RestTiles(respond, after, c.total, c.bytes);
    }
  }

  /** Whatever the device does besides: if it declares a total of one to nine bytes, nothing is read. */
  lemma ShortIsUnreadable<D>(respond: Respond<D>, d: D, size: nat)
    requires 0 < size < FIRST_READ
    requires var reply := respond(d, BuildRead(FIRST_READ, 0)).1;
             reply.Some? && ParseRead(reply.value).Some? ==> ParseRead(reply.value).value.total == size
    ensures ReadCode(respond, d).image.None?
  {
    ReadStarts(respond, d);
    ReadIsTiled(respond, d);
    ReadsNothingShort(respond, d);
  }

  lemma RestIsTiled<D>(respond: Respond<D>, d: D, c: LispTransfer.Chunk, first: Exchange)
    requires first.request != [] && GoodStart(first.reply) && ParseRead(first.reply.value) == Some(c)
             && c.total <= MAX_CODE
    ensures var rest := ReadRest(respond, d, c.total, c.bytes);
            var all := [first] + rest.exchanges;
            && AllSent(all)
            && |all| <= ReadBound(FirstTotal(all))
            && (rest.image.Some? ==> FirstTotal(all) == Some(|rest.image.value|) && Tiles(all, rest.image.value, 0))
  {
    RestIsShort(respond, d, c.total, c.bytes);
    RestTiles(respond, d, c.total, c.bytes);
    var rest := ReadRest(respond, d, c.total, c.bytes);
    if rest.image.Some? {
      TilesMore(first, rest.exchanges, rest.image.value, [], FIRST_READ);
    }
  }

  /** All of a write's orders are valid requests, cover the packed image in order, and stay inside
      the range that the first one erases. */
  ghost predicate Covers(orders: seq<Order>, packed: Code, from: nat, limit: nat) {
    if orders == [] then from == |packed|
    else
      && orders[0].Write?
      && orders[0].offset == from
      && BodyOf(orders[0]) != []
      && from + |orders[0].chunk| <= |packed|
      && from + |orders[0].chunk| <= limit
      && packed[from..from + |orders[0].chunk|] == orders[0].chunk
      && Covers(orders[1..], packed, from + |orders[0].chunk|, limit)
  }

  lemma {:induction false} OrdersCover(packed: Code, from: nat, limit: nat)
    requires from <= |packed| <= limit
    ensures Covers(WriteOrders(packed, from), packed, from, limit)
    decreases |packed| - from
  {
    if from < |packed| {
      OrdersCover(packed, from + Least(WRITE_CHUNK, |packed| - from), limit);
    }
  }

  lemma PackedParts(size: seq<Byte>, check: seq<Byte>, image: Code)
    requires |size| == 4 && |check| == 2
    ensures var packed := size + check + ([0, 0] + image);
            |packed| == |image| + 8 && packed[..4] == size && packed[4..6] == check && packed[6..] == [0, 0] + image
                && packed[8..] == image
  {}

  lemma PackedSize(image: Code)
    requires 0 < |image| <= MAX_CODE
    ensures |Pack(image)| == |image| + 8
    ensures Value(Pack(image)[..4]) == |image| && Pack(image)[8..] == image
  {
    FourBytes();
    ValueOfField(4, |image|);
    PackedParts(BigEndian(WORD, |image|), Bytes(Crc([0, 0] + image)), image);
  }

  /** The CRC field checks the flags and the program: together they leave the residue zero, and no
      other two bytes do. */
  lemma PackedChecks(image: Code, field: seq<Byte>)
    requires 0 < |image| <= MAX_CODE && |field| == 2
    ensures |Pack(image)| == |image| + 8
    ensures Crc(Pack(image)[6..] + field) == Zeros(16) <==> field == Pack(image)[4..6]
  {
    var code := [0, 0] + image;
    PackedParts(BigEndian(WORD, |image|), Bytes(Crc(code)), image);
    ZeroResidue(code, field);
  }

  lemma WritesStayInErasedRange(image: Code)
    requires 0 < |image| <= MAX_CODE
    ensures Plan(image) != [] && Plan(image)[0].Erase? && BodyOf(Plan(image)[0]) != []
    ensures Covers(Plan(image)[1..], Pack(image), 0, Plan(image)[0].size)
  {
    PackedSize(image);
    OrdersCover(Pack(image), 0, |image| + 2 + ERASE_MARGIN);
  }

  // ---- An honest device -------------------------------------------------------------------

  /** What may go wrong with one request: it never arrives, its reply is lost, or it is refused. */
  datatype Fault = Fine | RequestLost | ReplyLost | Refused

  /** The flash area, how much of it has been erased for writing, the program the device makes of it,
      whether it answers a read past the end of the program with the bytes it has or not at all, and
      the faults still to come. */
  datatype Honest = Honest(flash: Code, erased: nat, code: Code, generous: bool, faults: seq<Fault>)

  function NextFault(d: Honest): Fault {
    if d.faults == [] then Fine else d.faults[0]
  }

  function Later(d: Honest): Honest {
    if d.faults == [] then d else d.(faults := d.faults[1..])
  }

  function Blank(n: nat): Code {
    seq(n, _ => 0)
  }

  /** Flash contents after writing `chunk` at `offset`, growing as needed. */
  function Overlay(flash: Code, offset: nat, chunk: Code): Code {
    var size := offset + |chunk|;
    var cells := if |flash| < size then flash + Blank(size - |flash|) else flash;
    cells[..offset] + chunk + cells[size..]
  }

  /** The program in flash once all of it is there; `was` until then. */
  function CodeIn(flash: Code, was: Code): Code {
    if |flash| < 8 then was
    else
      var size := Value(flash[..4]);
      if |flash| < size + 8 then was else flash[8..8 + size]
  }

  function OnRead(d: Honest, length: int, offset: int): Option<Payload> {
    if d.code == [] then Some([Client.LISP_READ] + BigEndian(WORD, 0) + BigEndian(WORD, 0))
    else if length > 0 && offset >= 0 && offset + length <= |d.code|
    then
      Some([Client.LISP_READ] + BigEndian(WORD, |d.code|) + BigEndian(WORD, offset) + d.code[offset..offset + length])
    else if d.generous && length > 0 && 0 <= offset <= |d.code|
    then Some([Client.LISP_READ] + BigEndian(WORD, |d.code|) + BigEndian(WORD, offset) + d.code[offset..])
    else None
  }

  function OnWrite(d: Honest, offset: nat, chunk: Code): Honest {
    var flash := Overlay(d.flash, offset, chunk);
    d.(flash := flash, code := CodeIn(flash, d.code))
  }

  /** Writes outside the erased range are refused. */
  function Serve(d: Honest, request: Payload, refuse: bool): (Honest, Option<Payload>) {
    if request == [] then (d, None)
    else if request[0] == Client.LISP_READ && |request| == 9 then
      (d, OnRead(d, ReadInt32(request[1..5]), ReadInt32(request[5..9])))
    else if request[0] == Client.LISP_ERASE && |request| == 5 then
      if refuse then (d, Some([Client.LISP_ERASE, 0]))
      else (d.(flash := [], erased := Value(request[1..5]), code := []), Some([Client.LISP_ERASE, 1]))
    else if request[0] == Client.LISP_WRITE && |request| >= 6 then
      if refuse || Value(request[1..5]) + |request| - 5 > d.erased then (d,
          Some([Client.LISP_WRITE, 0] + request[1..5]))
      else (OnWrite(d, Value(request[1..5]), request[5..]), Some([Client.LISP_WRITE, 1] + request[1..5]))
    else (d, None)
  }

  function HonestReply(d: Honest, request: Payload): (Honest, Option<Payload>) {
    var fault := NextFault(d);
    if fault.RequestLost? then (Later(d), None)
    else
      var (after, reply) := Serve(Later(d), request, fault.Refused?);
      (after, if fault.ReplyLost? then None else reply)
  }

  // ---- Writing to it ----------------------------------------------------------------------

  lemma OverlayAppends(flash: Code, chunk: Code)
    ensures Overlay(flash, |flash|, chunk) == flash + chunk
  {}

  lemma RefusalIsNoAck(offset: nat, field: seq<Byte>)
    ensures !IsWriteAck([Client.LISP_WRITE, 0] + field, offset)
  {}

  /** An acknowledged write at the end of the flash appends. */
  lemma WriteAppends(d: Honest, offset: nat, chunk: Code)
    requires BodyOf(Write(offset, chunk)) != [] && offset == |d.flash| < Power(4)
    ensures var (after, reply) := HonestReply(d, BodyOf(Write(offset, chunk)));
            && (reply.Some? && Acknowledges(Write(offset, chunk), reply.value) ==>
                after.flash == d.flash + chunk && after.erased == d.erased && after.code == CodeIn(after.flash, d.code))
            && (d.faults == [] && offset + |chunk| <= d.erased ==>
                reply.Some? && Acknowledges(Write(offset, chunk), reply.value) && after.faults == [])
  {
    var request := BuildWrite(chunk, offset);
    assert request[1..5] == BigEndian(WORD, offset) && request[5..] == chunk;
    ValueOfField(4, offset);
    OverlayAppends(d.flash, chunk);
    RefusalIsNoAck(offset, request[1..5]);
  }

  /** Orders are performed one after the other until one fails. */
  ghost predicate Sequential<D(!new)>(perform: (D, seq<Order>) -> Deed<D>) {
    && (forall d :: perform(d, []) == Deed(d, OperationResult.Success))
    && (forall d, order, orders: seq<Order> ::
          perform(d, [order] + orders) ==
          if perform(d, [order]).result.Success? then perform(perform(d, [order]).device, orders)
          else perform(d, [order]))
  }

  /** What a device does with a write at the end of its flash: an acknowledged one appends and leaves
      the device settled, and a ready device acknowledges one below the limit and stays ready. */
  ghost predicate Extends<D>(
    perform: (D, seq<Order>) -> Deed<D>, flash: D -> Code, settled: D -> bool, ready: D -> bool, limit: nat, d: D,
        chunk: Code)
  {
    var t := perform(d, [Write(|flash(d)|, chunk)]);
    && (t.result.Success? ==> flash(t.device) == flash(d) + chunk && settled(t.device))
    && (ready(d) && |flash(d)| + |chunk| <= limit ==> t.result.Success? && ready(t.device))
  }

  lemma Appended(packed: Code, from: nat, end: nat)
    requires from <= end <= |packed|
    ensures packed[..from] + packed[from..end] == packed[..end]
  {}

  /** The rest of a write fills the flash up to the packed image. */
  lemma {:induction false} WritesFill<D(!new)>(
    perform: (D, seq<Order>) -> Deed<D>, flash: D -> Code, settled: D -> bool, ready: D -> bool, d: D, packed: Code,
        from: nat)
    requires Sequential(perform)
    requires forall e, chunk: Code | |flash(e)| + |chunk| <= |packed| && 0 < |chunk| <= WRITE_CHUNK ::
               Extends(perform, flash, settled, ready, |packed|, e, chunk)
    requires from <= |packed| && flash(d) == packed[..from] && (from == |packed| ==> settled(d))
    ensures var t := perform(d, WriteOrders(packed, from));
            && (t.result.Success? ==> flash(t.device) == packed && settled(t.device))
            && (ready(d) ==> t.result.Success?)
    decreases |packed| - from
  {
    if from < |packed| {
      var end := from + Least(WRITE_CHUNK, |packed| - from);
      var chunk := packed[from..end];
      assert Extends(perform, flash, settled, ready, |packed|, d, chunk);
      Appended(packed, from, end);
      var first := perform(d, [Write(from, chunk)]);
      if first.result.Success? {
        WritesFill(perform, flash, settled, ready, first.device, packed, end);
      }
    }
  }

  function FlashOf(d: Honest): Code {
    d.flash
  }

  predicate Settled(d: Honest) {
    d.code == CodeIn(d.flash, d.code)
  }

  function HonestPerform(d: Honest, orders: seq<Order>): Deed<Honest> {
    Perform(HonestReply, d, orders)
  }

  lemma HonestIsSequential()
    ensures Sequential(HonestPerform)
  {
    forall d, order, orders: seq<Order>
      ensures HonestPerform(d, [order] + orders) ==
              if HonestPerform(d, [order]).result.Success? then HonestPerform(HonestPerform(d, [order]).device, orders)
              else HonestPerform(d, [order])
    {
      PerformFirst(HonestReply, d, order, orders);
    }
  }

  lemma HonestExtends(ready: Honest -> bool, limit: nat, d: Honest, chunk: Code)
    requires forall h: Honest :: ready(h) <==> h.faults == [] && limit <= h.erased
    requires |d.flash| + |chunk| <= limit < Power(4) && 0 < |chunk| <= WRITE_CHUNK
    ensures Extends(HonestPerform, FlashOf, Settled, ready, limit, d, chunk)
  {
    OneWrite(d, chunk);
  }

  lemma StaysSettled(flash: Code, was: Code)
    ensures CodeIn(flash, CodeIn(flash, was)) == CodeIn(flash, was)
  {}

  lemma OneOrder<D>(respond: Respond<D>, d: D, order: Order)
    requires BodyOf(order) != []
    ensures var (after, reply) := respond(d, BodyOf(order));
            Perform(respond, d, [order]) ==
            Deed(after, if reply.None? then NoReply
                        else if Acknowledges(order, reply.value) then OperationResult.Success else Rejected)
  {
    assert [order][1..] == [];
  }

  lemma OneWrite(d: Honest, chunk: Code)
    requires |d.flash| < Power(4) && 0 < |chunk| <= WRITE_CHUNK
    ensures var t := HonestPerform(d, [Write(|d.flash|, chunk)]);
            && (t.result.Success? ==>
                    t.device.flash == d.flash + chunk && t.device.erased == d.erased && Settled(t.device))
            && (d.faults == [] && |d.flash| + |chunk| <= d.erased ==> t.result.Success? && t.device.faults == [])
  {
    WriteAppends(d, |d.flash|, chunk);
    OneOrder(HonestReply, d, Write(|d.flash|, chunk));
    StaysSettled(d.flash + chunk, d.code);
  }

  lemma HonestFills(d: Honest, packed: Code)
    requires 0 < |packed| < Power(4) && d.flash == []
    ensures var t := Perform(HonestReply, d, WriteOrders(packed, 0));
            && (t.result.Success? ==> t.device.flash == packed && Settled(t.device))
            && (d.faults == [] && |packed| <= d.erased ==> t.result.Success?)
  {
    var ready := (h: Honest) => h.faults == [] && |packed| <= h.erased;
    forall e: Honest, chunk: Code | |FlashOf(e)| + |chunk| <= |packed| && 0 < |chunk| <= WRITE_CHUNK
      ensures Extends(HonestPerform, FlashOf, Settled, ready, |packed|, e, chunk)
    {
      HonestExtends(ready, |packed|, e, chunk);
    }
    HonestIsSequential();
    assert packed[..0] == [];
    WritesFill(HonestPerform, FlashOf, Settled, ready, d, packed, 0);
  }

  lemma EraseClears(d: Honest, size: nat)
    requires 0 < size <= MAX_INT32
    ensures var t := Perform(HonestReply, d, [Erase(size)]);
            && (t.result.Success? ==> t.device.flash == [] && t.device.code == [] && t.device.erased == size)
            && (d.faults == [] ==> t.result.Success? && t.device.faults == [])
  {
    FourBytes();
    ValueOfField(4, size);
    assert BuildErase(size)[1..5] == BigEndian(WORD, size);
    assert [Erase(size)][1..] == [];
  }

  lemma CodeOfPacked(image: Code, code: Code)
    requires 0 < |image| <= MAX_CODE
    ensures code == CodeIn(Pack(image), code) ==> code == image
  {
    PackedSize(image);
    assert Pack(image)[8..8 + |image|] == image;
  }

  /** An erase and the writes that follow it, for any packed contents that fit. */
  lemma StoresPacked(d: Honest, size: nat, packed: Code)
    requires 0 < |packed| <= size <= MAX_INT32
    ensures var t := Perform(HonestReply, d, [Erase(size)] + WriteOrders(packed, 0));
            && (t.result.Success? ==> t.device.flash == packed && Settled(t.device))
            && (d.faults == [] ==> t.result.Success?)
  {
    FourBytes();
    EraseClears(d, size);
    PerformFirst(HonestReply, d, Erase(size), WriteOrders(packed, 0));
    var erased := Perform(HonestReply, d, [Erase(size)]);
    if erased.result.Success? {
      HonestFills(erased.device, packed);
    }
  }

  /** A successful write leaves the packed image in flash and the image as the program. */
  lemma WriteStoresImage(d: Honest, image: Code)
    requires 0 < |image| <= MAX_CODE
    ensures var t := Perform(HonestReply, d, Plan(image));
            && (t.result.Success? ==> t.device.flash == Pack(image) && t.device.code == image)
            && (d.faults == [] ==> t.result.Success?)
  {
    PackedSize(image);
    StoresPacked(d, |image| + 2 + ERASE_MARGIN, Pack(image));
    CodeOfPacked(image, Perform(HonestReply, d, Plan(image)).device.code);
  }

  // ---- Reading from it --------------------------------------------------------------------

  lemma RequestParts(length: nat, offset: nat)
    requires length <= MAX_INT32 && offset <= MAX_INT32
    ensures var r := [Client.LISP_READ] + BigEndian(WORD, length) + BigEndian(WORD, offset);
            |r| == 9 && ReadInt32(r[1..5]) == length && ReadInt32(r[5..9]) == offset
  {
    var r := [Client.LISP_READ] + BigEndian(WORD, length) + BigEndian(WORD, offset);
    assert r[1..5] == Int32(length) && r[5..9] == Int32(offset);
    Int32RoundTrip(length);
    Int32RoundTrip(offset);
  }

  lemma ReplyParts(total: nat, offset: nat, bytes: Code)
    requires total <= MAX_CODE && offset + |bytes| <= total
    ensures ParseRead([Client.LISP_READ] + BigEndian(WORD, total) + BigEndian(WORD, offset) + bytes) ==
            Some(LispTransfer.Chunk(total, offset, bytes))
  {
    var r := [Client.LISP_READ] + BigEndian(WORD, total) + BigEndian(WORD, offset);
    RequestParts(total, offset);
    var p := r + bytes;
    assert p[1..5] == r[1..5] && p[5..9] == r[5..9] && p[9..] == bytes;
  }

  /** Reads change nothing but the faults to come. */
  lemma HonestRead(d: Honest, length: nat, offset: nat)
    requires BuildRead(length, offset) != [] && |d.code| <= MAX_CODE
    ensures var (after, reply) := HonestReply(d, BuildRead(length, offset));
            && after == Later(d)
            && (reply.None? || reply == OnRead(d, length, offset))
            && (NextFault(d).Fine? ==> reply == OnRead(d, length, offset))
  {
    RequestParts(length, offset);
  }

  /** A reply to a read inside the program holds the stored bytes. */
  lemma HonestChunk(d: Honest, length: nat, offset: nat)
    requires 0 < length <= READ_CHUNK && offset + length <= |d.code| <= MAX_CODE
    ensures BuildRead(length, offset) != []
    ensures var (after, reply) := HonestReply(d, BuildRead(length, offset));
            && after == Later(d)
            && (reply.None? || (reply.Some? && ParseRead(reply.value) ==
                  Some(LispTransfer.Chunk(|d.code|, offset, d.code[offset..offset + length]))))
            && (d.faults == [] ==> reply.Some?)
  {
    HonestRead(d, length, offset);
    InsideRead(d, length, offset);
  }

  lemma InsideRead(d: Honest, length: nat, offset: nat)
    requires 0 < length && offset + length <= |d.code| <= MAX_CODE
    ensures OnRead(d, length, offset).Some?
    ensures ParseRead(OnRead(d, length, offset).value) ==
            Some(LispTransfer.Chunk(|d.code|, offset, d.code[offset..offset + length]))
  {
    ReplyParts(|d.code|, offset, d.code[offset..offset + length]);
  }

  /** What a device that holds `code` does with a read inside it: it stays such a device, a reply
      is the piece asked for, and a sound device does reply and stays sound. */
  ghost predicate Delivers<D>(respond: Respond<D>, holds: D -> bool, sound: D -> bool, code: Code, d: D, length: nat,
      offset: nat)
    requires offset + length <= |code|
  {
    var (after, reply) := Ask(respond, d, BuildRead(length, offset));
    && holds(after)
    && (reply.None? || ParseRead(reply.value) == Some(LispTransfer.Chunk(|code|, offset,
          code[offset..offset + length])))
    && (sound(d) ==> reply.Some? && sound(after))
  }

  ghost predicate Holds<D(!new)>(respond: Respond<D>, holds: D -> bool, sound: D -> bool, code: Code) {
    forall d, length: nat, offset: nat | holds(d) && 0 < length <= READ_CHUNK && offset + length <= |code| ::
      Delivers(respond, holds, sound, code, d, length, offset)
  }

  lemma HonestDelivers(holds: Honest -> bool, sound: Honest -> bool, d: Honest, length: nat, offset: nat)
    requires forall h: Honest :: holds(h) <==> h.code == d.code
    requires forall h: Honest :: sound(h) <==> h.faults == []
    requires 0 < length <= READ_CHUNK && offset + length <= |d.code| <= MAX_CODE
    ensures Delivers(HonestReply, holds, sound, d.code, d, length, offset)
  {
    HonestChunk(d, length, offset);
  }

  lemma HonestHolds(holds: Honest -> bool, sound: Honest -> bool, code: Code)
    requires |code| <= MAX_CODE
    requires forall h: Honest :: holds(h) <==> h.code == code
    requires forall h: Honest :: sound(h) <==> h.faults == []
    ensures Holds(HonestReply, holds, sound, code)
  {
    forall d: Honest, length: nat, offset: nat | holds(d) && 0 < length <= READ_CHUNK && offset + length <= |code|
      ensures Delivers(HonestReply, holds, sound, code, d, length, offset)
    {
      HonestDelivers(holds, sound, d, length, offset);
    }
  }

  /** One good reply continues a read; none ends it. */
  lemma RestStep<D>(respond: Respond<D>, d: D, total: nat, image: Code, more: Code)
    requires |image| < |more| <= total && |more| == |image| + Least(READ_CHUNK, total - |image|) && image <= more
    ensures var (after, reply) := Ask(respond, d, BuildRead(|more| - |image|, |image|));
            var t := ReadRest(respond, d, total, image).image;
            && (reply.None? ==> t.None?)
            && (reply.Some? && ParseRead(reply.value) == Some(LispTransfer.Chunk(total, |image|, more[|image|..])) ==>
                t == ReadRest(respond, after, total, more).image)
  {
    assert image + more[|image|..] == more;
  }

  /** A read at `from` either ends there, which a sound device rules out, or goes on further along. */
  ghost predicate Advances<D(!new)>(read: (D, nat) -> Option<Code>, holds: D -> bool, sound: D -> bool, code: Code,
      d: D, from: nat)
    requires from < |code|
  {
    var to := from + Least(READ_CHUNK, |code| - from);
    || (read(d, from).None? && !sound(d))
    || exists after :: holds(after) && (sound(d) ==> sound(after)) && read(d, from) == read(after, to)
  }

  lemma {:induction false} AdvancingReads<D(!new)>(read: (D, nat) -> Option<Code>, holds: D -> bool, sound: D -> bool,
      d: D, code: Code, from: nat)
    requires forall e | holds(e) :: read(e, |code|) == Some(code)
    requires forall e, k: nat | holds(e) && k < |code| :: Advances(read, holds, sound, code, e, k)
    requires holds(d) && from <= |code|
    ensures read(d, from).None? || read(d, from) == Some(code)
    ensures sound(d) ==> read(d, from).Some?
    decreases |code| - from
  {
    if from < |code| {
      var to := from + Least(READ_CHUNK, |code| - from);
      assert Advances(read, holds, sound, code, d, from);
      if read(d, from).Some? || sound(d) {
        var after :| holds(after) && (sound(d) ==> sound(after)) && read(d, from) == read(after, to);
        AdvancingReads(read, holds, sound, after, code, to);
      }
    }
  }

  /** The image that the rest of a read returns once the first `from` bytes are there. */
  function ReadFrom<D>(respond: Respond<D>, code: Code, d: D, from: nat): Option<Code> {
    if from <= |code| then ReadRest(respond, d, |code|, code[..from]).image else None
  }

  lemma DeliveredAdvances<D(!new)>(respond: Respond<D>, read: (D, nat) -> Option<Code>, holds: D -> bool,
      sound: D -> bool, code: Code, d: D, from: nat)
    requires forall e, k: nat :: read(e, k) == ReadFrom(respond, code, e, k)
    requires from < |code| && Delivers(respond, holds, sound, code, d, Least(READ_CHUNK, |code| - from), from)
    ensures Advances(read, holds, sound, code, d, from)
  {
    var length := Least(READ_CHUNK, |code| - from);
    FromStep(respond, code, d, from);
    var (after, reply) := Ask(respond, d, BuildRead(length, from));
    AdvancesBy(read, holds, sound, code, d, after, from);
  }

  lemma AdvancesBy<D(!new)>(read: (D, nat) -> Option<Code>, holds: D -> bool, sound: D -> bool, code: Code,
      d: D, after: D, from: nat)
    requires from < |code|
    requires var to := from + Least(READ_CHUNK, |code| - from);
             || (read(d, from).None? && !sound(d))
             || (holds(after) && (sound(d) ==> sound(after)) && read(d, from) == read(after, to))
    ensures Advances(read, holds, sound, code, d, from)
  {}

  /** One good reply carries a read further along the program; none ends it. */
  lemma FromStep<D>(respond: Respond<D>, code: Code, d: D, from: nat)
    requires from < |code|
    ensures var length := Least(READ_CHUNK, |code| - from);
            var (after, reply) := Ask(respond, d, BuildRead(length, from));
            && (reply.None? ==> ReadFrom(respond, code, d, from).None?)
            && (reply.Some? && ParseRead(reply.value) ==
                  Some(LispTransfer.Chunk(|code|, from, code[from..from + length])) ==>
                ReadFrom(respond, code, d, from) == ReadFrom(respond, code, after, from + length))
  {
    var length := Least(READ_CHUNK, |code| - from);
    var more := code[..from + length];
    assert more[from..] == code[from..from + length];
    RestStep(respond, d, |code|, code[..from], more);
  }

  lemma RestReturnsCode<D(!new)>(respond: Respond<D>, holds: D -> bool, sound: D -> bool, d: D, code: Code, from: nat)
    requires Holds(respond, holds, sound, code) && holds(d) && from <= |code|
    ensures var t := ReadRest(respond, d, |code|, code[..from]);
            && (t.image.Some? ==> t.image.value == code)
            && (sound(d) ==> t.image.Some?)
  {
    var read := (e: D, k: nat) => ReadFrom(respond, code, e, k);
    assert code[..|code|] == code;
    forall e, k: nat | holds(e) && k < |code|
      ensures Advances(read, holds, sound, code, e, k)
    {
      assert Delivers(respond, holds, sound, code, e, Least(READ_CHUNK, |code| - k), k);
      DeliveredAdvances(respond, read, holds, sound, code, e, k);
    }
    AdvancingReads(read, holds, sound, d, code, from);
  }

  lemma FirstRead<D>(respond: Respond<D>, d: D, total: nat, head: Code)
    requires |head| == FIRST_READ <= total
    ensures var (after, reply) := Ask(respond, d, BuildRead(FIRST_READ, 0));
            var t := ReadCode(respond, d).image;
            && (reply.None? ==> t.None?)
            && (reply.Some? && ParseRead(reply.value) == Some(LispTransfer.Chunk(total, 0, head)) ==>
                t == ReadRest(respond, after, total, head).image)
  {}

  /** A read of a stored program of at least ten bytes returns it whenever it completes, and it
      completes when nothing goes wrong. */
  lemma ReadReturnsCode(d: Honest)
    requires FIRST_READ <= |d.code| <= MAX_CODE
    ensures var t := ReadCode(HonestReply, d);
            && (t.image.Some? ==> t.image.value == d.code)
            && (d.faults == [] ==> t.image.Some?)
  {
    HonestChunk(d, FIRST_READ, 0);
    var (after, reply) := HonestReply(d, BuildRead(FIRST_READ, 0));
    var head := d.code[0..FIRST_READ];
    FirstRead(HonestReply, d, |d.code|, head);
    assert head == d.code[..FIRST_READ];
    var holds, sound := (h: Honest) => h.code == d.code, (h: Honest) => h.faults == [];
    HonestHolds(holds, sound, d.code);
    RestReturnsCode(HonestReply, holds, sound, after, d.code, FIRST_READ);
  }

  /** Whatever the device says to the first read, it declares the size of its program. */
  lemma HonestDeclares(d: Honest)
    requires 0 < |d.code| < FIRST_READ
    ensures var reply := HonestReply(d, BuildRead(FIRST_READ, 0)).1;
            reply.Some? && ParseRead(reply.value).Some? ==> ParseRead(reply.value).value.total == |d.code|
  {
    HonestRead(d, FIRST_READ, 0);
    ReplyParts(|d.code|, 0, d.code[0..]);
  }

  /** Programs of one to nine bytes cannot be read back, and an empty one reads as empty. */
  lemma ReadOfShortCode(d: Honest)
    requires |d.code| < FIRST_READ
    ensures var t := ReadCode(HonestReply, d);
            && (d.code != [] ==> t.image.None?)
            && (d.code == [] ==> (t.image.Some? ==> t.image.value == []) && (d.faults == [] ==> t.image.Some?))
  {
    HonestRead(d, FIRST_READ, 0);
    if d.code != [] {
      HonestDeclares(d);
      ShortIsUnreadable(HonestReply, d, |d.code|);
    } else {
      var empty: Code := [];
      ReplyParts(0, 0, empty);
      assert [Client.LISP_READ] + BigEndian(WORD, 0) + BigEndian(WORD, 0) + empty ==
          [Client.LISP_READ] + BigEndian(WORD, 0) + BigEndian(WORD, 0);
    }
  }

  // ---- Theorem ----------------------------------------------------------------------------

  /** Round trip: after a successful write, under any faults, a read returns exactly the image or
      nothing. */
  lemma WriteThenRead(d: Honest, image: Code, faults: seq<Fault>)
    requires 0 < |image| <= MAX_CODE
    ensures var w := Perform(HonestReply, d, Plan(image));
            var t := ReadCode(HonestReply, w.device.(faults := faults));
            w.result.Success? && t.image.Some? ==> t.image.value == image
  {
    WriteStoresImage(d, image);
    var w := Perform(HonestReply, d, Plan(image));
    if w.result.Success? {
      var after := w.device.(faults := faults);
      if |image| >= FIRST_READ {
        ReadReturnsCode(after);
      } else {
        ReadOfShortCode(after);
      }
    }
  }

  /** After a successful erase a read that completes finds no program. */
  lemma EraseThenRead(d: Honest, faults: seq<Fault>)
    ensures var w := Perform(HonestReply, d, [Erase(EMPTY_ERASE)]);
            var t := ReadCode(HonestReply, w.device.(faults := faults));
            w.result.Success? && t.image.Some? ==> t.image.value == []
  {
    EraseClears(d, EMPTY_ERASE);
    var w := Perform(HonestReply, d, [Erase(EMPTY_ERASE)]);
    if w.result.Success? {
      ReadOfShortCode(w.device.(faults := faults));
    }
  }

  /** Without faults a write succeeds, and the image is read back exactly when it has at least ten bytes. */
  lemma ReadableExactlyFromTenBytes(d: Honest, image: Code)
    requires 0 < |image| <= MAX_CODE && d.faults == []
    ensures var w := Perform(HonestReply, d, Plan(image));
            && w.result.Success?
            && (ReadCode(HonestReply, w.device.(faults := [])).image == Some(image) <==> |image| >= FIRST_READ)
  {
    WriteStoresImage(d, image);
    var after := Perform(HonestReply, d, Plan(image)).device.(faults := []);
    if |image| >= FIRST_READ {
      ReadReturnsCode(after);
    } else {
      ReadOfShortCode(after);
    }
  }
}
