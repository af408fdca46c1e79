/** The frame the simplified AT firmware sends over the radio, and what the
    receiving side makes of it. */
module RadioFrame {
  import opened Bytes
  import opened Lz77
  import opened Wire
  import opened Compressor
  import opened Decompressor
  import opened FastLz

  const UNICAST_LIMIT := 310     // UC_DATA_LENGTH_LIMIT
  const BROADCAST_LIMIT := 1021  // UC_BC_LENGTH_LIMIT
  const MAX_FRAME := 1024        // the receiver's buffer

  // What reaches the other side: the bytes and the compression flag.
  datatype Frame = Frame(bytes: seq<byte>, packed: bool)

  // The four bytes of an address, lowest first.
  function AddressBytes(addr: nat): (r: seq<byte>)
    requires addr < 0x1_0000_0000
    ensures |r| == 4
  {
    [addr % 0x100, addr / 0x100 % 0x100, addr / 0x1_0000 % 0x100, addr / 0x100_0000]
  }

  function AddressOf(b0: byte, b1: byte, b2: byte, b3: byte): (addr: nat) {
    b0 + b1 * 0x100 + b2 * 0x1_0000 + b3 * 0x100_0000
  }

  lemma AddressRoundTrip(addr: nat)
    requires addr < 0x1_0000_0000
    ensures var b := AddressBytes(addr); AddressOf(b[0], b[1], b[2], b[3]) == addr
  {
    assert addr / 0x100 / 0x100 == addr / 0x1_0000;
    assert addr / 0x1_0000 / 0x100 == addr / 0x100_0000;
  }

  // The lowest byte comes first.
  lemma LowestByteFirst(addr: nat)
    requires addr < 0x1_0000_0000
    ensures AddressBytes(addr)[0] == addr % 0x100 && (AddressBytes(addr)[1] as nat) * 0x100 + AddressBytes(addr)[0] == addr % 0x1_0000
  {
    assert addr % 0x1_0000 == addr - addr / 0x1_0000 * 0x1_0000;
  }

  function Limit(dest: nat): nat {
    if dest == 0 then BROADCAST_LIMIT else UNICAST_LIMIT
  }

  // The length test at the head of wiota_app_subframe; past it, `planned` is
  // the number of subframes the radio parameters call for.
  function Subframes(dest: nat, len: int, planned: nat): nat {
    if len < 1 || len > Limit(dest) then 0 else planned
  }

  // at_wiota_send_setup once the arguments are parsed. `received` is what the
  // serial line delivered in time. None when nothing is sent.
  method Send(self: nat, dest: nat, recvLen: nat, received: seq<byte>, buffersAllocated: bool, tableAllocated: bool,
              planned: nat, beyond: byte)
    returns (frame: Option<Frame>)
    requires self < 0x1_0000_0000
    ensures frame.Some? ==>
              && 1 <= recvLen == |received| && 4 + recvLen <= Limit(dest)
              && Carries(frame.value, self, received)
              && SmallerSent(AddressBytes(self) + received, beyond, frame.value)
    ensures frame.None? <==>
              || recvLen < 1 || recvLen > (if dest == 0 then 1021 else 310) - 4
              || |received| != recvLen || !buffersAllocated || !tableAllocated || planned == 0
  {
    hide Meaning, Compressed, Chosen;
    frame := None;
    var maxLen := if dest != 0 then UNICAST_LIMIT - 4 else BROADCAST_LIMIT - 4;
    if recvLen < 1 || recvLen > maxLen || !buffersAllocated || |received| != recvLen {
      return;
    }
    var dataLen: int := 4 + recvLen;
    var plain := AddressBytes(self) + received;
    var recvBuf := new byte[dataLen](i requires 0 <= i < |plain| => plain[i]);
    assert recvBuf[..] == plain;
    var compData := new byte[dataLen * 2];
    DocumentedBufferSuffices(dataLen, compData.Length);
    var compLen;
    ghost var tokens;
    compLen, tokens := Compress(recvBuf, compData, tableAllocated, beyond);
    if tableAllocated {
      MarkKeeps(One, plain, compData[..compLen], tokens);
    }
    var packed := compLen < dataLen;
    if packed {
      dataLen := compLen;
    }
    assert compLen >= 0 ==> Packing(plain, beyond, compData[..compLen], tokens);
    if Subframes(dest, dataLen, planned) > 0 {
      frame := Some(Frame(if packed then compData[..compLen] else recvBuf[..], packed));
      ghost var bytes := frame.value.bytes;
      if packed {
        forall mem: seq<byte> | bytes <= mem ensures Meaning(mem, |bytes|) == Some(plain) {
          RoundTrip(One, plain, bytes, tokens, mem);
        }
      }
    }
  }

  // Of the plain frame and the compressed one the smaller is sent.
  ghost predicate SmallerSent(plain: seq<byte>, beyond: byte, frame: Frame) {
    exists bytes, tokens :: Packing(plain, beyond, bytes, tokens) && frame == if |bytes| < |plain| then Frame(bytes, true) else Frame(plain, false)
  }

  ghost predicate Packing(plain: seq<byte>, beyond: byte, bytes: seq<byte>, tokens: seq<Token>) {
    Compressed(One, plain, bytes, tokens) && Chosen(One, plain, beyond, tokens)
  }

  // The frame stands for this sender and payload; compressed only when strictly shorter.
  ghost predicate Carries(frame: Frame, self: nat, payload: seq<byte>)
    requires self < 0x1_0000_0000
  {
    var plain := AddressBytes(self) + payload;
    if frame.packed then
      && 0 < |frame.bytes| < |plain|
      && forall mem :: frame.bytes <= mem ==> Meaning(mem, |frame.bytes|) == Some(plain)
    else frame.bytes == plain
  }

  datatype Delivery = Delivery(addr: nat, len: int, payload: seq<byte>)

  // The first four bytes are the sender's address, the rest is payload.
  function Unframe(data: seq<byte>, len: nat): Delivery
    requires len <= |data|
  {
    Delivery(AddressOf(Fetch(data, 0), Fetch(data, 1), Fetch(data, 2), Fetch(data, 3)),
             len - 4, if len >= 4 then data[4..len] else [])
  }

  lemma UnframeUndoes(self: nat, payload: seq<byte>, data: seq<byte>, len: nat)
    requires self < 0x1_0000_0000 && len <= |data|
    requires data[..len] == AddressBytes(self) + payload
    ensures Unframe(data, len) == Delivery(self, |payload|, payload)
  {
    hide AddressBytes, AddressOf;
    var b := AddressBytes(self);
    assert forall i :: 0 <= i < 4 ==> data[i] == data[..len][i] == b[i];
    AddressRoundTrip(self);
    assert data[4..len] == data[..len][4..] == payload;
  }

  // The plain bytes of a frame: as received, or decompressed into a zeroed buffer.
  method Unpack(frame: Frame, bufferAllocated: bool, after: seq<byte>) returns (ok: bool, data: seq<byte>, len: nat)
    ensures ok ==> len <= |data|
    ensures !frame.packed ==> ok && data == frame.bytes && len == |data|
    ensures frame.packed && !bufferAllocated ==> !ok
    ensures frame.packed && bufferAllocated ==>
              var plain := Outcome(Meaning(frame.bytes + after, |frame.bytes|), MAX_FRAME);
              ok == (plain != []) && (ok ==> data[..len] == plain)
  {
    hide Meaning;
    if !frame.packed {
      return true, frame.bytes, |frame.bytes|;
    }
    if !bufferAllocated {
      return false, [], 0;
    }
    var image := frame.bytes + after;
    var src := new byte[|image|](i requires 0 <= i < |image| => image[i]);
    assert src[..] == image;
    var decompressed := new byte[MAX_FRAME](_ => 0);
    len := Decompress(src, |frame.bytes|, decompressed, MAX_FRAME);
    ok, data := len > 0, decompressed[..];
    assert data[..len] == decompressed[..len];
  }

  // at_wiota_recv_callback for a data frame. `after` is the memory behind the
  // frame. None when a buffer is missing or the frame does not decompress.
  method Receive(frame: Frame, bufferAllocated: bool, after: seq<byte>) returns (d: Option<Delivery>)
    ensures frame.packed && !bufferAllocated ==> d == None
    ensures frame.packed && bufferAllocated ==>
              (d == None <==> Outcome(Meaning(frame.bytes + after, |frame.bytes|), MAX_FRAME) == [])
    ensures forall self, payload :: 0 <= self < 0x1_0000_0000 && Carries(frame, self, payload)
                && 1 <= |payload| <= MAX_FRAME - 4 && (frame.packed ==> bufferAllocated)
              ==> d == Some(Delivery(self, |payload|, payload))
  {
    hide Meaning, Unframe, AddressBytes;
    var ok, data, len := Unpack(frame, bufferAllocated, after);
    d := if ok then Some(Unframe(data, len)) else None;
    forall self, payload | 0 <= self < 0x1_0000_0000 && Carries(frame, self, payload)
                && 1 <= |payload| <= MAX_FRAME - 4 && (frame.packed ==> bufferAllocated)
      ensures d == Some(Delivery(self, |payload|, payload))
    {
      if frame.packed {
        assert Meaning(frame.bytes + after, |frame.bytes|) == Some(AddressBytes(self) + payload);
      }
      UnframeUndoes(self, payload, data, len);
    }
  }

  // Whatever the sender emits, the receiver turns back into the same address and payload.
  method Exchange(self: nat, dest: nat, payload: seq<byte>, tableAllocated: bool, planned: nat, beyond: byte, after: seq<byte>)
    returns (d: Option<Delivery>)
    requires self < 0x1_0000_0000
    requires 1 <= |payload| && 4 + |payload| <= Limit(dest)
    ensures d == if tableAllocated && planned > 0 then Some(Delivery(self, |payload|, payload)) else None
  {
    var frame := Send(self, dest, |payload|, payload, true, tableAllocated, planned, beyond);
    if frame == None {
      return None;
    }
    d := Receive(frame.value, true, after);
  }
}
