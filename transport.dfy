/** The transport the engine drives (AbstractHardware): an open flag, fixed-size
    writes and reads, and the identification strings. Its behaviour is given
    by scripts: the outcome of each `open`, the return value of each `write`
    and the reply of each `read`, consumed in order. A `Link` is the value of
    a transport at one moment; the pure steps below say what each operation
    does to it, and the `Hardware` class is proved to follow them. */
module Transport {
  import opened Wire

  /** AbstractHardware::Impl_t: which backend a handle drives. */
  datatype Impl = ImplReal | ImplDummy

  /** One scripted read: the value `read` returns and the bytes it delivers. */
  datatype Reply = Reply(ret: int, data: seq<Byte>)

  /** The state of a transport: whether it is open, what is left of its
      scripts, every frame handed to `write` and the length of every `read`. */
  datatype Link = Link(
    open: bool,
    opens: seq<bool>,
    writeRets: seq<int>,
    replies: seq<Reply>,
    written: seq<seq<Byte>>,
    requested: seq<nat>)

  datatype WriteOutcome = WriteOutcome(link: Link, ret: int)
  datatype ReadOutcome = ReadOutcome(link: Link, buf: seq<Byte>, ret: int)

  function Min(a: int, b: int): int { if a < b then a else b }

  /** The buffer after a read of at most `len` bytes delivered `data`. */
  function Overlay(buf: seq<Byte>, data: seq<Byte>, len: nat): (r: seq<Byte>)
    ensures |r| == |buf|
    ensures forall i :: 0 <= i < |r| ==> r[i] == if i < len && i < |data| then data[i] else buf[i]
  {
    var k := Min(Min(|data|, len), |buf|);
    data[..k] + buf[k..]
  }

  /** `open`: the next scripted outcome decides whether the handle is open;
      with the script exhausted, opening fails. */
  function OpenStep(l: Link): (l': Link)
    ensures l'.written == l.written && l'.requested == l.requested
    ensures l'.writeRets == l.writeRets && l'.replies == l.replies
    ensures l'.open <==> l.opens != [] && l.opens[0]
  {
    if l.opens == [] then l.(open := false)
    else l.(open := l.opens[0], opens := l.opens[1..])
  }

  /** `close`: the handle is closed whatever it was. */
  function CloseStep(l: Link): (l': Link)
    ensures !l'.open
  {
    l.(open := false)
  }

  /** `write`: the frame is handed over and the next scripted return value
      comes back; with the script exhausted the write fails with -1. */
  function WriteStep(l: Link, frame: seq<Byte>): (w: WriteOutcome)
    ensures w.link.written == l.written + [frame]
    ensures w.link.open == l.open && w.link.requested == l.requested && w.link.replies == l.replies
    ensures w.ret == if l.writeRets == [] then -1 else l.writeRets[0]
  {
    if l.writeRets == [] then WriteOutcome(l.(written := l.written + [frame]), -1)
    else WriteOutcome(l.(writeRets := l.writeRets[1..], written := l.written + [frame]), l.writeRets[0])
  }

  /** `read` of at most `len` bytes into `buf`: the next scripted reply fills
      the front of the buffer; with the script exhausted the read fails with
      -1 and the buffer keeps its bytes. */
  function ReadStep(l: Link, buf: seq<Byte>, len: nat): (r: ReadOutcome)
    ensures r.link.requested == l.requested + [len]
    ensures r.link.open == l.open && r.link.written == l.written && r.link.writeRets == l.writeRets
    ensures r.link.opens == l.opens
    ensures |r.buf| == |buf|
    ensures l.replies == [] ==> r.ret == -1 && r.buf == buf
    ensures l.replies != [] ==> r.ret == l.replies[0].ret && r.buf == Overlay(buf, l.replies[0].data, len)
  {
    if l.replies == [] then ReadOutcome(l.(requested := l.requested + [len]), buf, -1)
    else
      var reply := l.replies[0];
      ReadOutcome(l.(replies := l.replies[1..], requested := l.requested + [len]),
                  Overlay(buf, reply.data, len), reply.ret)
  }

  /** A transport handle as the engine sees it. */
  class Hardware {
    const impl: Impl
    const manufacturer: string
    const product: string
    var open: bool
    var opens: seq<bool>
    var writeRets: seq<int>
    var replies: seq<Reply>
    var written: seq<seq<Byte>>
    var requested: seq<nat>

    function State(): Link
      reads this
    {
      Link(open, opens, writeRets, replies, written, requested)
    }

    /** A closed handle with the given scripts and identification strings. */
    constructor (impl: Impl, opens: seq<bool>, writeRets: seq<int>, replies: seq<Reply>,
                 manufacturer: string, product: string)
      ensures this.impl == impl && this.manufacturer == manufacturer && this.product == product
      ensures State() == Link(false, opens, writeRets, replies, [], [])
    {
      this.impl := impl;
      this.manufacturer := manufacturer;
      this.product := product;
      this.open := false;
      this.opens := opens;
      this.writeRets := writeRets;
      this.replies := replies;
      this.written := [];
      this.requested := [];
    }

    method Open()
      modifies this
      ensures State() == OpenStep(old(State()))
    {
      if opens == [] {
        open := false;
      } else {
        open, opens := opens[0], opens[1..];
      }
    }

    method Close()
      modifies this
      ensures State() == CloseStep(old(State()))
    {
      open := false;
    }

    method Write(buf: array<Byte>, len: nat) returns (n: int)
      requires len <= buf.Length
      modifies this
      ensures WriteOutcome(State(), n) == WriteStep(old(State()), buf[..len])
    {
      written := written + [buf[..len]];
      if writeRets == [] {
        n := -1;
      } else {
        n, writeRets := writeRets[0], writeRets[1..];
      }
    }

    method Read(buf: array<Byte>, len: nat) returns (n: int)
      modifies this, buf
      ensures ReadOutcome(State(), buf[..], n) == ReadStep(old(State()), old(buf[..]), len)
    {
      requested := requested + [len];
      if replies == [] {
        n := -1;
      } else {
        var reply := replies[0];
        var k := Min(Min(|reply.data|, len), buf.Length);
        forall i | 0 <= i < k {
          buf[i] := reply.data[i];
        }
        n, replies := reply.ret, replies[1..];
      }
    }
  }
}
