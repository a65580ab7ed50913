/** The cursor-based packet buffers shared by the game's client and server
    (`server_client_shared.hpp`). A value of type `T` travels as the
    `sizeof(T)` bytes of its object representation: `write` copies them into
    a `QuickBuffer` at its cursor, `read` takes them back out of a
    `QuickReadBuffer` at its cursor. Values are therefore passed here as their
    byte strings; `CommandByte` and `Common.LittleEndian` give those strings
    for the one-byte `PeerCommand` and for unsigned integers. */
module QuickBuffers {
  import Common

  type byte = Common.byte

  /** The one-byte tag that opens every packet. */
  datatype PeerCommand = None | PeerList | NewPeer | Ping | Pong

  /** The byte a `PeerCommand` is stored as: its enumerator value. */
  function CommandByte(c: PeerCommand): (b: byte)
    ensures b < 5
  {
    match c
    case None => 0
    case PeerList => 1
    case NewPeer => 2
    case Ping => 3
    case Pong => 4
  }

  /** The command a received byte stands for; bytes past the last enumerator
      name no command. */
  function CommandFromByte(b: byte): (r: Common.Option<PeerCommand>)
    ensures r.Some? <==> b < 5
    ensures r.Some? ==> CommandByte(r.value) == b
  {
    if b == 0 then Common.Some(None)
    else if b == 1 then Common.Some(PeerList)
    else if b == 2 then Common.Some(NewPeer)
    else if b == 3 then Common.Some(Ping)
    else if b == 4 then Common.Some(Pong)
    else Common.None
  }

  /** A command read back from the byte it was written as is the same command. */
  lemma {:induction false} CommandRoundTrip(c: PeerCommand)
    ensures CommandFromByte(CommandByte(c)) == Common.Some(c)
  {
    match c
    case None =>
    case PeerList =>
    case NewPeer =>
    case Ping =>
    case Pong =>
  }

  /** The bytes a sequence of writes leaves behind the cursor, in order. */
  function Concat(values: seq<seq<byte>>): seq<byte>
  {
    if values == [] then [] else values[0] + Concat(values[1..])
  }

  /** `sizeof(T)` of each written value. */
  function Sizes(values: seq<seq<byte>>): (r: seq<nat>)
    ensures |r| == |values|
    ensures forall i :: 0 <= i < |values| ==> r[i] == |values[i]|
  {
    if values == [] then [] else [|values[0]|] + Sizes(values[1..])
  }

  function Total(sizes: seq<nat>): nat {
    if sizes == [] then 0 else sizes[0] + Total(sizes[1..])
  }

  /** What successive `read`s of the given sizes return, starting at
      `cursor`: each takes its bytes at the cursor and moves it past them. */
  function Reads(data: seq<byte>, cursor: nat, sizes: seq<nat>): (r: seq<seq<byte>>)
    requires cursor + Total(sizes) <= |data|
    ensures |r| == |sizes|
    ensures forall i :: 0 <= i < |r| ==> |r[i]| == sizes[i]
    decreases |sizes|
  {
    if sizes == [] then []
    else [data[cursor..cursor + sizes[0]]] + Reads(data, cursor + sizes[0], sizes[1..])
  }

  /** Reading back, in the same order and with the same types, the bytes that
      a run of writes left behind the cursor returns the written values,
      whatever follows them in the buffer. */
  lemma {:induction false} RoundTrip(values: seq<seq<byte>>, rest: seq<byte>)
    ensures Total(Sizes(values)) <= |Concat(values) + rest|
    ensures Reads(Concat(values) + rest, 0, Sizes(values)) == values
  {
    RoundTripAt([], values, rest);
    assert [] + Concat(values) + rest == Concat(values) + rest;
  }

  /** The same, with the values written after any `before` bytes and read
      from where those end. */
  lemma {:induction false} RoundTripAt(before: seq<byte>, values: seq<seq<byte>>, rest: seq<byte>)
    ensures |before| + Total(Sizes(values)) <= |before + Concat(values) + rest|
    ensures Reads(before + Concat(values) + rest, |before|, Sizes(values)) == values
    decreases |values|
  {
    if values != [] {
      var v := values[0];
      var sizes := Sizes(values);
      var tail := Sizes(values[1..]);
      assert sizes[0] == |v| && sizes[1..] == tail;
      var data := before + Concat(values) + rest;
      var next := before + v;
      assert data == next + Concat(values[1..]) + rest;
      RoundTripAt(next, values[1..], rest);
      var c := |next|;
      assert Reads(data, c, tail) == values[1..];
      assert Reads(data, |before|, sizes) == [data[|before|..c]] + Reads(data, c, tail);
      assert data[|before|..c] == v;
      assert values == [v] + values[1..];
    }
  }

  /** `QuickBuffer`: a zero-filled byte buffer written front to back. */
  class QuickBuffer {
    var buffer: array<byte>
    var maxSize: nat
    var cursor: nat

    /** The bytes written since the last `reset`. */
    function Written(): (r: seq<byte>)
      requires cursor <= buffer.Length
      reads this, buffer
      ensures |r| == cursor
    {
      buffer[..cursor]
    }

    /** The constructor as written: the parameter `max_size` shadows the
        member, so `max_size = max_size` assigns the parameter to itself and
        the member keeps the indeterminate value `unset`. */
    constructor AsWritten(maxSize: nat, unset: nat)
      ensures fresh(buffer) && buffer.Length == maxSize && cursor == 0
      ensures forall i :: 0 <= i < maxSize ==> buffer[i] == 0
      ensures this.maxSize == unset
    {
      buffer := new byte[maxSize](_ => 0);
      this.maxSize := unset;
      cursor := 0;
    }

    /** The constructor as intended: the member records the buffer size. */
    constructor (maxSize: nat := 0x1000)
      ensures fresh(buffer) && buffer.Length == maxSize && cursor == 0
      ensures forall i :: 0 <= i < maxSize ==> buffer[i] == 0
      ensures this.maxSize == maxSize
    {
      buffer := new byte[maxSize](_ => 0);
      this.maxSize := maxSize;
      cursor := 0;
    }

    /** `write<T>`: copies the value's bytes at the cursor and advances it.
        There is no bounds check, so the value must fit. Only the copied bytes
        change, and the written prefix grows by exactly the value. */
    method Write(value: seq<byte>)
      requires cursor + |value| <= buffer.Length
      modifies this, buffer
      ensures buffer == old(buffer) && maxSize == old(maxSize)
      ensures cursor == old(cursor) + |value|
      ensures buffer[..] == old(buffer[..cursor]) + value + old(buffer[cursor + |value|..])
      ensures Written() == old(Written()) + value
    {
      ghost var before := buffer[..];
      var k := 0;
      while k < |value|
        invariant 0 <= k <= |value|
        invariant buffer == old(buffer) && cursor == old(cursor) && maxSize == old(maxSize)
        invariant |before| == buffer.Length
        invariant forall i :: 0 <= i < buffer.Length ==>
          buffer[i] == if cursor <= i < cursor + k then value[i - cursor] else before[i]
      {
        buffer[cursor + k] := value[k];
        k := k + 1;
      }
      assert buffer[..] == before[..cursor] + value + before[cursor + |value|..];
      cursor := cursor + |value|;
    }

    /** `reset`: the next write starts over at the front; the bytes stay. */
    method Reset()
      modifies this
      ensures buffer == old(buffer) && maxSize == old(maxSize)
      ensures cursor == 0 && Written() == []
    {
      cursor := 0;
    }
  }

  /** `QuickReadBuffer`: a private copy of a received packet, read front to back. */
  class QuickReadBuffer {
    var buffer: seq<byte>
    var size: nat
    var cursor: nat

    /** The constructor as written: `size = size` assigns the parameter to
        itself and the member keeps the indeterminate value `unset`. */
    constructor AsWritten(data: seq<byte>, unset: nat)
      ensures buffer == data && cursor == 0 && size == unset
    {
      buffer := data;
      size := unset;
      cursor := 0;
    }

    /** The constructor as intended: the member records the packet length. */
    constructor (data: seq<byte>)
      ensures buffer == data && cursor == 0 && size == |data|
    {
      buffer := data;
      size := |data|;
      cursor := 0;
    }

    /** `read<T>`: the `sizeof(T)` bytes at the cursor; the cursor moves past
        them. There is no bounds check, so they must lie inside the packet. */
    method Read(n: nat) returns (value: seq<byte>)
      requires cursor + n <= |buffer|
      modifies this
      ensures buffer == old(buffer) && size == old(size)
      ensures cursor == old(cursor) + n
      ensures value == buffer[old(cursor)..cursor]
    {
      value := buffer[cursor..cursor + n];
      cursor := cursor + n;
    }
  }

  /** The members `max_size` and `size` never receive their arguments: built
      as written with `QuickBuffer(0x1000)` and whatever the member held
      before (here 0), the stored size differs from the requested one. */
  method SizeMembersLost() returns (requested: nat, storedMax: nat, received: nat, storedSize: nat)
    ensures requested == 0x1000 && storedMax != requested
    ensures received == 1 && storedSize != received
  {
    var b := new QuickBuffer.AsWritten(0x1000, 0);
    var r := new QuickReadBuffer.AsWritten([0], 0);
    requested, storedMax := 0x1000, b.maxSize;
    received, storedSize := 1, r.size;
  }

  /** With the constructors as intended, both members hold their argument. */
  method SizeMembersKept(maxSize: nat, data: seq<byte>)
    returns (storedMax: nat, storedSize: nat)
    ensures storedMax == maxSize && storedSize == |data|
  {
    var b := new QuickBuffer(maxSize);
    var r := new QuickReadBuffer(data);
    storedMax, storedSize := b.maxSize, r.size;
  }
}
