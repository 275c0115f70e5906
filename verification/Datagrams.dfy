/**
 The datagram service under the message layer, as RFC 768 leaves it: a datagram sent is in flight until the network
 delivers it, loses it or copies it; one delivered waits, in arrival order, until its addressee receives it.
 */
module Datagrams {
  import opened Sequences

  type Byte = x: int | 0 <= x < 256
  type Message = seq<Byte>
  type Addr = nat

  datatype Packet = Packet(src: Addr, dst: Addr, data: Message)

  /** `flight` is used as a bag (any position may leave next); `arrived` is in order of arrival. */
  datatype Net = Net(flight: seq<Packet>, arrived: seq<Packet>)

  function Zeros(n: nat): (z: Message)
    ensures |z| == n && forall i :: 0 <= i < n ==> z[i] == 0
  {
    seq(n, _ => 0)
  }

  /** What a receive of `size` bytes makes of a datagram: the message is empty, or has `size` bytes. */
  function Frame(size: nat, data: Message): Message {
    if size == 0 || data == [] then []
    else data[..Min(size, |data|)] + Zeros(size - Min(size, |data|))
  }

  /** Position of the first waiting datagram for `a`, or the length when there is none. */
  function FirstFor(arrived: seq<Packet>, a: Addr): (k: nat)
    ensures k <= |arrived| && (k < |arrived| ==> arrived[k].dst == a)
    ensures forall j :: 0 <= j < k ==> arrived[j].dst != a
  {
    FirstWhere(arrived, (p: Packet) => p.dst == a)
  }

  predicate HasMail(net: Net, a: Addr) {
    FirstFor(net.arrived, a) < |net.arrived|
  }

  function Mail(net: Net, a: Addr): Packet
    requires HasMail(net, a)
  {
    net.arrived[FirstFor(net.arrived, a)]
  }

  function Taken(net: Net, a: Addr): Net
    requires HasMail(net, a)
  {
    net.(arrived := RemoveAt(net.arrived, FirstFor(net.arrived, a)))
  }

  function Posted(net: Net, p: Packet): Net {
    net.(flight := net.flight + [p])
  }

  function Delivered(net: Net, k: nat): Net
    requires k < |net.flight|
  {
    Net(RemoveAt(net.flight, k), net.arrived + [net.flight[k]])
  }

  function Lost(net: Net, k: nat): Net
    requires k < |net.flight|
  {
    net.(flight := RemoveAt(net.flight, k))
  }

  /** Every datagram the network holds is `ok`. */
  predicate Everywhere(net: Net, ok: Packet -> bool) {
    && (forall k :: 0 <= k < |net.flight| ==> ok(net.flight[k]))
    && (forall k :: 0 <= k < |net.arrived| ==> ok(net.arrived[k]))
  }

  lemma EverywherePosted(net: Net, p: Packet, ok: Packet -> bool)
    requires Everywhere(net, ok) && ok(p)
    ensures Everywhere(Posted(net, p), ok)
  {
  }

  lemma EverywhereTaken(net: Net, a: Addr, ok: Packet -> bool)
    requires Everywhere(net, ok) && HasMail(net, a)
    ensures Everywhere(Taken(net, a), ok) && ok(Mail(net, a))
  {
  }

  lemma EverywhereMoved(net: Net, k: nat, ok: Packet -> bool)
    requires Everywhere(net, ok) && k < |net.flight|
    ensures Everywhere(Delivered(net, k), ok) && Everywhere(Lost(net, k), ok)
  {
  }

  lemma EverywhereImplied(net: Net, ok: Packet -> bool, ok': Packet -> bool)
    requires Everywhere(net, ok) && forall p :: ok(p) ==> ok'(p)
    ensures Everywhere(net, ok')
  {
  }

  /** A frame is empty or exactly `size` bytes, and then it is the datagram's prefix padded with zeros. */
  lemma FrameShape(size: nat, data: Message)
    ensures Frame(size, data) == [] <==> size == 0 || data == []
    ensures var m := Frame(size, data);
            m != [] ==> |m| == size && forall i :: 0 <= i < size ==> m[i] == if i < |data| then data[i] else 0
  {
    if size > 0 && data != [] {
      var n := Min(size, |data|);
      assert forall i :: 0 <= i < n ==> Frame(size, data)[i] == data[..n][i];
      assert |Frame(size, data)| == size;
    }
  }

  /** Framing loses nothing exactly when the datagram already has the frame's length, or is empty. */
  lemma FrameIdentity(size: nat, data: Message)
    ensures Frame(size, data) == data <==> data == [] || |data| == size
  {
    FrameShape(size, data);
    if |data| == size && data != [] {
      assert data[..size] + Zeros(0) == data;
    }
  }
}
