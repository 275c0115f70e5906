/** The UDP socket: a receive into a fixed, zeroed buffer, and a send. */
module SocketUdp {
  import opened Datagrams

  /** What a failed or timed-out receive returns. */
  const SOCKET_TIMEOUT := -1

  /**
   The operating system's side. Whether a receive fails is the environment's choice; one that does not fail returns
   only once a datagram is waiting.
   */
  class Kernel {
    var net: Net

    constructor ()
      ensures net == Net([], [])
    {
      net := Net([], []);
    }

    method SendTo(src: Addr, dst: Addr, data: Message) returns (num: int)
      modifies this
      ensures net == Posted(old(net), Packet(src, dst, data)) && num == |data|
    {
      net := Posted(net, Packet(src, dst, data));
      num := |data|;
    }

    /** Writes as much of the next datagram as fits at the front of `buf`; the rest of the datagram is lost. */
    method RecvFrom(me: Addr, buf: array<Byte>, failed: bool) returns (num: int, from: Addr)
      requires failed || HasMail(net, me)
      modifies this, buf
      ensures failed ==> num == SOCKET_TIMEOUT && net == old(net) && buf[..] == old(buf[..])
      ensures !failed ==>
                && var p := Mail(old(net), me);
                && num == (if |p.data| < buf.Length then |p.data| else buf.Length) && from == p.src
                && net == Taken(old(net), me)
                && forall i :: 0 <= i < buf.Length ==> buf[i] == if i < num then p.data[i] else old(buf[i])
    {
      if failed {
        return SOCKET_TIMEOUT, 0;
      }
      var p := Mail(net, me);
      net := Taken(net, me);
      from := p.src;
      num := 0;
      while num < buf.Length && num < |p.data|
        invariant 0 <= num <= buf.Length && num <= |p.data|
        invariant net == Taken(old(net), me)
        invariant forall i :: 0 <= i < buf.Length ==> buf[i] == if i < num then p.data[i] else old(buf[i])
      {
        buf[num] := p.data[num];
        num := num + 1;
      }
    }

    /** Other processes and the network act while a call is blocked. */
    method Interleave(env: Net -> Net)
      modifies this
      ensures net == env(old(net))
    {
      net := env(net);
    }
  }

  class SocketUDP {
    const kernel: Kernel
    const addr: Addr

    constructor (kernel: Kernel, addr: Addr)
      ensures this.kernel == kernel && this.addr == addr
    {
      this.kernel := kernel;
      this.addr := addr;
    }

    method SendTo(msg: Message, to: Addr) returns (num: int)
      modifies kernel
      ensures kernel.net == Posted(old(kernel.net), Packet(addr, to, msg)) && num == |msg|
    {
      num := kernel.SendTo(addr, to, msg);
    }

    /**
     The buffer always has `msgSize` bytes and is cleared only when the system call returned -1 or 0, so the message
     is the frame of the datagram, however long the datagram was.
     */
    method RecvFrom(msgSize: nat, failed: bool) returns (dst: Message, from: Addr)
      requires failed || HasMail(kernel.net, addr)
      modifies kernel
      ensures failed ==> dst == [] && kernel.net == old(kernel.net)
      ensures !failed ==>
                && dst == Frame(msgSize, Mail(old(kernel.net), addr).data)
                && from == Mail(old(kernel.net), addr).src
                && kernel.net == Taken(old(kernel.net), addr)
    {
      var buf := new Byte[msgSize](_ => 0);
      var num;
      num, from := kernel.RecvFrom(addr, buf, failed);
      dst := buf[..];
      if num == SOCKET_TIMEOUT || num == 0 {
        dst := [];
      } else {
        var data := Mail(old(kernel.net), addr).data;
        FrameShape(msgSize, data);
        assert dst == Frame(msgSize, data);
      }
    }
  }
}
