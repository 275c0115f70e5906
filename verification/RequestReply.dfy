/** The `Reply` and `Request` classes, and the steps of the protocol that their methods perform. */
module RequestReply {
  import opened Sequences
  import opened Datagrams
  import opened SocketUdp
  import opened RpcHostile
  import opened RpcModel

  type Callback<!S> = (S, Message) -> (S, Message)

  /** How `once` ends: it returns false, returns true, or the empty callback throws. */
  datatype Outcome = Ignored | Replied | BadFunctionCall

  datatype Effect<S> = Effect(net: Net, memory: S, outcome: Outcome)

  /** What `once` does, the answer going to `to` if one is given and to the sender otherwise. */
  function OnceEffect<S>(net: Net, host: Addr, size: nat, callback: Option<Callback<S>>, memory: S, failed: bool,
                         to: Option<Addr>): Effect<S>
    requires failed || HasMail(net, host)
  {
    if failed then Effect(net, memory, Ignored)
    else
      var p := Mail(net, host);
      var after := Taken(net, host);
      match Accept(size, p)
      case Accepted(from, req) =>
        if callback.None? then Effect(after, memory, BadFunctionCall)
        else
          var (memory', ans) := callback.value(memory, req);
          Effect(Posted(after, Packet(host, if to.Some? then to.value else from, ans)), memory', Replied)
      case _ => Effect(after, memory, Ignored)
  }

  /**
   What a call does, outcome by outcome. A receive that fails and a datagram whose frame is empty change nothing else
   and call nobody. A full message with no callback registered raises, having used up the datagram. Otherwise the
   callback sees the frame and its answer goes to `to`, or to the datagram's sender.
   */
  lemma OnceAnswers<S>(net: Net, host: Addr, size: nat, callback: Option<Callback<S>>, memory: S, failed: bool,
                       to: Option<Addr>)
    requires failed || HasMail(net, host)
    ensures var e := OnceEffect(net, host, size, callback, memory, failed, to);
            && (failed ==> e == Effect(net, memory, Ignored))
            && (!failed ==>
                  var p, after := Mail(net, host), Taken(net, host);
                  var m := Frame(size, p.data);
                  && (m == [] ==> e == Effect(after, memory, Ignored))
                  && (m != [] && callback.None? ==> e == Effect(after, memory, BadFunctionCall))
                  && (m != [] && callback.Some? ==>
                        var (memory', ans) := callback.value(memory, m);
                        var dst := if to.Some? then to.value else p.src;
                        e == Effect(after.(flight := after.flight + [Packet(host, dst, ans)]), memory', Replied)))
  {
    if !failed {
      FrameShape(size, Mail(net, host).data);
    }
  }

  class Reply<S> {
    const socket: SocketUDP
    const msgSize: nat
    var callback: Option<Callback<S>>
    var memory: S

    constructor (socket: SocketUDP, size: nat, memory: S)
      ensures this.socket == socket && msgSize == size && callback == None && this.memory == memory
    {
      this.socket := socket;
      msgSize := size;
      callback := None;
      this.memory := memory;
    }

    /** The last registration wins. */
    method RegisterCb(func: Callback<S>)
      modifies this`callback
      ensures callback == Some(func)
    {
      callback := Some(func);
    }

    method Once(failed: bool) returns (outcome: Outcome)
      requires failed || HasMail(socket.kernel.net, socket.addr)
      modifies this`memory, socket.kernel
      ensures Effect(socket.kernel.net, memory, outcome)
              == OnceEffect(old(socket.kernel.net), socket.addr, msgSize, callback, old(memory), failed, None)
    {
      ghost var p := if failed then Packet(0, 0, []) else Mail(socket.kernel.net, socket.addr);
      var m, fromAddr := socket.RecvFrom(msgSize, failed);
      if |m| == 0 || |m| != msgSize {
        assert failed || Accept(msgSize, p).Listening?;
        return Ignored;
      }
      if callback.None? {
        return BadFunctionCall;
      }
      var r := callback.value(memory, m);
      memory := r.0;
      var _ := socket.SendTo(r.1, fromAddr);
      outcome := Replied;
    }

    /** `once(to)`: the sender is not even read, the answer goes to a fixed address. */
    method OnceTo(to: Addr, failed: bool) returns (outcome: Outcome)
      requires failed || HasMail(socket.kernel.net, socket.addr)
      modifies this`memory, socket.kernel
      ensures Effect(socket.kernel.net, memory, outcome)
              == OnceEffect(old(socket.kernel.net), socket.addr, msgSize, callback, old(memory), failed, Some(to))
    {
      ghost var p := if failed then Packet(0, 0, []) else Mail(socket.kernel.net, socket.addr);
      var m, _ := socket.RecvFrom(msgSize, failed);
      if |m| == 0 || |m| != msgSize {
        assert failed || Accept(msgSize, p).Listening?;
        return Ignored;
      }
      if callback.None? {
        return BadFunctionCall;
      }
      var r := callback.value(memory, m);
      memory := r.0;
      var _ := socket.SendTo(r.1, to);
      outcome := Replied;
    }
  }

  class Request {
    const socket: SocketUDP
    const msgSize: nat

    constructor (socket: SocketUDP, size: nat)
      ensures this.socket == socket && msgSize == size
    {
      this.socket := socket;
      msgSize := size;
    }

    /** Sends, and then, whatever the environment `env` made of the network meanwhile, receives. */
    method Request(msg: Message, to: Addr, env: Net -> Net, failed: bool) returns (rep: Message)
      requires failed || HasMail(env(Posted(socket.kernel.net, Packet(socket.addr, to, msg))), socket.addr)
      modifies socket.kernel
      ensures var sent := Posted(old(socket.kernel.net), Packet(socket.addr, to, msg));
              && (socket.kernel.net, rep) == RequestEnd(env(sent), socket.addr, msgSize, failed)
              && (failed ==> rep == [] && socket.kernel.net == env(sent))
              && (!failed ==>
                    && rep == Frame(msgSize, Mail(env(sent), socket.addr).data)
                    && socket.kernel.net == Taken(env(sent), socket.addr))
    {
      var _ := socket.SendTo(msg, to);
      socket.kernel.Interleave(env);
      var from;
      rep, from := socket.RecvFrom(msgSize, failed);
    }
  }

  function RequestEnd(net: Net, a: Addr, size: nat, failed: bool): (Net, Message)
    requires failed || HasMail(net, a)
  {
    if failed then (net, []) else (Taken(net, a), Frame(size, Mail(net, a).data))
  }

  /** A call of `once` is the protocol's three replier steps, or only the first when there is nothing to answer. */
  lemma OnceRefinesProtocol<S>(cfg: Config<S>, s: State<S>, failed: bool) returns (steps: seq<Step>, t: State<S>)
    requires s.replier.Listening? && (failed || HasMail(s.net, cfg.host))
    ensures Exec(cfg, s, steps) == Some(t) && t.replier.Listening? && t.phases == s.phases
    ensures var e := OnceEffect(s.net, cfg.host, cfg.querySize, Some(cfg.callback), s.memory, failed, None);
            && t.net == e.net && t.memory == e.memory
            && steps == if failed then [OnceTimeOut]
                        else if e.outcome == Replied then [OnceReceive, OnceCall, OnceSend] else [OnceReceive]
  {
    if failed {
      steps, t := [OnceTimeOut], Apply(cfg, s, OnceTimeOut);
      ExecPush(cfg, s, [], s, OnceTimeOut);
    } else {
      steps, t := [OnceReceive], Apply(cfg, s, OnceReceive);
      ExecPush(cfg, s, [], s, OnceReceive);
      if t.replier.Accepted? {
        ExecPush(cfg, s, steps, t, OnceCall);
        steps, t := steps + [OnceCall], Apply(cfg, t, OnceCall);
        ExecPush(cfg, s, steps, t, OnceSend);
        steps, t := steps + [OnceSend], Apply(cfg, t, OnceSend);
      }
    }
  }

  /** A step that is not one of requester `a`'s own. */
  predicate OfOthers(step: Step, a: Addr) {
    (step.Send? || step.Receive? || step.TimeOut?) ==> step.a != a
  }

  /** While others act, a requester keeps waiting. */
  lemma {:induction false} KeepsWaiting<S>(cfg: Config<S>, s: State<S>, others: seq<Step>, u: State<S>, a: Addr)
    requires a in s.phases && Exec(cfg, s, others) == Some(u)
    requires forall i :: 0 <= i < |others| ==> OfOthers(others[i], a)
    ensures a in u.phases && u.phases[a] == s.phases[a]
  {
    if others != [] {
      var n := |others| - 1;
      KeepsWaiting(cfg, s, others[..n], Exec(cfg, s, others[..n]).value, a);
      assert OfOthers(others[n], a);
    }
  }

  /**
   A call of `request` is a `Send`, any steps of the others and of the network, and a `Receive` or a `TimeOut`. The
   method called with an environment that makes of the network what those others make of it leaves the protocol's
   network, and its result is the one the protocol records.
   */
  lemma RequestRefinesProtocol<S>(cfg: Config<S>, s: State<S>, others: seq<Step>, u: State<S>, a: Addr, msg: Message,
                                  env: Net -> Net, failed: bool) returns (steps: seq<Step>, t: State<S>)
    requires Enabled(cfg, s, Send(a, msg)) && Exec(cfg, Apply(cfg, s, Send(a, msg)), others) == Some(u)
    requires forall i :: 0 <= i < |others| ==> OfOthers(others[i], a)
    requires env(Posted(s.net, Packet(a, cfg.host, msg))) == u.net && (failed || HasMail(u.net, a))
    ensures a in u.phases && u.phases[a] == Waiting(msg)
    ensures steps == [Send(a, msg)] + others + [if failed then TimeOut(a) else Receive(a)]
    ensures Exec(cfg, s, steps) == Some(t) && t.phases == u.phases[a := Idle]
    ensures var (net, rep) := RequestEnd(env(Posted(s.net, Packet(a, cfg.host, msg))), a, cfg.replySizes(a), failed);
            && t.net == net && t.log == u.log + [if failed then GaveUp(a) else Returned(a, rep)]
            && rep == ResultOf(t.log[|t.log| - 1])
  {
    var asked, last := Apply(cfg, s, Send(a, msg)), if failed then TimeOut(a) else Receive(a);
    KeepsWaiting(cfg, asked, others, u, a);
    assert Exec(cfg, s, []) == Some(s) && [] + [Send(a, msg)] == [Send(a, msg)];
    ExecPush(cfg, s, [], s, Send(a, msg));
    ExecAppend(cfg, s, [Send(a, msg)], asked, others);
    ExecPush(cfg, s, [Send(a, msg)] + others, u, last);
    steps, t := [Send(a, msg)] + others + [last], Apply(cfg, u, last);
  }

  /** Sending every answer to a fixed address is the same as answering the sender exactly when the two agree. */
  lemma FixedAddressAgrees<S>(net: Net, host: Addr, size: nat, callback: Option<Callback<S>>, memory: S, failed: bool,
                              to: Addr)
    requires failed || HasMail(net, host)
    ensures OnceEffect(net, host, size, callback, memory, failed, Some(to))
            == OnceEffect(net, host, size, callback, memory, failed, None)
            <==> failed || callback.None? || Frame(size, Mail(net, host).data) == [] || Mail(net, host).src == to
  {
    if !failed {
      var p := Mail(net, host);
      FrameShape(size, p.data);
      if Accept(size, p).Accepted? && callback.Some? {
        var ans := callback.value(memory, Frame(size, p.data)).1;
        var n := |net.flight|;
        assert Posted(Taken(net, host), Packet(host, to, ans)).flight[n] == Packet(host, to, ans);
        assert Posted(Taken(net, host), Packet(host, p.src, ans)).flight[n] == Packet(host, p.src, ans);
      }
    }
  }
}
