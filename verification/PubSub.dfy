/** Publisher and Subscriber (C++): who is sent what, and what each subscriber's callbacks get to see of it. */
module PubSub {
  import opened Sequences
  import opened Datagrams
  import opened SocketUdp

  /** One datagram for each registration, in registration order. */
  function Broadcast(src: Addr, clients: seq<Addr>, data: Message): (ps: seq<Packet>)
    ensures |ps| == |clients|
  {
    seq(|clients|, i requires 0 <= i < |clients| => Packet(src, clients[i], data))
  }

  /** Calls on a publisher, with what the system calls they make return. */
  datatype Op =
    | Bind(addr: Addr, bound: bool)
    | Connect(addr: Addr, reusable: bool, bound: bool)
    | Publish(data: Message)

  function Clients(ops: seq<Op>): seq<Addr> {
    if ops == [] then []
    else
      var front, last := ops[..|ops| - 1], ops[|ops| - 1];
      if last.Publish? then Clients(front) else Clients(front) + [last.addr]
  }

  /** The datagrams of a run of calls. */
  function Output(src: Addr, ops: seq<Op>): seq<Packet> {
    if ops == [] then []
    else
      var front, last := ops[..|ops| - 1], ops[|ops| - 1];
      if last.Publish? then Output(src, front) + Broadcast(src, Clients(front), last.data) else Output(src, front)
  }

  lemma FlightAssociates(a: seq<Packet>, b: seq<Packet>, c: seq<Packet>)
    ensures a + b + c == a + (b + c)
  {
  }

  class Publisher {
    const socket: SocketUDP
    var clientaddrs: seq<Addr>

    constructor (socket: SocketUDP)
      ensures this.socket == socket && clientaddrs == []
    {
      this.socket := socket;
      clientaddrs := [];
    }

    method RegisterAddr(c: Addr)
      modifies this
      ensures clientaddrs == old(clientaddrs) + [c]
    {
      clientaddrs := clientaddrs + [c];
    }

    /** Registers first: a failing system call (`bound` false) leaves the address registered. */
    method Bind(addr: Addr, bound: bool) returns (ok: bool)
      modifies this
      ensures clientaddrs == old(clientaddrs) + [addr] && ok == bound
    {
      RegisterAddr(addr);
      ok := bound;
    }

    method Connect(addr: Addr, reusable: bool, bound: bool) returns (ok: bool)
      modifies this
      ensures clientaddrs == old(clientaddrs) + [addr] && ok == (reusable && bound)
    {
      RegisterAddr(addr);
      if !reusable {
        return false;
      }
      ok := bound;
    }

    method Publish(data: Message)
      modifies socket.kernel
      ensures var before := old(socket.kernel.net);
              socket.kernel.net == Net(before.flight + Broadcast(socket.addr, clientaddrs, data), before.arrived)
      ensures |socket.kernel.net.flight| == |old(socket.kernel.net).flight| + |clientaddrs|
      ensures forall i :: 0 <= i < |clientaddrs| ==>
                            socket.kernel.net.flight[|old(socket.kernel.net).flight| + i]
                            == Packet(socket.addr, clientaddrs[i], data)
    {
      ghost var before := socket.kernel.net;
      ghost var out := Broadcast(socket.addr, clientaddrs, data);
      for i := 0 to |clientaddrs|
        invariant socket.kernel.net == Net(before.flight + out[..i], before.arrived)
      {
        assert before.flight + out[..i + 1] == before.flight + out[..i] + [out[i]];
        var _ := socket.SendTo(data, clientaddrs[i]);
      }
      assert out[..|clientaddrs|] == out;
    }

    /** Any run of calls on a new publisher. */
    method Run(ops: seq<Op>)
      requires clientaddrs == []
      modifies this, socket.kernel
      ensures clientaddrs == Clients(ops)
      ensures var before := old(socket.kernel.net);
              socket.kernel.net == Net(before.flight + Output(socket.addr, ops), before.arrived)
    {
      ghost var before := socket.kernel.net;
      for n := 0 to |ops|
        invariant clientaddrs == Clients(ops[..n])
        invariant socket.kernel.net == Net(before.flight + Output(socket.addr, ops[..n]), before.arrived)
      {
        assert ops[..n + 1][..n] == ops[..n];
        match ops[n]
        case Bind(addr, bound) => var _ := Bind(addr, bound);
        case Connect(addr, reusable, bound) => var _ := Connect(addr, reusable, bound);
        case Publish(data) =>
          FlightAssociates(before.flight, Output(socket.addr, ops[..n]), Broadcast(socket.addr, clientaddrs, data));
          Publish(data);
      }
      assert ops[..|ops|] == ops;
    }
  }

  /** Contents of the datagrams addressed to `a`, in order. */
  function DataTo(ps: seq<Packet>, a: Addr): seq<Message> {
    if ps == [] then []
    else
      var front, last := DataTo(ps[..|ps| - 1], a), ps[|ps| - 1];
      if last.dst == a then front + [last.data] else front
  }

  /** How many calls of the history registered `a`. */
  function Registrations(ops: seq<Op>, a: Addr): nat {
    if ops == [] then 0
    else
      var last := ops[|ops| - 1];
      Registrations(ops[..|ops| - 1], a) + if !last.Publish? && last.addr == a then 1 else 0
  }

  function Copies(n: nat, m: Message): seq<Message> {
    if n == 0 then [] else Copies(n - 1, m) + [m]
  }

  /** Every published message in order, as many times as `a` was registered when it was published. */
  function Due(ops: seq<Op>, a: Addr): seq<Message> {
    if ops == [] then []
    else
      var front, last := ops[..|ops| - 1], ops[|ops| - 1];
      if last.Publish? then Due(front, a) + Copies(Registrations(front, a), last.data) else Due(front, a)
  }

  lemma {:induction false} DataToAppend(ps: seq<Packet>, qs: seq<Packet>, a: Addr)
    ensures DataTo(ps + qs, a) == DataTo(ps, a) + DataTo(qs, a)
  {
    if qs == [] {
      assert ps + qs == ps;
    } else {
      assert (ps + qs)[..|ps + qs| - 1] == ps + qs[..|qs| - 1];
      DataToAppend(ps, qs[..|qs| - 1], a);
    }
  }

  lemma {:induction false} BroadcastCopies(src: Addr, ops: seq<Op>, data: Message, a: Addr)
    ensures DataTo(Broadcast(src, Clients(ops), data), a) == Copies(Registrations(ops, a), data)
  {
    if ops != [] {
      var front, last := ops[..|ops| - 1], ops[|ops| - 1];
      BroadcastCopies(src, front, data, a);
      if !last.Publish? {
        var ps := Broadcast(src, Clients(front), data);
        assert Broadcast(src, Clients(ops), data) == ps + [Packet(src, last.addr, data)];
        DataToAppend(ps, [Packet(src, last.addr, data)], a);
      }
    }
  }

  /** What the publisher sends an address is exactly what that address is due. */
  lemma {:induction false} PublisherSendsDue(src: Addr, ops: seq<Op>, a: Addr)
    ensures DataTo(Output(src, ops), a) == Due(ops, a)
  {
    if ops != [] {
      var front, last := ops[..|ops| - 1], ops[|ops| - 1];
      PublisherSendsDue(src, front, a);
      if last.Publish? {
        DataToAppend(Output(src, front), Broadcast(src, Clients(front), last.data), a);
        BroadcastCopies(src, front, last.data, a);
      }
    }
  }

  /** Each registered callback is known by what it has been called with so far. */
  function Dispatched(logs: seq<seq<Message>>, msg: Message): (r: seq<seq<Message>>)
    ensures |r| == |logs| && forall c :: 0 <= c < |logs| ==> r[c] == logs[c] + [msg]
  {
    seq(|logs|, c requires 0 <= c < |logs| => logs[c] + [msg])
  }

  function OnceLogs(logs: seq<seq<Message>>, msg: Message): seq<seq<Message>> {
    if msg == [] then logs else Dispatched(logs, msg)
  }

  /** Calls on a subscriber: a registration, or a `once` that received a datagram or failed. */
  datatype SubOp = AddCallback | Receive(data: Message) | Fail

  function Logs(size: nat, ops: seq<SubOp>): seq<seq<Message>> {
    if ops == [] then []
    else
      var logs := Logs(size, ops[..|ops| - 1]);
      match ops[|ops| - 1]
      case AddCallback => logs + [[]]
      case Receive(data) => OnceLogs(logs, Frame(size, data))
      case Fail => logs
  }

  /** A datagram that arrives when none is waiting for its addressee is the one received next. */
  lemma OnlyMail(net: Net, p: Packet)
    requires !HasMail(net, p.dst)
    ensures var w := net.(arrived := net.arrived + [p]);
            HasMail(w, p.dst) && Mail(w, p.dst) == p && Taken(w, p.dst) == net
  {
    var w := net.(arrived := net.arrived + [p]);
    var k := FirstFor(w.arrived, p.dst);
    assert w.arrived[|net.arrived|] == p;
    assert k == |net.arrived|;
    assert RemoveAt(w.arrived, k) == net.arrived;
  }

  class Subscriber {
    const socket: SocketUDP
    const dataSize: nat
    var callbacks: seq<seq<Message>>

    constructor (socket: SocketUDP, dataSize: nat)
      ensures this.socket == socket && this.dataSize == dataSize && callbacks == []
    {
      this.socket := socket;
      this.dataSize := dataSize;
      callbacks := [];
    }

    method RegisterCb()
      modifies this
      ensures callbacks == old(callbacks) + [[]]
    {
      callbacks := callbacks + [[]];
    }

    method Once(failed: bool)
      requires failed || HasMail(socket.kernel.net, socket.addr)
      modifies this, socket.kernel
      ensures failed ==> callbacks == old(callbacks) && socket.kernel.net == old(socket.kernel.net)
      ensures !failed ==>
                && var data := Mail(old(socket.kernel.net), socket.addr).data;
                && callbacks == OnceLogs(old(callbacks), Frame(dataSize, data))
                && socket.kernel.net == Taken(old(socket.kernel.net), socket.addr)
    {
      var msg, _ := socket.RecvFrom(dataSize, failed);
      if |msg| == 0 {
        return;
      }
      var logs := callbacks;
      for c := 0 to |logs|
        invariant |callbacks| == |logs|
        invariant socket.kernel.net == Taken(old(socket.kernel.net), socket.addr)
        invariant forall d :: 0 <= d < |logs| ==> callbacks[d] == if d < c then logs[d] + [msg] else logs[d]
      {
        callbacks := callbacks[c := callbacks[c] + [msg]];
      }
      assert callbacks == Dispatched(logs, msg);
    }

    /** Any run of calls on a new subscriber; a datagram to be received arrives while its `once` is blocked. */
    method Run(ops: seq<SubOp>, from: Addr)
      requires callbacks == [] && !HasMail(socket.kernel.net, socket.addr)
      modifies this, socket.kernel
      ensures callbacks == Logs(dataSize, ops) && socket.kernel.net == old(socket.kernel.net)
    {
      ghost var net := socket.kernel.net;
      for n := 0 to |ops|
        invariant callbacks == Logs(dataSize, ops[..n]) && socket.kernel.net == net
      {
        assert ops[..n + 1][..n] == ops[..n];
        match ops[n]
        case AddCallback => RegisterCb();
        case Fail => Once(true);
        case Receive(data) =>
          var p := Packet(from, socket.addr, data);
          OnlyMail(net, p);
          socket.kernel.Interleave((w: Net) => w.(arrived := w.arrived + [p]));
          Once(false);
      }
      assert ops[..|ops|] == ops;
    }
  }

  /** The datagrams received, in order. */
  function Received(ops: seq<SubOp>): seq<Message> {
    if ops == [] then []
    else
      var front, last := Received(ops[..|ops| - 1]), ops[|ops| - 1];
      if last.Receive? then front + [last.data] else front
  }

  /** The non-empty frames of a series of datagrams. */
  function Frames(size: nat, ds: seq<Message>): seq<Message> {
    if ds == [] then []
    else
      var front, m := Frames(size, ds[..|ds| - 1]), Frame(size, ds[|ds| - 1]);
      if m == [] then front else front + [m]
  }

  /** `xs` is `ys` with some elements left out. */
  predicate Subsequence<T(==)>(xs: seq<T>, ys: seq<T>) {
    || xs == []
    || (ys != [] && Subsequence(xs, ys[..|ys| - 1]))
    || (ys != [] && xs[|xs| - 1] == ys[|ys| - 1] && Subsequence(xs[..|xs| - 1], ys[..|ys| - 1]))
  }

  lemma {:induction false} SubsequenceFrames(size: nat, xs: seq<Message>, ys: seq<Message>)
    requires Subsequence(xs, ys)
    ensures Subsequence(Frames(size, xs), Frames(size, ys))
    decreases |ys|
  {
    if xs != [] {
      var x, y := xs[|xs| - 1], ys[|ys| - 1];
      var xs', ys' := xs[..|xs| - 1], ys[..|ys| - 1];
      var fs := Frames(size, ys');
      var m := Frame(size, y);
      assert (fs + [m])[..|fs|] == fs;
      if Subsequence(xs, ys') {
        SubsequenceFrames(size, xs, ys');
      } else {
        SubsequenceFrames(size, xs', ys');
        assert (Frames(size, xs') + [m])[..|Frames(size, xs')|] == Frames(size, xs');
      }
    }
  }

  /** Leaving out elements at the front as well. */
  lemma {:induction false} SubsequenceDrop<T>(xs: seq<T>, ys: seq<T>, n: nat)
    requires n <= |xs| && Subsequence(xs, ys)
    ensures Subsequence(xs[n..], ys)
    decreases |ys|
  {
    if n < |xs| {
      if Subsequence(xs, ys[..|ys| - 1]) {
        SubsequenceDrop(xs, ys[..|ys| - 1], n);
      } else {
        SubsequenceDrop(xs[..|xs| - 1], ys[..|ys| - 1], n);
        assert xs[n..][..|xs[n..]| - 1] == xs[..|xs| - 1][n..];
      }
    }
  }

  lemma FramesPush(size: nat, ds: seq<Message>, d: Message)
    ensures Frames(size, ds + [d])
            == if Frame(size, d) == [] then Frames(size, ds) else Frames(size, ds) + [Frame(size, d)]
  {
    assert (ds + [d])[..|ds|] == ds;
  }

  /** Datagrams received before the `c`-th callback was registered. */
  function Missed(ops: seq<SubOp>, c: nat): nat {
    if ops == [] then 0
    else if c < |Logs(0, ops[..|ops| - 1])| then Missed(ops[..|ops| - 1], c)
    else |Received(ops)|
  }

  lemma {:induction false} CallbackCount(size: nat, ops: seq<SubOp>)
    ensures |Logs(size, ops)| == |Logs(0, ops)|
  {
    if ops != [] {
      CallbackCount(size, ops[..|ops| - 1]);
    }
  }

  /** A callback has seen the non-empty frames of exactly the datagrams received since it was registered. */
  lemma {:induction false} CallbackLog(size: nat, ops: seq<SubOp>, c: nat)
    requires c < |Logs(size, ops)|
    ensures Missed(ops, c) <= |Received(ops)|
    ensures Logs(size, ops)[c] == Frames(size, Received(ops)[Missed(ops, c)..])
  {
    var front := ops[..|ops| - 1];
    CallbackCount(size, front);
    if c < |Logs(size, front)| {
      CallbackLog(size, front, c);
      var n := Missed(front, c);
      match ops[|ops| - 1]
      case AddCallback =>
      case Fail =>
      case Receive(d) =>
        assert Received(ops)[n..] == Received(front)[n..] + [d];
        FramesPush(size, Received(front)[n..], d);
    }
  }

  /**
   A publisher, a channel to address `a` and a subscriber there, their calls interleaved. The channel carries what is
   sent to `a` in order and may lose any of it; `Deliver` is a `once` that receives what comes first.
   */
  datatype Session = Session(ops: seq<Op>, channel: seq<Message>, subs: seq<SubOp>)

  datatype Event = PublisherCalls(op: Op) | Lose(k: nat) | Deliver | SubscriberCalls(sub: SubOp)

  const OPENING := Session([], [], [])

  predicate Possible(w: Session, e: Event) {
    match e
    case PublisherCalls(_) => true
    case Lose(k) => k < |w.channel|
    case Deliver => w.channel != []
    case SubscriberCalls(op) => !op.Receive?
  }

  function After(src: Addr, a: Addr, w: Session, e: Event): Session
    requires Possible(w, e)
  {
    match e
    case PublisherCalls(op) =>
      var ops := w.ops + [op];
      Session(ops, w.channel + DataTo(Output(src, ops)[|Output(src, w.ops)|..], a), w.subs)
    case Lose(k) => w.(channel := RemoveAt(w.channel, k))
    case Deliver => w.(channel := w.channel[1..], subs := w.subs + [Receive(w.channel[0])])
    case SubscriberCalls(op) => w.(subs := w.subs + [op])
  }

  function Play(src: Addr, a: Addr, events: seq<Event>): Option<Session> {
    if events == [] then Some(OPENING)
    else
      match Play(src, a, events[..|events| - 1])
      case None => None
      case Some(w) =>
        var e := events[|events| - 1];
        if Possible(w, e) then Some(After(src, a, w, e)) else None
  }

  lemma OutputGrows(src: Addr, ops: seq<Op>, op: Op)
    ensures Output(src, ops) <= Output(src, ops + [op])
  {
    assert (ops + [op])[..|ops|] == ops;
  }

  lemma ReceivedPush(subs: seq<SubOp>, op: SubOp)
    ensures Received(subs + [op]) == if op.Receive? then Received(subs) + [op.data] else Received(subs)
  {
    assert (subs + [op])[..|subs|] == subs;
  }

  lemma {:induction false} SubsequenceAppend<T>(xs: seq<T>, ys: seq<T>, zs: seq<T>)
    requires Subsequence(xs, ys)
    ensures Subsequence(xs + zs, ys + zs)
    decreases |zs|
  {
    if zs == [] {
      assert xs + zs == xs && ys + zs == ys;
    } else {
      var front := zs[..|zs| - 1];
      SubsequenceAppend(xs, ys, front);
      assert (xs + zs)[..|xs + zs| - 1] == xs + front && (ys + zs)[..|ys + zs| - 1] == ys + front;
    }
  }

  lemma {:induction false} SubsequenceRemove<T>(xs: seq<T>, ys: seq<T>, k: nat)
    requires k < |xs| && Subsequence(xs, ys)
    ensures Subsequence(RemoveAt(xs, k), ys)
    decreases |ys|
  {
    var xs', ys' := xs[..|xs| - 1], ys[..|ys| - 1];
    if Subsequence(xs, ys') {
      SubsequenceRemove(xs, ys', k);
    } else if k < |xs'| {
      SubsequenceRemove(xs', ys', k);
      assert RemoveAt(xs, k)[..|xs| - 2] == RemoveAt(xs', k);
    } else {
      assert RemoveAt(xs, k) == xs';
    }
  }

  predicate Lossless(events: seq<Event>) {
    forall i :: 0 <= i < |events| ==> !events[i].Lose?
  }

  lemma SessionCalls(src: Addr, a: Addr, w: Session, op: Op)
    ensures DataTo(Output(src, w.ops + [op]), a)
            == DataTo(Output(src, w.ops), a) + DataTo(Output(src, w.ops + [op])[|Output(src, w.ops)|..], a)
  {
    var before, after := Output(src, w.ops), Output(src, w.ops + [op]);
    OutputGrows(src, w.ops, op);
    assert before + after[|before|..] == after;
    DataToAppend(before, after[|before|..], a);
  }

  /** Received and still on the way, together, are what was sent, except for what was lost. */
  lemma {:induction false} SessionKeepsOrder(src: Addr, a: Addr, events: seq<Event>, w: Session)
    requires Play(src, a, events) == Some(w)
    ensures Subsequence(Received(w.subs) + w.channel, DataTo(Output(src, w.ops), a))
    ensures Lossless(events) ==> Received(w.subs) + w.channel == DataTo(Output(src, w.ops), a)
  {
    if events != [] {
      var v := Play(src, a, events[..|events| - 1]).value;
      SessionKeepsOrder(src, a, events[..|events| - 1], v);
      SessionStep(src, a, v, events[|events| - 1]);
    }
  }

  lemma SessionSends(got: seq<Message>, channel: seq<Message>, sent: seq<Message>, more: seq<Message>)
    ensures Subsequence(got + channel, sent) ==> Subsequence(got + (channel + more), sent + more)
    ensures got + channel == sent ==> got + (channel + more) == sent + more
  {
    assert got + (channel + more) == (got + channel) + more;
    if Subsequence(got + channel, sent) {
      SubsequenceAppend(got + channel, sent, more);
    }
  }

  lemma SessionLoses(got: seq<Message>, channel: seq<Message>, sent: seq<Message>, k: nat)
    requires k < |channel|
    ensures Subsequence(got + channel, sent) ==> Subsequence(got + RemoveAt(channel, k), sent)
  {
    assert RemoveAt(got + channel, |got| + k) == got + RemoveAt(channel, k);
    if Subsequence(got + channel, sent) {
      SubsequenceRemove(got + channel, sent, |got| + k);
    }
  }

  lemma SessionStep(src: Addr, a: Addr, v: Session, e: Event)
    requires Possible(v, e)
    ensures var w := After(src, a, v, e);
            && (Subsequence(Received(v.subs) + v.channel, DataTo(Output(src, v.ops), a)) ==>
                  Subsequence(Received(w.subs) + w.channel, DataTo(Output(src, w.ops), a)))
            && (!e.Lose? && Received(v.subs) + v.channel == DataTo(Output(src, v.ops), a) ==>
                  Received(w.subs) + w.channel == DataTo(Output(src, w.ops), a))
  {
    var got, sent := Received(v.subs), DataTo(Output(src, v.ops), a);
    match e
    case PublisherCalls(op) =>
      SessionCalls(src, a, v, op);
      SessionSends(got, v.channel, sent, DataTo(Output(src, v.ops + [op])[|Output(src, v.ops)|..], a));
    case Lose(k) => SessionLoses(got, v.channel, sent, k);
    case Deliver =>
      ReceivedPush(v.subs, Receive(v.channel[0]));
      assert got + v.channel == got + [v.channel[0]] + v.channel[1..];
    case SubscriberCalls(op) => ReceivedPush(v.subs, op);
  }

  lemma {:induction false} SubsequencePrefix<T>(xs: seq<T>, zs: seq<T>, ys: seq<T>)
    requires Subsequence(xs + zs, ys)
    ensures Subsequence(xs, ys)
    decreases |zs|
  {
    if zs == [] {
      assert xs + zs == xs;
    } else {
      SubsequenceRemove(xs + zs, ys, |xs + zs| - 1);
      assert RemoveAt(xs + zs, |xs + zs| - 1) == xs + zs[..|zs| - 1];
      SubsequencePrefix(xs, zs[..|zs| - 1], ys);
    }
  }

  /**
   Publish/subscribe end to end, for every interleaving of the calls of a publisher and of a subscriber at `a` with
   losses on the channel between them: every callback sees a subsequence of the non-empty frames of every message
   published, in order, each as many times as `a` was registered at the time; callbacks registered before anything was
   received see the same; and if nothing is lost or still on the way, these see every frame.
   */
  lemma PubSubRefinement(src: Addr, a: Addr, size: nat, events: seq<Event>, w: Session, c: nat)
    requires Play(src, a, events) == Some(w) && c < |Logs(size, w.subs)|
    ensures Subsequence(Logs(size, w.subs)[c], Frames(size, Due(w.ops, a)))
    ensures Missed(w.subs, c) == 0 ==> Logs(size, w.subs)[c] == Frames(size, Received(w.subs))
    ensures Missed(w.subs, c) == 0 && Lossless(events) && w.channel == [] ==>
              Logs(size, w.subs)[c] == Frames(size, Due(w.ops, a))
  {
    var got, due := Received(w.subs), Due(w.ops, a);
    PublisherSendsDue(src, w.ops, a);
    SessionKeepsOrder(src, a, events, w);
    SubsequencePrefix(got, w.channel, due);
    CallbackLog(size, w.subs, c);
    SubsequenceDrop(got, due, Missed(w.subs, c));
    SubsequenceFrames(size, got[Missed(w.subs, c)..], due);
    assert got[0..] == got && (w.channel == [] ==> got + w.channel == got);
  }
}
