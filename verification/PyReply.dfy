/**
 `Reply.loop` and `Request.request` (Python) over a lossless, in-order channel: every callback registered with the
 replier may answer each request, and the requester takes one datagram per call. Both send with `UDPSocket.sendto`, so a
 long message or answer goes out as several datagrams and may raise, which ends the process that sent it.
 */
module PyReply {
  import opened Sequences
  import opened Datagrams
  import opened PyUdpSocket

  /** A callback returns `None` when it does not answer. */
  type Callback = Message -> Option<Message>

  const SILENCE := Traffic([], true)

  datatype Server = Listening | Serving(data: Message, next: nat) | Raised

  /** `bound`: the name `buffer` in `sendto` means the data, as was intended; as written it means nothing. */
  datatype Config = Config(callbacks: seq<Callback>, serverSize: nat, clientSize: nat, messages: seq<Message>,
                           bound: bool)

  /** `taken` are the datagrams the requester has received, as the replier sent them. */
  datatype State = State(sent: nat, halted: bool, requests: seq<Message>, server: Server, replies: seq<Message>,
                         taken: seq<Message>)

  datatype Step = Ask | Take | Serve | Call | Finish

  const START := State(0, false, [], Listening, [], [])

  /** A receive keeps at most `size` bytes. */
  function Cut(size: nat, data: Message): (r: Message)
    ensures r <= data && |r| <= size && (|r| == size || r == data)
  {
    data[..Min(size, |data|)]
  }

  /** What comes second happens only if the process survives what comes first. */
  function Then(t: Traffic, u: Traffic): Traffic {
    if t.alive then Traffic(t.out + u.out, u.alive) else t
  }

  function Answer(bound: bool, c: Callback, data: Message): Traffic {
    match c(data)
    case None => SILENCE
    case Some(r) => Post(bound, r)
  }

  /** The first `n` callbacks answer `data`. */
  function Answers(bound: bool, callbacks: seq<Callback>, data: Message, n: nat): Traffic
    requires n <= |callbacks|
  {
    if n == 0 then SILENCE
    else Then(Answers(bound, callbacks, data, n - 1), Answer(bound, callbacks[n - 1], data))
  }

  predicate Enabled(cfg: Config, s: State, step: Step) {
    match step
    case Ask => !s.halted && s.sent == |s.taken| && s.sent < |cfg.messages|
    case Take => !s.halted && s.sent > |s.taken| && s.replies != []
    case Serve => s.server.Listening? && s.requests != []
    case Call => s.server.Serving? && s.server.next < |cfg.callbacks|
    case Finish => s.server.Serving? && s.server.next >= |cfg.callbacks|
  }

  function Apply(cfg: Config, s: State, step: Step): State
    requires Enabled(cfg, s, step)
  {
    match step
    case Ask =>
      var p := Post(cfg.bound, cfg.messages[s.sent]);
      s.(sent := s.sent + 1, halted := !p.alive, requests := s.requests + p.out)
    case Take => s.(replies := s.replies[1..], taken := s.taken + [s.replies[0]])
    case Serve =>
      var data := Cut(cfg.serverSize, s.requests[0]);
      s.(requests := s.requests[1..], server := if data == [] then Listening else Serving(data, 0))
    case Call =>
      var p := Answer(cfg.bound, cfg.callbacks[s.server.next], s.server.data);
      s.(replies := s.replies + p.out, server := if p.alive then Serving(s.server.data, s.server.next + 1) else Raised)
    case Finish => s.(server := Listening)
  }

  function Exec(cfg: Config, steps: seq<Step>): Option<State> {
    if steps == [] then Some(START)
    else
      match Exec(cfg, steps[..|steps| - 1])
      case None => None
      case Some(s) => if Enabled(cfg, s, steps[|steps| - 1]) then Some(Apply(cfg, s, steps[|steps| - 1])) else None
  }

  lemma Extend(cfg: Config, steps: seq<Step>, s: State, step: Step) returns (steps': seq<Step>, t: State)
    requires Exec(cfg, steps) == Some(s) && Enabled(cfg, s, step)
    ensures Exec(cfg, steps') == Some(t) && t == Apply(cfg, s, step)
  {
    steps', t := steps + [step], Apply(cfg, s, step);
    assert steps'[..|steps|] == steps;
  }

  /** What `request` returned for the `j`-th call. */
  function Result(cfg: Config, s: State, j: nat): Message
    requires j < |s.taken|
  {
    Cut(cfg.clientSize, s.taken[j])
  }

  /** The `Reply` object: its callbacks, and one turn of its endless loop. */
  class Reply {
    var cb: seq<Callback>

    constructor ()
      ensures cb == []
    {
      cb := [];
    }

    method RegisterCb(callback: Callback)
      modifies this
      ensures cb == old(cb) + [callback]
    {
      cb := cb + [callback];
    }

    /** `received` is `None` when the receive timed out; returns what is sent back, and false if a send raised. */
    method Turn(datasize: nat, received: Option<Message>, bound: bool) returns (sent: seq<Message>, alive: bool)
      ensures Traffic(sent, alive) == if received.None? then SILENCE else React(bound, cb, datasize, received.value)
      ensures received.None? || datasize == 0 || received.value == [] ==> sent == [] && alive
      ensures received.Some? && Cut(datasize, received.value) != [] && Fitting(cb, Cut(datasize, received.value)) ==>
                alive && exists who :: Gives(cb, Cut(datasize, received.value), who, sent)
    {
      if received.Some? {
        ReactGives(bound, cb, datasize, received.value);
      }
      sent, alive := [], true;
      if received.None? || |Cut(datasize, received.value)| == 0 {
        return;
      }
      var data := Cut(datasize, received.value);
      for n := 0 to |cb|
        invariant alive && Traffic(sent, alive) == Answers(bound, cb, data, n)
      {
        var reply := cb[n](data);
        if reply.Some? {
          var parts, outcome := SendTo(reply.value, MAX_PACKET_SIZE, if bound then reply else None);
          sent := sent + parts;
          if outcome.NameError? {
            AnswersStop(bound, cb, data, n + 1, |cb|);
            return sent, false;
          }
        }
      }
    }
  }

  /** What one datagram draws from the replier: nothing if it arrives empty, else whatever the callbacks give. */
  function React(bound: bool, callbacks: seq<Callback>, size: nat, d: Message): Traffic {
    var data := Cut(size, d);
    if data == [] then SILENCE else Answers(bound, callbacks, data, |callbacks|)
  }

  function Reaction(cfg: Config, d: Message): Traffic {
    React(cfg.bound, cfg.callbacks, cfg.serverSize, d)
  }

  /** Every answer that is given fits one datagram. */
  predicate Fitting(callbacks: seq<Callback>, data: Message) {
    forall i :: 0 <= i < |callbacks| ==>
                  callbacks[i](data).Some? ==> |callbacks[i](data).value| <= MAX_PACKET_SIZE
  }

  /** `who` are the callbacks that answer `data`, in their order, and `sent` is what each of them answers. */
  predicate Gives(callbacks: seq<Callback>, data: Message, who: seq<nat>, sent: seq<Message>) {
    && |who| == |sent|
    && (forall i, j :: 0 <= i < j < |who| ==> who[i] < who[j])
    && (forall j :: 0 <= j < |who| ==> who[j] < |callbacks| && callbacks[who[j]](data) == Some(sent[j]))
    && (forall i :: 0 <= i < |callbacks| && callbacks[i](data).Some? ==> i in who)
  }

  lemma GivesPush(callbacks: seq<Callback>, data: Message, who: seq<nat>, sent: seq<Message>, c: Callback)
    requires Gives(callbacks, data, who, sent)
    ensures c(data).None? ==> Gives(callbacks + [c], data, who, sent)
    ensures c(data).Some? ==> Gives(callbacks + [c], data, who + [|callbacks|], sent + [c(data).value])
  {
  }

  /** What is sent back is what the callbacks that answer give, each once and in order; the silent ones add nothing. */
  lemma {:induction false} AnswersGiven(bound: bool, callbacks: seq<Callback>, data: Message, n: nat)
    returns (who: seq<nat>)
    requires n <= |callbacks| && Fitting(callbacks, data)
    ensures Answers(bound, callbacks, data, n).alive
    ensures Gives(callbacks[..n], data, who, Answers(bound, callbacks, data, n).out)
  {
    if n == 0 {
      who := [];
    } else {
      who := AnswersGiven(bound, callbacks, data, n - 1);
      var c := callbacks[n - 1];
      GivesPush(callbacks[..n - 1], data, who, Answers(bound, callbacks, data, n - 1).out, c);
      assert callbacks[..n] == callbacks[..n - 1] + [c];
      if c(data).Some? {
        ShortPost(bound, c(data).value);
        who := who + [n - 1];
      } else {
        ThenSilence(Answers(bound, callbacks, data, n - 1));
      }
    }
  }

  lemma ReactGives(bound: bool, callbacks: seq<Callback>, size: nat, d: Message)
    ensures var t, data := React(bound, callbacks, size, d), Cut(size, d);
            data != [] && Fitting(callbacks, data) ==> t.alive && exists who :: Gives(callbacks, data, who, t.out)
  {
    if Cut(size, d) != [] && Fitting(callbacks, Cut(size, d)) {
      var who := AnswersGiven(bound, callbacks, Cut(size, d), |callbacks|);
      assert callbacks[..|callbacks|] == callbacks;
    }
  }

  /** Nobody answers, nothing is sent. */
  lemma AllSilent(callbacks: seq<Callback>, data: Message, who: seq<nat>, sent: seq<Message>)
    requires Gives(callbacks, data, who, sent)
    ensures sent == [] <==> forall i :: 0 <= i < |callbacks| ==> callbacks[i](data).None?
  {
    if sent != [] {
      assert callbacks[who[0]](data).Some?;
    }
  }

  /** Everything the replier sends in answer to the datagrams `ds`. */
  function Emit(cfg: Config, ds: seq<Message>): Traffic {
    if ds == [] then SILENCE else Then(Emit(cfg, ds[..|ds| - 1]), Reaction(cfg, ds[|ds| - 1]))
  }

  /** The datagrams of the first `n` requests. */
  function Outgoing(cfg: Config, n: nat): seq<Message>
    requires n <= |cfg.messages|
  {
    if n == 0 then [] else Outgoing(cfg, n - 1) + Post(cfg.bound, cfg.messages[n - 1]).out
  }

  lemma ConcatAssociates<T>(a: seq<T>, b: seq<T>, c: seq<T>)
    ensures a + (b + c) == (a + b) + c
  {
  }

  lemma ThenAssociates(t: Traffic, u: Traffic, v: Traffic)
    ensures Then(t, Then(u, v)) == Then(Then(t, u), v)
  {
    ConcatAssociates(t.out, u.out, v.out);
  }

  lemma ThenSilence(t: Traffic)
    ensures Then(t, SILENCE) == t
  {
  }

  /** `t` is what has been sent by the time `u` has. */
  predicate Within(t: Traffic, u: Traffic) {
    t.out <= u.out && (!t.alive ==> u == t)
  }

  lemma ThenWithin(t: Traffic, u: Traffic, v: Traffic)
    requires Within(u, v)
    ensures Within(t, Then(t, u)) && Within(Then(t, u), Then(t, v))
  {
    assert t.out + u.out == (t.out + v.out)[..|t.out + u.out|];
  }

  lemma {:induction false} AnswersWithin(bound: bool, callbacks: seq<Callback>, data: Message, n: nat, m: nat)
    requires n <= m <= |callbacks|
    ensures Within(Answers(bound, callbacks, data, n), Answers(bound, callbacks, data, m))
    decreases m
  {
    if n < m {
      AnswersWithin(bound, callbacks, data, n, m - 1);
      var t, u := Answers(bound, callbacks, data, m - 1), Answer(bound, callbacks[m - 1], data);
      ThenWithin(t, u, u);
    }
  }

  lemma AnswersStop(bound: bool, callbacks: seq<Callback>, data: Message, n: nat, m: nat)
    requires n <= m <= |callbacks| && !Answers(bound, callbacks, data, n).alive
    ensures Answers(bound, callbacks, data, m) == Answers(bound, callbacks, data, n)
  {
    AnswersWithin(bound, callbacks, data, n, m);
  }

  lemma {:induction false} EmitWithin(cfg: Config, ds: seq<Message>, n: nat)
    requires n <= |ds|
    ensures Within(Emit(cfg, ds[..n]), Emit(cfg, ds))
  {
    if n == |ds| {
      assert ds[..n] == ds;
    } else {
      var front := ds[..|ds| - 1];
      EmitWithin(cfg, front, n);
      assert front[..n] == ds[..n];
      var r := Reaction(cfg, ds[|ds| - 1]);
      ThenWithin(Emit(cfg, front), r, r);
    }
  }

  /** What the last of `ds` draws follows what those before it draw. */
  lemma EmitLast(cfg: Config, ds: seq<Message>, c: nat)
    requires 0 < c <= |ds|
    ensures Emit(cfg, ds[..c]) == Then(Emit(cfg, ds[..c - 1]), Reaction(cfg, ds[c - 1]))
  {
    assert ds[..c][..c - 1] == ds[..c - 1];
  }

  /** Requests the replier has taken. */
  function Consumed(cfg: Config, s: State): int
    requires s.sent <= |cfg.messages|
  {
    |Outgoing(cfg, s.sent)| - |s.requests|
  }

  /** The replier is where the requests it has taken put it. */
  predicate Tracked(cfg: Config, s: State) {
    && s.sent <= |cfg.messages| && |s.taken| <= s.sent
    && var ds, c := Outgoing(cfg, s.sent), Consumed(cfg, s);
       && c >= 0 && s.requests == ds[c..]
       && (s.server.Serving? ==>
             c > 0 && s.server.next <= |cfg.callbacks|
             && s.server.data != [] && s.server.data == Cut(cfg.serverSize, ds[c - 1]))
  }

  /** What a replier in state `server` has sent by the time it has taken the first `c` of the datagrams `ds`. */
  function EmittedBy(cfg: Config, ds: seq<Message>, c: nat, server: Server): Traffic
    requires c <= |ds| && (server.Serving? ==> c > 0 && server.next <= |cfg.callbacks|)
  {
    if server.Serving? then
      Then(Emit(cfg, ds[..c - 1]), Answers(cfg.bound, cfg.callbacks, server.data, server.next))
    else Emit(cfg, ds[..c])
  }

  /** Everything the replier has sent so far. */
  function Emitted(cfg: Config, s: State): Traffic
    requires Tracked(cfg, s)
  {
    EmittedBy(cfg, Outgoing(cfg, s.sent), Consumed(cfg, s), s.server)
  }

  predicate Inv(cfg: Config, s: State) {
    Tracked(cfg, s) && Emitted(cfg, s) == Traffic(s.taken + s.replies, !s.server.Raised?)
  }

  lemma InvAsk(cfg: Config, s: State)
    requires Inv(cfg, s) && Enabled(cfg, s, Ask)
    ensures Inv(cfg, Apply(cfg, s, Ask))
  {
    var t := Apply(cfg, s, Ask);
    var ds, p, c := Outgoing(cfg, s.sent), Post(cfg.bound, cfg.messages[s.sent]).out, Consumed(cfg, s);
    assert Outgoing(cfg, t.sent) == ds + p;
    assert (ds + p)[c..] == ds[c..] + p && (ds + p)[..c] == ds[..c];
    assert c > 0 ==> (ds + p)[..c - 1] == ds[..c - 1];
  }

  lemma InvTake(cfg: Config, s: State)
    requires Inv(cfg, s) && Enabled(cfg, s, Take)
    ensures Inv(cfg, Apply(cfg, s, Take))
  {
    assert s.replies == [s.replies[0]] + s.replies[1..];
    ConcatAssociates(s.taken, [s.replies[0]], s.replies[1..]);
  }

  lemma EmittedByServe(cfg: Config, ds: seq<Message>, c: nat)
    requires c < |ds|
    ensures var data := Cut(cfg.serverSize, ds[c]);
            EmittedBy(cfg, ds, c + 1, if data == [] then Listening else Serving(data, 0))
            == EmittedBy(cfg, ds, c, Listening)
  {
    EmitLast(cfg, ds, c + 1);
    ThenSilence(Emit(cfg, ds[..c]));
  }

  lemma InvServe(cfg: Config, s: State)
    requires Inv(cfg, s) && Enabled(cfg, s, Serve)
    ensures Inv(cfg, Apply(cfg, s, Serve))
  {
    var ds, c := Outgoing(cfg, s.sent), Consumed(cfg, s);
    assert s.requests[0] == ds[c] && s.requests[1..] == ds[c + 1..];
    EmittedByServe(cfg, ds, c);
  }

  lemma TrackedCall(cfg: Config, s: State)
    requires Tracked(cfg, s) && Enabled(cfg, s, Call)
    ensures Tracked(cfg, Apply(cfg, s, Call))
  {
  }

  /** The answer of one callback follows those of the callbacks before it; if it raises, no other follows. */
  lemma AnswersNext(cfg: Config, pre: Traffic, data: Message, n: nat)
    requires n < |cfg.callbacks| && Answers(cfg.bound, cfg.callbacks, data, n).alive
    ensures var t := Answers(cfg.bound, cfg.callbacks, data, n);
            var p := Answer(cfg.bound, cfg.callbacks[n], data);
            Then(Then(pre, t), p)
            == Then(pre, Answers(cfg.bound, cfg.callbacks, data, if p.alive then n + 1 else |cfg.callbacks|))
  {
    ThenAssociates(pre, Answers(cfg.bound, cfg.callbacks, data, n), Answer(cfg.bound, cfg.callbacks[n], data));
    if !Answer(cfg.bound, cfg.callbacks[n], data).alive {
      AnswersStop(cfg.bound, cfg.callbacks, data, n + 1, |cfg.callbacks|);
    }
  }

  lemma EmittedByCall(cfg: Config, ds: seq<Message>, c: nat, data: Message, n: nat)
    requires 0 < c <= |ds| && n < |cfg.callbacks| && data == Cut(cfg.serverSize, ds[c - 1]) && data != []
    requires EmittedBy(cfg, ds, c, Serving(data, n)).alive
    ensures var p := Answer(cfg.bound, cfg.callbacks[n], data);
            EmittedBy(cfg, ds, c, if p.alive then Serving(data, n + 1) else Raised)
            == Then(EmittedBy(cfg, ds, c, Serving(data, n)), p)
  {
    AnswersNext(cfg, Emit(cfg, ds[..c - 1]), data, n);
    EmitLast(cfg, ds, c);
  }

  lemma InvCall(cfg: Config, s: State)
    requires Inv(cfg, s) && Enabled(cfg, s, Call)
    ensures Inv(cfg, Apply(cfg, s, Call))
  {
    TrackedCall(cfg, s);
    EmittedByCall(cfg, Outgoing(cfg, s.sent), Consumed(cfg, s), s.server.data, s.server.next);
    ConcatAssociates(s.taken, s.replies, Answer(cfg.bound, cfg.callbacks[s.server.next], s.server.data).out);
  }

  lemma EmittedByFinish(cfg: Config, ds: seq<Message>, c: nat, data: Message)
    requires 0 < c <= |ds| && data == Cut(cfg.serverSize, ds[c - 1]) && data != []
    ensures EmittedBy(cfg, ds, c, Listening) == EmittedBy(cfg, ds, c, Serving(data, |cfg.callbacks|))
  {
    EmitLast(cfg, ds, c);
  }

  lemma InvFinish(cfg: Config, s: State)
    requires Inv(cfg, s) && Enabled(cfg, s, Finish)
    ensures Inv(cfg, Apply(cfg, s, Finish))
  {
    EmittedByFinish(cfg, Outgoing(cfg, s.sent), Consumed(cfg, s), s.server.data);
  }

  lemma InvStep(cfg: Config, s: State, step: Step)
    requires Inv(cfg, s) && Enabled(cfg, s, step)
    ensures Inv(cfg, Apply(cfg, s, step))
  {
    match step
    case Ask => InvAsk(cfg, s);
    case Take => InvTake(cfg, s);
    case Serve => InvServe(cfg, s);
    case Call => InvCall(cfg, s);
    case Finish => InvFinish(cfg, s);
  }

  lemma {:induction false} InvRun(cfg: Config, steps: seq<Step>)
    ensures Exec(cfg, steps).Some? ==> Inv(cfg, Exec(cfg, steps).value)
  {
    if steps == [] {
      assert Outgoing(cfg, 0) == [];
    } else {
      InvRun(cfg, steps[..|steps| - 1]);
      if Exec(cfg, steps).Some? {
        InvStep(cfg, Exec(cfg, steps[..|steps| - 1]).value, steps[|steps| - 1]);
      }
    }
  }

  lemma EmittedWithin(cfg: Config, s: State)
    requires Tracked(cfg, s)
    ensures Within(Emitted(cfg, s), Emit(cfg, Outgoing(cfg, s.sent)))
  {
    var ds, c := Outgoing(cfg, s.sent), Consumed(cfg, s);
    EmitWithin(cfg, ds, c);
    if s.server.Serving? {
      AnswersWithin(cfg.bound, cfg.callbacks, s.server.data, s.server.next, |cfg.callbacks|);
      EmitLast(cfg, ds, c);
      ThenWithin(Emit(cfg, ds[..c - 1]), Answers(cfg.bound, cfg.callbacks, s.server.data, s.server.next),
                 Reaction(cfg, ds[c - 1]));
    }
  }

  /**
   On every run, whatever answers, keeps silent or raises, the requester has received an initial part of the one stream
   of datagrams that its requests so far draw.
   */
  lemma RepliesFollowStream(cfg: Config, steps: seq<Step>, s: State)
    requires Exec(cfg, steps) == Some(s)
    ensures s.sent <= |cfg.messages| && s.taken <= Emit(cfg, Outgoing(cfg, s.sent)).out
  {
    InvRun(cfg, steps);
    EmittedWithin(cfg, s);
    assert s.taken <= Emitted(cfg, s).out;
  }

  /** One callback answers, after `base` and what the callbacks before it answered. */
  lemma CallOnce(cfg: Config, s: State, base: seq<Message>)
    requires Enabled(cfg, s, Call)
    requires var a := Answers(cfg.bound, cfg.callbacks, s.server.data, s.server.next);
             a.alive && s.replies == base + a.out
    ensures var n, data := s.server.next, s.server.data;
            var next := Answers(cfg.bound, cfg.callbacks, data, n + 1);
            && Apply(cfg, s, Call)
               == s.(replies := base + next.out, server := if next.alive then Serving(data, n + 1) else Raised)
            && (!next.alive ==> Answers(cfg.bound, cfg.callbacks, data, |cfg.callbacks|) == next)
  {
    var n, data := s.server.next, s.server.data;
    var p := Answer(cfg.bound, cfg.callbacks[n], data);
    ConcatAssociates(base, Answers(cfg.bound, cfg.callbacks, data, n).out, p.out);
    if !p.alive {
      AnswersStop(cfg.bound, cfg.callbacks, data, n + 1, |cfg.callbacks|);
    }
  }

  /** The callbacks from the `next` one on answer. */
  lemma {:induction false} CallsRun(cfg: Config, steps: seq<Step>, s: State, base: seq<Message>)
    returns (steps': seq<Step>, t: State)
    requires Exec(cfg, steps) == Some(s) && s.server.Serving? && s.server.next <= |cfg.callbacks|
    requires var a := Answers(cfg.bound, cfg.callbacks, s.server.data, s.server.next);
             a.alive && s.replies == base + a.out
    ensures Exec(cfg, steps') == Some(t)
    ensures var all := Answers(cfg.bound, cfg.callbacks, s.server.data, |cfg.callbacks|);
            t == s.(replies := base + all.out, server := if all.alive then Listening else Raised)
    decreases |cfg.callbacks| - s.server.next
  {
    if s.server.next == |cfg.callbacks| {
      steps', t := Extend(cfg, steps, s, Finish);
    } else {
      var u;
      CallOnce(cfg, s, base);
      steps', u := Extend(cfg, steps, s, Call);
      t := u;
      if u.server.Serving? {
        assert u.server.data == s.server.data && u == s.(replies := u.replies, server := u.server);
        steps', t := CallsRun(cfg, steps', u, base);
      }
    }
  }

  /** A turn of the replier's loop is a step that serves the next request and a step for each callback it calls. */
  lemma TurnRefinesLoop(cfg: Config, steps: seq<Step>, s: State) returns (steps': seq<Step>, t: State)
    requires Exec(cfg, steps) == Some(s) && Enabled(cfg, s, Serve)
    ensures Exec(cfg, steps') == Some(t)
    ensures var r := React(cfg.bound, cfg.callbacks, cfg.serverSize, s.requests[0]);
            t == s.(requests := s.requests[1..], replies := s.replies + r.out,
                    server := if r.alive then Listening else Raised)
  {
    steps', t := Extend(cfg, steps, s, Serve);
    if t.server.Serving? {
      assert s.replies + [] == s.replies;
      steps', t := CallsRun(cfg, steps', t, s.replies);
    } else {
      assert s.replies + [] == s.replies;
    }
  }
}
