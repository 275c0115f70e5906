/**
 Stale answers: when a requester's next calls can go wrong. An idle requester is safe exactly when nothing of its
 earlier calls is outstanding, and each of the three disturbances can leave something outstanding.
 */
module RpcStale {
  import opened Sequences
  import opened Datagrams
  import opened RpcModel
  import opened RpcLedger
  import opened RpcHostile
  import opened RpcLinear

  predicate Disturbs(e: Event, a: Addr) {
    e == GaveUp(a) || e == RequestCopied(a) || e == ReplyCopied(a)
  }

  /** From position `n` on no event disturbs `a`. */
  predicate Calm(log: seq<Event>, n: nat, a: Addr) {
    forall k :: n <= k < |log| ==> !Disturbs(log[k], a)
  }

  lemma {:induction false} CalmUndisturbed(log: seq<Event>, a: Addr)
    requires Calm(log, 0, a)
    ensures Undisturbed(log, a)
  {
    if log != [] {
      CalmUndisturbed(log[..|log| - 1], a);
    }
  }

  lemma CalmSuffix(log: seq<Event>, n: nat, a: Addr)
    requires n <= |log| && Calm(log, n, a)
    ensures Undisturbed(log[n..], a)
  {
    assert forall k :: 0 <= k < |log| - n ==> log[n..][k] == log[n + k];
    CalmUndisturbed(log[n..], a);
  }

  /** `u` continues `t` with nothing disturbing `a`. */
  ghost predicate Continues<S>(cfg: Config<S>, t: State<S>, more: seq<Step>, u: State<S>, a: Addr) {
    Exec(cfg, t, more) == Some(u) && t.log <= u.log && Calm(u.log, |t.log|, a)
  }

  /** A continuation that leaves `a` idle. */
  ghost predicate StaysIdle<S>(cfg: Config<S>, t: State<S>, more: seq<Step>, u: State<S>, a: Addr) {
    && Continues(cfg, t, more, u, a)
    && Wired(cfg, u) && a in u.phases && u.phases[a].Idle?
  }

  /** The history ends with a call of `a`'s that returned although nothing was handled while it lasted. */
  predicate EndsUnserved(log: seq<Event>, n: nat, a: Addr, msg: Message) {
    && n + 2 <= |log| && log[|log| - 2] == Sent(a, msg)
    && log[|log| - 1].Returned? && log[|log| - 1].who == a
  }

  /** No handling serves what was returned at `j`. */
  ghost predicate Unserved<S>(cfg: Config<S>, log: seq<Event>, j: nat) {
    !exists i: nat, h: nat :: Linearized(cfg, log, i, h, j)
  }

  lemma UnservedNotLinearized<S>(cfg: Config<S>, log: seq<Event>, n: nat, a: Addr, msg: Message)
    requires EndsUnserved(log, n, a, msg)
    ensures Unserved(cfg, log, |log| - 1)
  {
    assert log[|log| - 2].Sent? && log[|log| - 2].who == a;
  }

  lemma Advance<S>(cfg: Config<S>, t: State<S>, more: seq<Step>, u: State<S>, a: Addr, step: Step)
    returns (more': seq<Step>, u': State<S>)
    requires StaysIdle(cfg, t, more, u, a) && Enabled(cfg, u, step)
    requires step.Deliver? || step.OnceReceive? || step.OnceCall? || step.OnceSend?
    ensures StaysIdle(cfg, t, more', u', a) && u' == Apply(cfg, u, step)
  {
    more', u' := more + [step], Apply(cfg, u, step);
    ExecPush(cfg, t, more, u, step);
    WiredStep(cfg, u, step);
  }

  /** A waiting reply is what the next call returns ... */
  lemma FromMail<S>(cfg: Config<S>, t: State<S>, more: seq<Step>, u: State<S>, a: Addr, msg: Message)
    returns (more': seq<Step>, u': State<S>)
    requires StaysIdle(cfg, t, more, u, a) && HasMail(u.net, a)
    ensures Continues(cfg, t, more', u', a) && EndsUnserved(u'.log, |t.log|, a, msg)
  {
    var v := Apply(cfg, u, Send(a, msg));
    ExecPush(cfg, t, more, u, Send(a, msg));
    ExecPush(cfg, t, more + [Send(a, msg)], v, Receive(a));
    more', u' := more + [Send(a, msg)] + [Receive(a)], Apply(cfg, v, Receive(a));
  }

  /** ... one in flight can be delivered first ... */
  lemma FromReply<S>(cfg: Config<S>, t: State<S>, more: seq<Step>, u: State<S>, a: Addr, msg: Message, k: nat)
    returns (more': seq<Step>, u': State<S>)
    requires StaysIdle(cfg, t, more, u, a) && k < |u.net.flight| && u.net.flight[k].dst == a
    ensures Continues(cfg, t, more', u', a) && EndsUnserved(u'.log, |t.log|, a, msg)
  {
    more', u' := Advance(cfg, t, more, u, a, Deliver(k));
    assert u'.net.arrived[|u'.net.arrived| - 1].dst == a;
    more', u' := FromMail(cfg, t, more', u', a, msg);
  }

  /** ... one not yet sent can be sent ... */
  lemma FromPending<S>(cfg: Config<S>, t: State<S>, more: seq<Step>, u: State<S>, a: Addr, msg: Message)
    returns (more': seq<Step>, u': State<S>)
    requires StaysIdle(cfg, t, more, u, a) && !u.replier.Listening? && u.replier.to == a
    ensures Continues(cfg, t, more', u', a) && EndsUnserved(u'.log, |t.log|, a, msg)
  {
    more', u' := more, u;
    if u.replier.Accepted? {
      more', u' := Advance(cfg, t, more', u', a, OnceCall);
    }
    more', u' := Advance(cfg, t, more', u', a, OnceSend);
    more', u' := FromReply(cfg, t, more', u', a, msg, |u'.net.flight| - 1);
  }

  function Work(r: Replier): nat {
    match r
    case Listening => 0
    case Accepted(_, _) => 2
    case Answered(_, _) => 1
  }

  /** ... and a queued request is handled once the replier has worked off what came before it. */
  lemma FromQueuedRequest<S>(cfg: Config<S>, t: State<S>, more: seq<Step>, u: State<S>, a: Addr, msg: Message, k: nat)
    returns (more': seq<Step>, u': State<S>)
    requires StaysIdle(cfg, t, more, u, a)
    requires k < |u.net.arrived| && LiveRequestOf(cfg, a)(u.net.arrived[k]) > 0
    ensures Continues(cfg, t, more', u', a) && EndsUnserved(u'.log, |t.log|, a, msg)
    decreases |u.net.arrived|, Work(u.replier)
  {
    var f := FirstFor(u.net.arrived, cfg.host);
    if u.replier.Accepted? {
      more', u' := Advance(cfg, t, more, u, a, OnceCall);
      more', u' := FromQueuedRequest(cfg, t, more', u', a, msg, k);
    } else if u.replier.Answered? {
      more', u' := Advance(cfg, t, more, u, a, OnceSend);
      more', u' := FromQueuedRequest(cfg, t, more', u', a, msg, k);
    } else {
      more', u' := Advance(cfg, t, more, u, a, OnceReceive);
      if f == k {
        more', u' := FromPending(cfg, t, more', u', a, msg);
      } else {
        assert u'.net.arrived[k - 1] == u.net.arrived[k];
        more', u' := FromQueuedRequest(cfg, t, more', u', a, msg, k - 1);
      }
    }
  }

  lemma FromRequest<S>(cfg: Config<S>, t: State<S>, more: seq<Step>, u: State<S>, a: Addr, msg: Message, k: nat)
    returns (more': seq<Step>, u': State<S>)
    requires StaysIdle(cfg, t, more, u, a)
    requires k < |u.net.flight| && LiveRequestOf(cfg, a)(u.net.flight[k]) > 0
    ensures Continues(cfg, t, more', u', a) && EndsUnserved(u'.log, |t.log|, a, msg)
  {
    more', u' := Advance(cfg, t, more, u, a, Deliver(k));
    more', u' := FromQueuedRequest(cfg, t, more', u', a, msg, |u'.net.arrived| - 1);
  }

  /**
   An idle requester with anything outstanding: whatever it asks next, the answer to an earlier message can be returned,
   with no further disturbance and with no handling at all during the call.
   */
  lemma StaleReturn<S>(cfg: Config<S>, t: State<S>, a: Addr, msg: Message) returns (more: seq<Step>, u: State<S>)
    requires Wired(cfg, t) && a in t.phases && t.phases[a].Idle? && Outstanding(cfg, t, a) > 0
    ensures Continues(cfg, t, more, u, a) && EndsUnserved(u.log, |t.log|, a, msg)
  {
    assert StaysIdle(cfg, t, [], t, a);
    var live, reply := LiveRequestOf(cfg, a), ReplyTo(cfg.host, a);
    if Pending(t.replier, a) > 0 {
      more, u := FromPending(cfg, t, [], t, a, msg);
    } else if Sum(t.net.arrived, reply) > 0 {
      var k := SumWitness(t.net.arrived, reply);
      more, u := FromMail(cfg, t, [], t, a, msg);
    } else if Sum(t.net.flight, reply) > 0 {
      var k := SumWitness(t.net.flight, reply);
      more, u := FromReply(cfg, t, [], t, a, msg, k);
    } else if Sum(t.net.arrived, live) > 0 {
      var k := SumWitness(t.net.arrived, live);
      more, u := FromQueuedRequest(cfg, t, [], t, a, msg, k);
    } else {
      var k := SumWitness(t.net.flight, live);
      more, u := FromRequest(cfg, t, [], t, a, msg, k);
    }
  }

  /** Whatever happens after `t`, `a`'s calls behave like calls of one local object until `a` is disturbed. */
  ghost predicate StaysLinearizable<S(!new)>(cfg: Config<S>, t: State<S>, a: Addr) {
    forall more, u :: Continues(cfg, t, more, u, a) ==> LinearizedSince(cfg, u.log, |t.log|, a)
  }

  /** The exact condition: in any state of any run, an idle requester is safe if and only if nothing is outstanding. */
  lemma LinearizableIffSettled<S(!new)>(cfg: Config<S>, s: State<S>, steps: seq<Step>, t: State<S>, a: Addr)
    requires Runs(cfg, s, steps, t) && a in t.phases && t.phases[a].Idle?
    ensures StaysLinearizable(cfg, t, a) <==> Outstanding(cfg, t, a) == 0
  {
    if Outstanding(cfg, t, a) == 0 {
      forall more, u | Continues(cfg, t, more, u, a) ensures LinearizedSince(cfg, u.log, |t.log|, a) {
        CalmSuffix(u.log, |t.log|, a);
        Linearizability(cfg, s, steps, t, more, u, a);
      }
    } else {
      WiredRun(cfg, s, steps, t);
      var more, u := StaleReturn(cfg, t, a, []);
      UnservedNotLinearized(cfg, u.log, |t.log|, a, []);
      var j: nat := |u.log| - 1;
      assert u.log[j].Returned? && u.log[j].who == a;
    }
  }

  /** The call that `a` began at `i` returned at `j`. */
  predicate ReturnsAt(log: seq<Event>, a: Addr, i: nat, j: nat) {
    && i < j < |log| && log[i].Sent? && log[j].Returned? && log[i].who == log[j].who == a
    && forall k :: i < k < j && log[k].who == a ==> !log[k].Sent? && !log[k].Returned? && !log[k].GaveUp?
  }

  ghost predicate EmptyCallReturns<S(!new)>(cfg: Config<S>, t: State<S>, a: Addr) {
    exists more, u, i: nat, j: nat ::
      && Continues(cfg, t, more, u, a)
      && |t.log| <= i && ReturnsAt(u.log, a, i, j) && u.log[i].msg == []
  }

  lemma LinearizedCallIsFull<S>(cfg: Config<S>, s: State<S>, steps: seq<Step>, t: State<S>, a: Addr, i: nat, j: nat)
    requires Runs(cfg, s, steps, t) && ReturnsAt(t.log, a, i, j)
    requires exists i': nat, h: nat :: Linearized(cfg, t.log, i', h, j)
    ensures t.log[i].msg != []
  {
    var i': nat, h: nat :| Linearized(cfg, t.log, i', h, j);
    FixedSizes(cfg, s, steps, t);
    assert Sized(cfg, t.log[h]);
    assert i' < i ==> i != h && (i < h || h < i);
    assert i == i';
  }

  /**
   The replier drops an empty message, yet a call that sends one can return: exactly when something of an earlier call
   is outstanding, whose answer it then returns. Otherwise it can only time out.
   */
  lemma EmptyCallReturnsIffStale<S(!new)>(cfg: Config<S>, s: State<S>, steps: seq<Step>, t: State<S>, a: Addr)
    requires Runs(cfg, s, steps, t) && a in t.phases && t.phases[a].Idle?
    ensures EmptyCallReturns(cfg, t, a) <==> Outstanding(cfg, t, a) > 0
  {
    if Outstanding(cfg, t, a) > 0 {
      WiredRun(cfg, s, steps, t);
      var more, u := StaleReturn(cfg, t, a, []);
      assert ReturnsAt(u.log, a, |u.log| - 2, |u.log| - 1);
    } else {
      LinearizableIffSettled(cfg, s, steps, t, a);
      forall more, u, i: nat, j: nat |
        Continues(cfg, t, more, u, a) && |t.log| <= i && ReturnsAt(u.log, a, i, j)
        ensures u.log[i].msg != [] {
        ExecAppend(cfg, s, steps, t, more);
        assert LinearizedSince(cfg, u.log, |t.log|, a);
        LinearizedCallIsFull(cfg, s, steps + more, u, a, i, j);
      }
    }
  }

  function Echo(): Config<()> {
    Config(0, 1, _ => 1, (_, m) => ((), m))
  }

  function Start(): State<()> {
    State(Net([], []), map[1 := Idle], Listening, (), [])
  }

  /** The state with these datagrams in flight, none waiting, and an idle replier. */
  function At(flight: seq<Packet>, phase: Phase, log: seq<Event>): State<()> {
    State(Net(flight, []), map[1 := phase], Listening, (), log)
  }

  const REQUEST := Packet(1, 0, [5])
  const REPLY := Packet(0, 1, [5])
  const HANDLED := [Took(1), Handled(1, [5], [5])]

  /** Some run reaches `t`. */
  ghost predicate Reached(t: State<()>) {
    exists steps :: Runs(Echo(), Start(), steps, t)
  }

  lemma Go(t: State<()>, step: Step) returns (t': State<()>)
    requires Reached(t) && Enabled(Echo(), t, step)
    ensures Reached(t') && t' == Apply(Echo(), t, step)
  {
    var steps :| Runs(Echo(), Start(), steps, t);
    ExecPush(Echo(), Start(), steps, t, step);
    t' := Apply(Echo(), t, step);
    assert Runs(Echo(), Start(), steps + [step], t');
  }

  /** Delivering the head of the flight. */
  lemma Arrives(p: Packet, rest: seq<Packet>, phase: Phase, log: seq<Event>)
    requires Reached(At([p] + rest, phase, log))
    ensures Reached(At(rest, phase, log).(net := Net(rest, [p])))
  {
    var t := Go(At([p] + rest, phase, log), Deliver(0));
    assert t.net == Net(rest, [p]) && t.log == log;
  }

  lemma Accepts(rest: seq<Packet>, phase: Phase, log: seq<Event>)
    requires Reached(At([REQUEST] + rest, phase, log))
    ensures Reached(At(rest, phase, log + [Took(1)]).(replier := Accepted(1, [5])))
  {
    assert Frame(1, [5]) == [5];
    Arrives(REQUEST, rest, phase, log);
    var t := Go(At(rest, phase, log).(net := Net(rest, [REQUEST])), OnceReceive);
    assert t.net == Net(rest, []);
  }

  /** The replier answers the request at the head of the flight. */
  lemma Answers(rest: seq<Packet>, phase: Phase, log: seq<Event>)
    requires Reached(At([REQUEST] + rest, phase, log))
    ensures Reached(At(rest + [REPLY], phase, log + HANDLED))
  {
    Accepts(rest, phase, log);
    var t := Go(At(rest, phase, log + [Took(1)]).(replier := Accepted(1, [5])), OnceCall);
    t := Go(t, OnceSend);
    assert t.log == log + HANDLED;
  }

  /** The requester receives the reply at the head of the flight. */
  lemma Returns(rest: seq<Packet>, msg: Message, log: seq<Event>)
    requires Reached(At([REPLY] + rest, Waiting(msg), log))
    ensures Reached(At(rest, Idle, log + [Returned(1, [5])]))
  {
    assert Frame(1, [5]) == [5];
    Arrives(REPLY, rest, Waiting(msg), log);
    var t := Go(At(rest, Waiting(msg), log).(net := Net(rest, [REPLY])), Receive(1));
    assert t.net == Net(rest, []) && t.phases == map[1 := Idle];
  }

  /** With an answer [5] left over, the requester asks [6] and gets [5]. */
  lemma AsksSix(log: seq<Event>) returns (t: State<()>)
    requires Reached(At([REPLY], Idle, log))
    ensures Reached(t)
    ensures t.log == log + [Sent(1, [6]), Returned(1, [5])] && Unserved(Echo(), t.log, |log| + 1)
  {
    t := Go(At([REPLY], Idle, log), Send(1, [6]));
    assert t == At([REPLY] + [Packet(1, 0, [6])], Waiting([6]), log + [Sent(1, [6])]);
    Returns([Packet(1, 0, [6])], [6], log + [Sent(1, [6])]);
    t := At([Packet(1, 0, [6])], Idle, log + [Sent(1, [6])] + [Returned(1, [5])]);
    UnservedNotLinearized(Echo(), t.log, |log|, 1, [6]);
  }

  lemma Starts()
    ensures Reached(Start())
  {
    assert Exec(Echo(), Start(), []) == Some(Start());
    assert Runs(Echo(), Start(), [], Start());
  }

  lemma AsksFive()
    ensures Reached(At([REQUEST], Waiting([5]), [Sent(1, [5])]))
  {
    var t := At([REQUEST], Waiting([5]), [Sent(1, [5])]);
    assert Apply(Echo(), Start(), Send(1, [5])) == t by {
      assert Start().phases[1 := Waiting([5])] == t.phases;
    }
    Starts();
    var t' := Go(Start(), Send(1, [5]));
  }

  /** Copying the only datagram in flight. */
  lemma Copied(p: Packet, phase: Phase, log: seq<Event>)
    requires Reached(At([p], phase, log))
    ensures Reached(At([p] + [p], phase, log + [CopyOf(0, p)]))
  {
    var t := Go(At([p], phase, log), Duplicate(0));
    assert t.net == Net([p] + [p], []);
  }

  /** One timeout is enough: a requester that asks [6] gets the answer to the [5] it gave up. */
  lemma TimeOutLeavesAnswer() returns (t: State<()>)
    ensures Reached(t)
    ensures t.log == [Sent(1, [5]), GaveUp(1)] + HANDLED + [Sent(1, [6]), Returned(1, [5])]
    ensures Unserved(Echo(), t.log, 5)
  {
    AsksFive();
    t := Go(At([REQUEST], Waiting([5]), [Sent(1, [5])]), TimeOut(1));
    assert t == At([REQUEST] + [], Idle, [Sent(1, [5]), GaveUp(1)]);
    Answers([], Idle, t.log);
    assert [] + [REPLY] == [REPLY];
    t := AsksSix(t.log + HANDLED);
  }

  /** Two replies to one call: the second is what the next call gets. */
  lemma SecondReply(log: seq<Event>) returns (t: State<()>)
    requires Reached(At([REPLY] + [REPLY], Waiting([5]), log))
    ensures Reached(t)
    ensures t.log == log + [Returned(1, [5])] + [Sent(1, [6]), Returned(1, [5])] && Unserved(Echo(), t.log, |log| + 2)
  {
    Returns([REPLY], [5], log);
    t := AsksSix(log + [Returned(1, [5])]);
  }

  lemma BothCopiesAnswered()
    ensures Reached(At([REPLY] + [REPLY], Waiting([5]), [Sent(1, [5])] + [RequestCopied(1)] + HANDLED + HANDLED))
  {
    AsksFive();
    Copied(REQUEST, Waiting([5]), [Sent(1, [5])]);
    var log := [Sent(1, [5])] + [CopyOf(0, REQUEST)];
    Answers([REQUEST], Waiting([5]), log);
    Answers([REPLY], Waiting([5]), log + HANDLED);
  }

  /** So is one copy of a request: both are answered ... */
  lemma RequestCopyLeavesAnswer() returns (t: State<()>)
    ensures Reached(t)
    ensures t.log == [Sent(1, [5])] + [RequestCopied(1)] + HANDLED + HANDLED
                     + [Returned(1, [5])] + [Sent(1, [6]), Returned(1, [5])]
    ensures Unserved(Echo(), t.log, 8)
  {
    BothCopiesAnswered();
    t := SecondReply([Sent(1, [5])] + [RequestCopied(1)] + HANDLED + HANDLED);
  }

  lemma ReplyCopyUnderway()
    ensures Reached(At([REPLY] + [REPLY], Waiting([5]), [Sent(1, [5])] + HANDLED + [ReplyCopied(1)]))
  {
    AsksFive();
    assert [REQUEST] + [] == [REQUEST] && [] + [REPLY] == [REPLY];
    Answers([], Waiting([5]), [Sent(1, [5])]);
    Copied(REPLY, Waiting([5]), [Sent(1, [5])] + HANDLED);
  }

  /** ... and one copy of a reply: it is received twice. */
  lemma ReplyCopyLeavesAnswer() returns (t: State<()>)
    ensures Reached(t)
    ensures t.log == [Sent(1, [5])] + HANDLED + [ReplyCopied(1)]
                     + [Returned(1, [5])] + [Sent(1, [6]), Returned(1, [5])]
    ensures Unserved(Echo(), t.log, 6)
  {
    ReplyCopyUnderway();
    t := SecondReply([Sent(1, [5])] + HANDLED + [ReplyCopied(1)]);
  }
}
