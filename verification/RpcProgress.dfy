/**
 Progress: requesters with finitely many calls to make, against a replier that calls `once` that many times, over a
 network that neither loses nor copies and with no receive timeouts.
 */
module RpcProgress {
  import opened Sequences
  import opened Datagrams
  import opened RpcModel
  import opened RpcLedger
  import opened RpcHostile
  import opened RpcLinear

  datatype Call = Call(who: Addr, msg: Message)

  /** A protocol state, the calls still to be made (in program order for each caller), and the `once` calls left. */
  datatype Work<S> = Work(s: State<S>, todo: seq<Call>, onces: nat)

  /** Position of `a`'s next call, or the length when it has none left. */
  function NextCall(todo: seq<Call>, a: Addr): (k: nat)
    ensures k <= |todo| && (k < |todo| ==> todo[k].who == a)
    ensures forall j :: 0 <= j < k ==> todo[j].who != a
  {
    FirstWhere(todo, (c: Call) => c.who == a)
  }

  predicate CanDo<S>(cfg: Config<S>, w: Work<S>, step: Step) {
    && Enabled(cfg, w.s, step)
    && match step
       case Send(a, msg) => var k := NextCall(w.todo, a); k < |w.todo| && w.todo[k].msg == msg
       case OnceReceive => w.onces > 0
       case Receive(_) => true
       case OnceCall => true
       case OnceSend => true
       case Deliver(_) => true
       case _ => false
  }

  function Do<S>(cfg: Config<S>, w: Work<S>, step: Step): Work<S>
    requires CanDo(cfg, w, step)
  {
    Work(Apply(cfg, w.s, step),
         if step.Send? then RemoveAt(w.todo, NextCall(w.todo, step.a)) else w.todo,
         if step.OnceReceive? then w.onces - 1 else w.onces)
  }

  function DoAll<S>(cfg: Config<S>, w: Work<S>, steps: seq<Step>): Option<Work<S>> {
    if steps == [] then Some(w)
    else
      match DoAll(cfg, w, steps[..|steps| - 1])
      case None => None
      case Some(v) => if CanDo(cfg, v, steps[|steps| - 1]) then Some(Do(cfg, v, steps[|steps| - 1])) else None
  }

  /** N calls, none with an empty message, for N calls of `once`. */
  ghost predicate Ready<S>(cfg: Config<S>, w: Work<S>) {
    && Init(cfg, w.s)
    && cfg.querySize > 0
    && w.onces == |w.todo|
    && forall k :: 0 <= k < |w.todo| ==> w.todo[k].who in w.s.phases && w.todo[k].msg != []
  }

  ghost predicate Works<S>(cfg: Config<S>, w: Work<S>, steps: seq<Step>, v: Work<S>) {
    Ready(cfg, w) && DoAll(cfg, w, steps) == Some(v)
  }

  lemma WorkPrefix<S>(cfg: Config<S>, w: Work<S>, steps: seq<Step>, v: Work<S>) returns (u: Work<S>)
    requires Works(cfg, w, steps, v) && steps != []
    ensures Works(cfg, w, steps[..|steps| - 1], u)
    ensures CanDo(cfg, u, steps[|steps| - 1]) && v == Do(cfg, u, steps[|steps| - 1])
  {
    u := DoAll(cfg, w, steps[..|steps| - 1]).value;
  }

  /** A scheduled run is a run of the protocol, so everything proved of runs holds of it. */
  lemma {:induction false} WorkIsRun<S>(cfg: Config<S>, w: Work<S>, steps: seq<Step>, v: Work<S>)
    requires Works(cfg, w, steps, v)
    ensures Runs(cfg, w.s, steps, v.s)
  {
    if steps != [] {
      var u := WorkPrefix(cfg, w, steps, v);
      WorkIsRun(cfg, w, steps[..|steps| - 1], u);
    }
  }

  function ToHost(host: Addr): Packet -> nat {
    (p: Packet) => if p.dst == host then 1 else 0
  }

  function FromHost(host: Addr): Packet -> nat {
    (p: Packet) => if p.dst == host then 0 else 1
  }

  function By(a: Addr): Call -> nat {
    (c: Call) => if c.who == a then 1 else 0
  }

  function Busy(r: Replier): nat {
    match r
    case Listening => 0
    case Accepted(_, _) => 4
    case Answered(_, _) => 3
  }

  /** Steps still to be taken: a call takes seven, and each place a datagram can be in is one step further on. */
  function Remaining<S>(cfg: Config<S>, w: Work<S>): nat {
    7 * |w.todo| + 5 * Carried(w.s.net, ToHost(cfg.host)) + Carried(w.s.net, FromHost(cfg.host)) + |w.s.net.flight|
    + Busy(w.s.replier)
  }

  predicate Clean(log: seq<Event>) {
    forall i :: 0 <= i < |log| ==> log[i].Sent? || log[i].Took? || log[i].Handled? || log[i].Returned?
  }

  lemma {:induction false} CleanTally(log: seq<Event>, k: Kind, a: Addr)
    requires Clean(log) && k != KSent && k != KTook && k != KHandled && k != KReturned
    ensures Tally(log, k, a) == 0
  {
    if log != [] {
      CleanTally(log[..|log| - 1], k, a);
    }
  }

  /** A datagram for the host is not empty. */
  function Full(host: Addr): Packet -> bool {
    (p: Packet) => p.dst == host ==> p.data != []
  }

  predicate AllFull<S>(cfg: Config<S>, w: Work<S>) {
    && cfg.querySize > 0
    && (forall k :: 0 <= k < |w.todo| ==> w.todo[k].who in w.s.phases && w.todo[k].msg != [])
    && Everywhere(w.s.net, Full(cfg.host))
  }

  /** What every scheduled run keeps besides its step count: a `once` is left for every request not yet taken. */
  predicate OnTrack<S>(cfg: Config<S>, w: Work<S>) {
    && AllFull(cfg, w)
    && Clean(w.s.log)
    && w.onces == |w.todo| + Carried(w.s.net, ToHost(cfg.host))
  }

  /** A full-size, non-empty request is never dropped. */
  lemma NotDropped<S>(cfg: Config<S>, w: Work<S>)
    requires AllFull(cfg, w) && HasMail(w.s.net, cfg.host)
    ensures Accept(cfg.querySize, Mail(w.s.net, cfg.host)).Accepted?
  {
    EverywhereTaken(w.s.net, cfg.host, Full(cfg.host));
    FrameShape(cfg.querySize, Mail(w.s.net, cfg.host).data);
  }

  lemma AllFullStep<S>(cfg: Config<S>, w: Work<S>, step: Step)
    requires AllFull(cfg, w) && Wired(cfg, w.s) && CanDo(cfg, w, step)
    ensures AllFull(cfg, Do(cfg, w, step))
  {
    EverywhereStep(cfg, w.s, step, Full(cfg.host));
    assert PhasesAfter(w.s, step).Keys == w.s.phases.Keys;
  }

  lemma CleanStep<S>(cfg: Config<S>, w: Work<S>, step: Step)
    requires AllFull(cfg, w) && CanDo(cfg, w, step) && Clean(w.s.log)
    ensures Clean(Do(cfg, w, step).s.log)
  {
    if step.OnceReceive? {
      NotDropped(cfg, w);
    }
    assert Clean(Recorded(cfg, w.s, step));
  }

  lemma OnTrackStep<S>(cfg: Config<S>, w: Work<S>, step: Step)
    requires OnTrack(cfg, w) && Wired(cfg, w.s) && CanDo(cfg, w, step)
    ensures OnTrack(cfg, Do(cfg, w, step))
  {
    AllFullStep(cfg, w, step);
    CleanStep(cfg, w, step);
    CarriedStep(cfg, w.s, step, ToHost(cfg.host));
  }

  lemma StepWeighs<S>(cfg: Config<S>, w: Work<S>, step: Step)
    requires AllFull(cfg, w) && Wired(cfg, w.s) && CanDo(cfg, w, step)
    ensures var v := Do(cfg, w, step);
            7 * |v.todo| + 5 * Delta(cfg, w.s, step, ToHost(cfg.host)) + Delta(cfg, w.s, step, FromHost(cfg.host))
            + |v.s.net.flight| + Busy(v.s.replier) + 1
            == 7 * |w.todo| + |w.s.net.flight| + Busy(w.s.replier)
  {
    if step.OnceReceive? {
      NotDropped(cfg, w);
    }
  }

  /** Every step brings the end exactly one step nearer. */
  lemma RemainingStep<S>(cfg: Config<S>, w: Work<S>, step: Step)
    requires AllFull(cfg, w) && Wired(cfg, w.s) && CanDo(cfg, w, step)
    ensures Remaining(cfg, Do(cfg, w, step)) + 1 == Remaining(cfg, w)
  {
    StepWeighs(cfg, w, step);
    CarriedStep(cfg, w.s, step, ToHost(cfg.host));
    CarriedStep(cfg, w.s, step, FromHost(cfg.host));
  }

  lemma {:induction false} WorkRun<S>(cfg: Config<S>, w: Work<S>, steps: seq<Step>, v: Work<S>)
    requires Works(cfg, w, steps, v)
    ensures OnTrack(cfg, v)
    ensures |steps| + Remaining(cfg, v) == 7 * |w.todo|
  {
    if steps != [] {
      var u := WorkPrefix(cfg, w, steps, v);
      WorkRun(cfg, w, steps[..|steps| - 1], u);
      WorkIsRun(cfg, w, steps[..|steps| - 1], u);
      WiredRun(cfg, w.s, steps[..|steps| - 1], u.s);
      OnTrackStep(cfg, u, steps[|steps| - 1]);
      RemainingStep(cfg, u, steps[|steps| - 1]);
    }
  }

  lemma CallsCountedStep<S>(cfg: Config<S>, w: Work<S>, step: Step, a: Addr)
    requires CanDo(cfg, w, step)
    ensures Counts(Recorded(cfg, w.s, step), KSent, a) + Sum(Do(cfg, w, step).todo, By(a)) == Sum(w.todo, By(a))
  {
    if step.Send? {
      var k := NextCall(w.todo, step.a);
      SumRemove(w.todo, k, By(a));
      assert By(a)(w.todo[k]) == if step.a == a then 1 else 0;
    }
  }

  lemma {:induction false} CallsCounted<S>(cfg: Config<S>, w: Work<S>, steps: seq<Step>, v: Work<S>, a: Addr)
    requires Works(cfg, w, steps, v)
    ensures Tally(v.s.log, KSent, a) + Sum(v.todo, By(a)) == Sum(w.todo, By(a))
  {
    if steps != [] {
      var step := steps[|steps| - 1];
      var u := WorkPrefix(cfg, w, steps, v);
      CallsCounted(cfg, w, steps[..|steps| - 1], u, a);
      CallsCountedStep(cfg, u, step, a);
      TallyPush(u.s.log, Recorded(cfg, u.s, step), KSent, a);
    }
  }

  /** On a scheduled run every requester that waits has exactly one datagram somewhere, and no other has any. */
  lemma TokenPresent<S>(cfg: Config<S>, w: Work<S>, steps: seq<Step>, v: Work<S>, a: Addr)
    requires Works(cfg, w, steps, v)
    ensures Tokens(cfg, v.s, a) == Open(v.s.phases, a)
    ensures Tally(v.s.log, KSent, a) == Tally(v.s.log, KReturned, a) + Open(v.s.phases, a)
  {
    WorkRun(cfg, w, steps, v);
    WorkIsRun(cfg, w, steps, v);
    Conservation(cfg, w.s, steps, v.s, a);
    CleanTally(v.s.log, KRequestCopied, a);
    CleanTally(v.s.log, KReplyCopied, a);
    CleanTally(v.s.log, KRequestLost, a);
    CleanTally(v.s.log, KReplyLost, a);
    CleanTally(v.s.log, KDropped, a);
    CleanTally(v.s.log, KGaveUp, a);
  }

  /** No deadlock: until every step has been taken, some step can be. */
  lemma NoDeadlock<S>(cfg: Config<S>, w: Work<S>, steps: seq<Step>, v: Work<S>) returns (step: Step)
    requires Works(cfg, w, steps, v) && |steps| < 7 * |w.todo|
    ensures CanDo(cfg, v, step)
  {
    WorkRun(cfg, w, steps, v);
    WorkIsRun(cfg, w, steps, v);
    WiredRun(cfg, w.s, steps, v.s);
    var net := v.s.net;
    if v.s.replier.Accepted? {
      step := OnceCall;
    } else if v.s.replier.Answered? {
      step := OnceSend;
    } else if net.flight != [] {
      step := Deliver(0);
    } else if net.arrived != [] {
      var b := net.arrived[0].dst;
      if b == cfg.host {
        SumCovers(net.arrived, 0, ToHost(cfg.host));
        step := OnceReceive;
      } else {
        SumCovers(net.arrived, 0, ReplyTo(cfg.host, b));
        TokenPresent(cfg, w, steps, v, b);
        step := Receive(b);
      }
    } else {
      var a := v.todo[0].who;
      TokenPresent(cfg, w, steps, v, a);
      step := Send(a, v.todo[0].msg);
    }
  }

  /**
   Progress. A run of N calls against N calls of `once` can take a step until it has taken 7N, never takes more, and
   has then answered every call of every requester, with no call pending, no datagram left and no `once` outstanding.
   */
  lemma Progress<S>(cfg: Config<S>, w: Work<S>, steps: seq<Step>, v: Work<S>)
    requires Works(cfg, w, steps, v)
    ensures |steps| <= 7 * |w.todo|
    ensures |steps| < 7 * |w.todo| <==> exists step :: CanDo(cfg, v, step)
    ensures |steps| == 7 * |w.todo| ==>
              && v.todo == [] && v.onces == 0 && v.s.net == Net([], []) && v.s.replier == Listening
              && forall a :: Open(v.s.phases, a) == 0 && Tally(v.s.log, KReturned, a) == Sum(w.todo, By(a))
  {
    WorkRun(cfg, w, steps, v);
    if |steps| < 7 * |w.todo| {
      var step := NoDeadlock(cfg, w, steps, v);
    } else {
      forall step | CanDo(cfg, v, step) ensures false {
        WorkIsRun(cfg, w, steps, v);
        WiredRun(cfg, w.s, steps, v.s);
        RemainingStep(cfg, v, step);
      }
      SumSplits(v.s.net.flight, cfg.host);
      SumSplits(v.s.net.arrived, cfg.host);
      forall a ensures Open(v.s.phases, a) == 0 && Tally(v.s.log, KReturned, a) == Sum(w.todo, By(a)) {
        TokenPresent(cfg, w, steps, v, a);
        CallsCounted(cfg, w, steps, v, a);
      }
    }
  }

  /** And every one of those answers is the right one, from a sequential run of the callback. */
  lemma AnsweredCorrectly<S>(cfg: Config<S>, w: Work<S>, steps: seq<Step>, v: Work<S>, a: Addr)
    requires Works(cfg, w, steps, v) && |steps| == 7 * |w.todo| && a in v.s.phases
    ensures Replay(cfg, w.s.memory, v.s.log) == Some(v.s.memory)
    ensures Tally(v.s.log, KReturned, a) == Sum(w.todo, By(a)) && Tally(v.s.log, KGaveUp, a) == 0
    ensures LinearizedSince(cfg, v.s.log, 0, a)
  {
    Progress(cfg, w, steps, v);
    WorkRun(cfg, w, steps, v);
    WorkIsRun(cfg, w, steps, v);
    CleanTally(v.s.log, KRequestCopied, a);
    CleanTally(v.s.log, KReplyCopied, a);
    CleanTally(v.s.log, KGaveUp, a);
    LinearizableRun(cfg, w.s, steps, v.s, a);
  }

  lemma {:induction false} SumSplits(s: seq<Packet>, host: Addr)
    ensures Sum(s, ToHost(host)) + Sum(s, FromHost(host)) == |s|
  {
    if s != [] {
      SumSplits(s[..|s| - 1], host);
    }
  }
}
