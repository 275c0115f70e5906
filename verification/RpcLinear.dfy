/**
 Linearizability: from any moment at which nothing of a requester's is outstanding, and until one of its datagrams is
 copied or one of its receives times out, its calls behave like calls of one local object.
 */
module RpcLinear {
  import opened Sequences
  import opened Datagrams
  import opened RpcModel
  import opened RpcLedger
  import opened RpcHostile

  /** A requester as an observer of the history sees it; `Broken` once events stop following the call discipline. */
  datatype View = Ready | Asked(msg: Message) | Answer(msg: Message, ans: Message) | Broken

  function Observe<S>(cfg: Config<S>, v: View, e: Event, a: Addr): View {
    if e.who != a then v
    else
      match e
      case Sent(_, msg) => if v.Ready? then Asked(msg) else Broken
      case Handled(_, req, ans) =>
        if v.Asked? && req == Frame(cfg.querySize, v.msg) then Answer(v.msg, ans) else Broken
      case Returned(_, result) =>
        if v.Answer? && result == Frame(cfg.replySizes(a), v.ans) then Ready else Broken
      case GaveUp(_) => Broken
      case _ => v
  }

  /**
   `a`'s part of the history, read from the start. It avoids `Broken` exactly when it is a sequence of complete calls
   (sent, handled once, returned with the framed answer), the last of which may be unfinished.
   */
  function Watch<S>(cfg: Config<S>, log: seq<Event>, a: Addr): View {
    if log == [] then Ready else Observe(cfg, Watch(cfg, log[..|log| - 1], a), log[|log| - 1], a)
  }

  lemma WatchPush<S>(cfg: Config<S>, log: seq<Event>, es: seq<Event>, a: Addr)
    requires |es| <= 1
    ensures Watch(cfg, log + es, a)
            == if es == [] then Watch(cfg, log, a) else Observe(cfg, Watch(cfg, log, a), es[0], a)
  {
    if es == [] {
      assert log + es == log;
    } else {
      assert (log + es)[..|log|] == log;
    }
  }

  /** A request of `a`'s that `once` would accept. */
  function LiveRequestOf<S>(cfg: Config<S>, a: Addr): Packet -> nat {
    (p: Packet) => if p.dst == cfg.host && p.src == a && Accept(cfg.querySize, p).Accepted? then 1 else 0
  }

  /** How many answers `a` may still be sent or hold: acceptable requests, the one in the replier's hands, replies. */
  function Outstanding<S>(cfg: Config<S>, s: State<S>, a: Addr): nat {
    Carried(s.net, LiveRequestOf(cfg, a)) + Pending(s.replier, a) + Replies(cfg.host, s.net, a)
  }

  /** Nothing of an earlier call of `a`'s can be answered or received any more. */
  predicate Settled<S>(cfg: Config<S>, s: State<S>, a: Addr) {
    a in s.phases && s.phases[a].Idle? && Outstanding(cfg, s, a) == 0
  }

  /** An acceptable request of `a`'s, or a reply to it, fits where `a`'s current call stands. */
  function Fits<S>(cfg: Config<S>, v: View, a: Addr): Packet -> bool {
    (p: Packet) =>
      && (p.dst == cfg.host && p.src == a && Accept(cfg.querySize, p).Accepted? ==> v == Asked(p.data))
      && (p.dst == a && p.dst != cfg.host ==> v.Answer? && v.ans == p.data)
  }

  predicate PhaseFits(phases: map<Addr, Phase>, v: View, a: Addr) {
    if a in phases && phases[a].Waiting? then (v.Asked? || v.Answer?) && v.msg == phases[a].msg else v == Ready
  }

  predicate ReplierFits<S>(cfg: Config<S>, r: Replier, v: View, a: Addr) {
    && (r.Accepted? && r.to == a ==> v.Asked? && r.req == Frame(cfg.querySize, v.msg))
    && (r.Answered? && r.to == a ==> v.Answer? && v.ans == r.ans)
  }

  /** Everything there is of `a`'s agrees with its history. */
  predicate OnCourse<S>(cfg: Config<S>, s: State<S>, a: Addr) {
    var v := Watch(cfg, s.log, a);
    PhaseFits(s.phases, v, a) && ReplierFits(cfg, s.replier, v, a) && Everywhere(s.net, Fits(cfg, v, a))
  }

  /** With nothing of `a` outstanding in the network, the network fits any view of `a`. */
  lemma NoTokens<S>(cfg: Config<S>, net: Net, a: Addr, v: View)
    requires Carried(net, LiveRequestOf(cfg, a)) == Replies(cfg.host, net, a) == 0
    ensures Everywhere(net, Fits(cfg, v, a))
  {
    var f, g := LiveRequestOf(cfg, a), ReplyTo(cfg.host, a);
    forall k | 0 <= k < |net.flight| ensures Fits(cfg, v, a)(net.flight[k]) {
      SumCovers(net.flight, k, f);
      SumCovers(net.flight, k, g);
    }
    forall k | 0 <= k < |net.arrived| ensures Fits(cfg, v, a)(net.arrived[k]) {
      SumCovers(net.arrived, k, f);
      SumCovers(net.arrived, k, g);
    }
  }

  /** `a` has at most one answer outstanding, and none unless it waits. */
  predicate OneToken<S>(cfg: Config<S>, s: State<S>, a: Addr) {
    Outstanding(cfg, s, a) <= Open(s.phases, a)
  }

  /** What a step adds to `a`'s outstanding answers it adds to `a`'s open calls, if it copies nothing of `a`'s. */
  lemma StepAccountsOutstanding<S>(cfg: Config<S>, s: State<S>, step: Step, a: Addr)
    requires Wired(cfg, s) && Enabled(cfg, s, step) && a in s.phases && step != TimeOut(a)
    requires step.Duplicate? ==> CopyOf(cfg.host, s.net.flight[step.k]).who != a
    ensures Delta(cfg, s, step, LiveRequestOf(cfg, a)) + Delta(cfg, s, step, ReplyTo(cfg.host, a))
            + Pending(ReplierAfter(cfg, s, step), a) - Pending(s.replier, a)
            <= Open(PhasesAfter(s, step), a) - Open(s.phases, a)
  {
    if step.OnceReceive? {
      EverywhereTaken(s.net, cfg.host, WellAddressed(cfg.host, s.phases.Keys));
    }
  }

  lemma OneTokenStep<S>(cfg: Config<S>, s: State<S>, step: Step, a: Addr)
    requires Wired(cfg, s) && Enabled(cfg, s, step) && a in s.phases && OneToken(cfg, s, a) && step != TimeOut(a)
    requires step.Duplicate? ==> CopyOf(cfg.host, s.net.flight[step.k]).who != a
    ensures OneToken(cfg, Apply(cfg, s, step), a)
  {
    CarriedStep(cfg, s, step, LiveRequestOf(cfg, a));
    CarriedStep(cfg, s, step, ReplyTo(cfg.host, a));
    StepAccountsOutstanding(cfg, s, step, a);
  }

  /** The steps that record nothing of `a`'s calls. */
  lemma OnCourseBystander<S>(cfg: Config<S>, s: State<S>, step: Step, a: Addr)
    requires Wired(cfg, s) && Enabled(cfg, s, step) && OnCourse(cfg, s, a)
    requires step != Receive(a) && step != TimeOut(a)
    requires step.Send? ==> step.a != a
    requires step.OnceCall? ==> s.replier.to != a
    ensures OnCourse(cfg, Apply(cfg, s, step), a)
  {
    var v := Watch(cfg, s.log, a);
    WatchPush(cfg, s.log, Recorded(cfg, s, step), a);
    EverywhereStep(cfg, s, step, Fits(cfg, v, a));
    if step.OnceReceive? {
      EverywhereTaken(s.net, cfg.host, Fits(cfg, v, a));
    }
  }

  lemma OnCourseSend<S>(cfg: Config<S>, s: State<S>, a: Addr, msg: Message)
    requires Wired(cfg, s) && Enabled(cfg, s, Send(a, msg)) && OnCourse(cfg, s, a) && OneToken(cfg, s, a)
    ensures OnCourse(cfg, Apply(cfg, s, Send(a, msg)), a)
  {
    WatchPush(cfg, s.log, [Sent(a, msg)], a);
    NoTokens(cfg, s.net, a, Asked(msg));
    EverywherePosted(s.net, Packet(a, cfg.host, msg), Fits(cfg, Asked(msg), a));
  }

  lemma OnCourseReceive<S>(cfg: Config<S>, s: State<S>, a: Addr)
    requires Wired(cfg, s) && Enabled(cfg, s, Receive(a)) && OnCourse(cfg, s, a)
    requires OneToken(cfg, Apply(cfg, s, Receive(a)), a)
    ensures OnCourse(cfg, Apply(cfg, s, Receive(a)), a)
  {
    var p := Mail(s.net, a);
    WatchPush(cfg, s.log, [Returned(a, Frame(cfg.replySizes(a), p.data))], a);
    EverywhereTaken(s.net, a, Fits(cfg, Watch(cfg, s.log, a), a));
    NoTokens(cfg, Taken(s.net, a), a, Ready);
  }

  lemma OnCourseCall<S>(cfg: Config<S>, s: State<S>, a: Addr)
    requires Wired(cfg, s) && Enabled(cfg, s, OnceCall) && OnCourse(cfg, s, a) && OneToken(cfg, s, a)
    requires s.replier.to == a
    ensures OnCourse(cfg, Apply(cfg, s, OnceCall), a)
  {
    var es := Recorded(cfg, s, OnceCall);
    WatchPush(cfg, s.log, es, a);
    NoTokens(cfg, s.net, a, Watch(cfg, s.log + es, a));
  }

  /** At most one token before the step and after it is all the step needs to keep `a` on course. */
  lemma OnCourseStep<S>(cfg: Config<S>, s: State<S>, step: Step, a: Addr)
    requires Wired(cfg, s) && Enabled(cfg, s, step) && step != TimeOut(a)
    requires OnCourse(cfg, s, a) && OneToken(cfg, s, a) && OneToken(cfg, Apply(cfg, s, step), a)
    ensures OnCourse(cfg, Apply(cfg, s, step), a)
  {
    if step.Send? && step.a == a {
      OnCourseSend(cfg, s, a, step.msg);
    } else if step == Receive(a) {
      OnCourseReceive(cfg, s, a);
    } else if step.OnceCall? && s.replier.to == a {
      OnCourseCall(cfg, s, a);
    } else {
      OnCourseBystander(cfg, s, step, a);
    }
  }

  lemma OnCourseNext<S>(cfg: Config<S>, s: State<S>, step: Step, a: Addr)
    requires Wired(cfg, s) && Enabled(cfg, s, step) && a in s.phases && OnCourse(cfg, s, a) && OneToken(cfg, s, a)
    requires Undisturbed(s.log + Recorded(cfg, s, step), a)
    ensures OnCourse(cfg, Apply(cfg, s, step), a) && OneToken(cfg, Apply(cfg, s, step), a)
  {
    UndisturbedBefore(s.log, Recorded(cfg, s, step), a);
    OneTokenStep(cfg, s, step, a);
    OnCourseStep(cfg, s, step, a);
  }

  /** The history starts with nothing of `a`'s outstanding. */
  predicate Begins<S>(cfg: Config<S>, s: State<S>, a: Addr) {
    Wired(cfg, s) && s.log == [] && Settled(cfg, s, a)
  }

  lemma {:induction false} OnCourseRun<S>(cfg: Config<S>, s: State<S>, steps: seq<Step>, t: State<S>, a: Addr)
    requires Begins(cfg, s, a) && Exec(cfg, s, steps) == Some(t) && Undisturbed(t.log, a)
    ensures OnCourse(cfg, t, a) && OneToken(cfg, t, a)
  {
    if steps == [] {
      NoTokens(cfg, s.net, a, Ready);
    } else {
      var step := steps[|steps| - 1];
      var r := Exec(cfg, s, steps[..|steps| - 1]).value;
      WiredExec(cfg, s, steps[..|steps| - 1], r);
      UndisturbedBefore(r.log, Recorded(cfg, r, step), a);
      OnCourseRun(cfg, s, steps[..|steps| - 1], r, a);
      OnCourseNext(cfg, r, step, a);
    }
  }

  /** Nothing happens to `a`'s calls strictly between `lo` and `hi`. */
  predicate Quiet(log: seq<Event>, a: Addr, lo: nat, hi: nat) {
    forall j :: lo < j < hi && j < |log| && log[j].who == a ==>
                  !log[j].Sent? && !log[j].Handled? && !log[j].Returned? && !log[j].GaveUp?
  }

  /** The call that returns at `j` was sent at `i` and handled, exactly once, at `h`. */
  predicate Linearized<S>(cfg: Config<S>, log: seq<Event>, i: nat, h: nat, j: nat) {
    && i < h < j < |log|
    && log[i].Sent? && log[h].Handled? && log[j].Returned?
    && log[i].who == log[h].who == log[j].who
    && log[h].req == Frame(cfg.querySize, log[i].msg)
    && log[j].result == Frame(cfg.replySizes(log[j].who), log[h].ans)
    && Quiet(log, log[j].who, i, h) && Quiet(log, log[j].who, h, j)
  }

  /** An unbroken history that has `a` asked, or answered, contains the events that brought it there. */
  lemma {:induction false} ViewOrigin<S>(cfg: Config<S>, log: seq<Event>, a: Addr) returns (i: nat, h: nat)
    requires Watch(cfg, log, a).Asked? || Watch(cfg, log, a).Answer?
    ensures i < |log| && log[i] == Sent(a, Watch(cfg, log, a).msg)
    ensures Watch(cfg, log, a).Asked? ==> Quiet(log, a, i, |log|)
    ensures Watch(cfg, log, a).Answer? ==>
              && i < h < |log| && Quiet(log, a, i, h) && Quiet(log, a, h, |log|)
              && log[h] == Handled(a, Frame(cfg.querySize, log[i].msg), Watch(cfg, log, a).ans)
  {
    var n := |log| - 1;
    var before, e := log[..n], log[n];
    if e.Sent? && e.who == a {
      i, h := n, 0;
    } else {
      i, h := ViewOrigin(cfg, before, a);
      assert forall k :: 0 <= k < n ==> before[k] == log[k];
      if e.Handled? && e.who == a {
        h := n;
      }
    }
  }

  lemma {:induction false} WatchPrefix<S>(cfg: Config<S>, log: seq<Event>, a: Addr, n: nat)
    requires Watch(cfg, log, a) != Broken && n <= |log|
    ensures Watch(cfg, log[..n], a) != Broken
  {
    if n < |log| {
      WatchPrefix(cfg, log[..|log| - 1], a, n);
      assert log[..|log| - 1][..n] == log[..n];
    } else {
      assert log[..n] == log;
    }
  }

  lemma ReturnLinearized<S>(cfg: Config<S>, log: seq<Event>, a: Addr, j: nat) returns (i: nat, h: nat)
    requires Watch(cfg, log, a) != Broken && j < |log| && log[j].Returned? && log[j].who == a
    ensures Linearized(cfg, log, i, h, j)
  {
    WatchPrefix(cfg, log, a, j + 1);
    assert log[..j + 1][..j] == log[..j];
    i, h := ViewOrigin(cfg, log[..j], a);
  }

  lemma LinearizedShift<S>(cfg: Config<S>, log: seq<Event>, n: nat, i: nat, h: nat, j: nat)
    requires n <= |log| && Linearized(cfg, log[n..], i, h, j)
    ensures Linearized(cfg, log, i + n, h + n, j + n)
  {
    var a := log[j + n].who;
    forall k | 0 <= k < |log| - n ensures log[n..][k] == log[k + n] {
    }
    assert forall k :: i + n < k < h + n && log[k].who == a ==> log[n..][k - n] == log[k];
    assert forall k :: h + n < k < j + n && log[k].who == a ==> log[n..][k - n] == log[k];
  }

  /** From position `n` on, every result `a` got is the framed answer of the one handling of its own call. */
  ghost predicate LinearizedSince<S>(cfg: Config<S>, log: seq<Event>, n: nat, a: Addr) {
    forall j: nat :: n <= j < |log| && log[j].Returned? && log[j].who == a ==>
                       exists i: nat, h: nat :: n <= i && Linearized(cfg, log, i, h, j)
  }

  lemma LinearizedSuffix<S>(cfg: Config<S>, log: seq<Event>, n: nat, a: Addr)
    requires n <= |log| && Watch(cfg, log[n..], a) != Broken
    ensures LinearizedSince(cfg, log, n, a)
  {
    forall j: nat | n <= j < |log| && log[j].Returned? && log[j].who == a
      ensures exists i: nat, h: nat :: n <= i && Linearized(cfg, log, i, h, j) {
      assert log[n..][j - n] == log[j];
      var i, h := ReturnLinearized(cfg, log[n..], a, j - n);
      LinearizedShift(cfg, log, n, i, h, j - n);
      assert n <= i + n;
    }
  }

  /**
   Linearizability. Take any state of any run in which requester `a` is idle and nothing of its earlier calls is
   outstanding, whatever was lost, copied, reordered or timed out before. From there on, and for as long as no datagram
   of `a`'s is copied and no receive of `a`'s times out, `a` sees a sequence of calls, each handled once at most; every
   result is the framed answer of the one handling between that call's send and its return; and all handlings, in the
   order `once` made them, are a sequential run of the callback. What befalls other requesters does not matter.
   */
  lemma Linearizability<S>(cfg: Config<S>, s: State<S>, steps: seq<Step>, t: State<S>, more: seq<Step>, u: State<S>,
                           a: Addr)
    requires Runs(cfg, s, steps, t) && Settled(cfg, t, a)
    requires Exec(cfg, t, more) == Some(u) && t.log <= u.log && Undisturbed(u.log[|t.log|..], a)
    ensures Replay(cfg, t.memory, u.log[|t.log|..]) == Some(u.memory)
    ensures Watch(cfg, u.log[|t.log|..], a) != Broken
    ensures LinearizedSince(cfg, u.log, |t.log|, a)
  {
    var n := |t.log|;
    var t', u' := t.(log := []), u.(log := u.log[n..]);
    ExecRestart(cfg, t, more, u);
    WiredRun(cfg, s, steps, t);
    ReplayExec(cfg, t', more, u');
    OnCourseRun(cfg, t', more, u', a);
    LinearizedSuffix(cfg, u.log, n, a);
  }

  /** A run is linearizable from its start for every requester that is never disturbed. */
  lemma LinearizableRun<S>(cfg: Config<S>, s: State<S>, steps: seq<Step>, t: State<S>, a: Addr)
    requires Runs(cfg, s, steps, t) && a in t.phases && Undisturbed(t.log, a)
    ensures Replay(cfg, s.memory, t.log) == Some(t.memory)
    ensures LinearizedSince(cfg, t.log, 0, a)
  {
    WiredRun(cfg, s, steps, t);
    assert Exec(cfg, s, []) == Some(s) && t.log[0..] == t.log;
    Linearizability(cfg, s, [], s, steps, t, a);
  }

  /**
   Two returns never share a handling, calls of one requester do not overlap, and the order of the handlings respects
   real time: a call that returned before another began was handled before it.
   */
  lemma HandlingsDistinct<S>(cfg: Config<S>, log: seq<Event>, i: nat, h: nat, j: nat, i': nat, h': nat, j': nat)
    requires Linearized(cfg, log, i, h, j) && Linearized(cfg, log, i', h', j') && j < j'
    ensures h != h'
    ensures log[j].who == log[j'].who ==> j < i'
    ensures j < i' ==> h < h'
  {
  }
}
