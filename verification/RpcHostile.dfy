/** What a result means when the network may lose, reorder and copy datagrams, and any receive may time out. */
module RpcHostile {
  import opened Sequences
  import opened Datagrams
  import opened RpcModel

  /** The callback handled, at `log[h]`, what `a` had sent at `log[i]`, and answered `ans`. */
  predicate Served<S>(cfg: Config<S>, log: seq<Event>, i: nat, h: nat, a: Addr, ans: Message) {
    && i < h < |log|
    && log[i].Sent? && log[i].who == a
    && log[h] == Handled(a, Frame(cfg.querySize, log[i].msg), ans)
  }

  ghost predicate AnsweredTo<S>(cfg: Config<S>, log: seq<Event>, a: Addr, ans: Message) {
    exists i: nat, h: nat :: Served(cfg, log, i, h, a, ans)
  }

  ghost predicate AskedFor<S>(cfg: Config<S>, log: seq<Event>, a: Addr, req: Message) {
    exists i :: 0 <= i < |log| && log[i].Sent? && log[i].who == a && req == Frame(cfg.querySize, log[i].msg)
  }

  lemma HistoryGrows<S>(cfg: Config<S>, log: seq<Event>, es: seq<Event>)
    ensures forall a, ans :: AnsweredTo(cfg, log, a, ans) ==> AnsweredTo(cfg, log + es, a, ans)
    ensures forall a, req :: AskedFor(cfg, log, a, req) ==> AskedFor(cfg, log + es, a, req)
  {
    forall a, ans | AnsweredTo(cfg, log, a, ans) ensures AnsweredTo(cfg, log + es, a, ans) {
      var i: nat, h: nat :| Served(cfg, log, i, h, a, ans);
      assert Served(cfg, log + es, i, h, a, ans);
    }
    forall a, req | AskedFor(cfg, log, a, req) ensures AskedFor(cfg, log + es, a, req) {
      var i :| 0 <= i < |log| && log[i].Sent? && log[i].who == a && req == Frame(cfg.querySize, log[i].msg);
      assert (log + es)[i] == log[i];
    }
  }

  /** A datagram that can be traced back through the history. */
  ghost function Explained<S>(cfg: Config<S>, log: seq<Event>): Packet -> bool {
    (p: Packet) => if p.dst == cfg.host then Sent(p.src, p.data) in log else AnsweredTo(cfg, log, p.dst, p.data)
  }

  ghost predicate Traceable<S>(cfg: Config<S>, s: State<S>) {
    && Everywhere(s.net, Explained(cfg, s.log))
    && (s.replier.Accepted? ==> AskedFor(cfg, s.log, s.replier.to, s.replier.req))
    && (s.replier.Answered? ==> AnsweredTo(cfg, s.log, s.replier.to, s.replier.ans))
  }

  /** What `request` handed back when the call ended with event `e`; a receive that failed leaves it empty. */
  function ResultOf(e: Event): Message {
    if e.Returned? then e.result else []
  }

  /** `log[j]` ends a call of its requester with a result that some earlier handling of its own message explains. */
  ghost predicate Justified<S>(cfg: Config<S>, log: seq<Event>, j: nat)
    requires j < |log| && (log[j].Returned? || log[j].GaveUp?)
  {
    ResultOf(log[j]) == [] ||
    exists i: nat, h: nat, ans :: h < j && Served(cfg, log, i, h, log[j].who, ans)
                         && ResultOf(log[j]) == Frame(cfg.replySizes(log[j].who), ans)
  }

  ghost predicate AllJustified<S>(cfg: Config<S>, log: seq<Event>) {
    forall j :: 0 <= j < |log| && (log[j].Returned? || log[j].GaveUp?) ==> Justified(cfg, log, j)
  }

  /** The callback's state after the handlings in `log`, or `None` when some answer is not what it gives. */
  function Replay<S>(cfg: Config<S>, memory: S, log: seq<Event>): Option<S> {
    if log == [] then Some(memory)
    else
      var e := log[|log| - 1];
      match Replay(cfg, memory, log[..|log| - 1])
      case None => None
      case Some(m) =>
        if !e.Handled? then Some(m)
        else
          var (m', ans) := cfg.callback(m, e.req);
          if ans == e.ans then Some(m') else None
  }

  lemma TraceableNet<S>(cfg: Config<S>, s: State<S>, step: Step)
    requires Wired(cfg, s) && Enabled(cfg, s, step) && Traceable(cfg, s)
    ensures Everywhere(NetAfter(cfg, s, step), Explained(cfg, s.log + Recorded(cfg, s, step)))
  {
    var es := Recorded(cfg, s, step);
    HistoryGrows(cfg, s.log, es);
    EverywhereImplied(s.net, Explained(cfg, s.log), Explained(cfg, s.log + es));
    EverywhereStep(cfg, s, step, Explained(cfg, s.log + es));
  }

  lemma TraceableStep<S>(cfg: Config<S>, s: State<S>, step: Step)
    requires Wired(cfg, s) && Enabled(cfg, s, step) && Traceable(cfg, s)
    ensures Traceable(cfg, Apply(cfg, s, step))
  {
    var t := Apply(cfg, s, step);
    TraceableNet(cfg, s, step);
    HistoryGrows(cfg, s.log, Recorded(cfg, s, step));
    match step
    case OnceReceive =>
      var p := Mail(s.net, cfg.host);
      EverywhereTaken(s.net, cfg.host, Explained(cfg, s.log));
      var i :| 0 <= i < |s.log| && s.log[i] == Sent(p.src, p.data);
      assert t.log[i] == s.log[i];
    case OnceCall =>
      var i :| 0 <= i < |s.log| && s.log[i].Sent? && s.log[i].who == s.replier.to
        && s.replier.req == Frame(cfg.querySize, s.log[i].msg);
      assert Served(cfg, t.log, i, |s.log|, t.replier.to, t.replier.ans);
    case _ =>
  }

  lemma JustifiedStep<S>(cfg: Config<S>, s: State<S>, step: Step)
    requires Wired(cfg, s) && Enabled(cfg, s, step) && Traceable(cfg, s) && AllJustified(cfg, s.log)
    ensures AllJustified(cfg, Apply(cfg, s, step).log)
  {
    var t := Apply(cfg, s, step);
    forall j | 0 <= j < |t.log| && (t.log[j].Returned? || t.log[j].GaveUp?) ensures Justified(cfg, t.log, j) {
      if j < |s.log| {
        assert t.log[j] == s.log[j];
        assert Justified(cfg, s.log, j);
        if ResultOf(s.log[j]) != [] {
          var i: nat, h: nat, ans :| h < j && Served(cfg, s.log, i, h, s.log[j].who, ans)
            && ResultOf(s.log[j]) == Frame(cfg.replySizes(s.log[j].who), ans);
          assert Served(cfg, t.log, i, h, t.log[j].who, ans);
        }
      } else if step.Receive? {
        var p := Mail(s.net, step.a);
        EverywhereTaken(s.net, step.a, Explained(cfg, s.log));
        var i: nat, h: nat :| Served(cfg, s.log, i, h, step.a, p.data);
        assert Served(cfg, t.log, i, h, step.a, p.data);
      }
    }
  }

  lemma ReplayPush<S>(cfg: Config<S>, memory: S, log: seq<Event>, es: seq<Event>, m: S, m': S)
    requires Replay(cfg, memory, log) == Some(m) && |es| <= 1
    requires if es != [] && es[0].Handled? then cfg.callback(m, es[0].req) == (m', es[0].ans) else m' == m
    ensures Replay(cfg, memory, log + es) == Some(m')
  {
    if es == [] {
      assert log + es == log;
    } else {
      assert (log + es)[..|log|] == log;
    }
  }

  /** From any state, the handlings that follow are a sequential run of the callback. */
  lemma {:induction false} ReplayExec<S>(cfg: Config<S>, s: State<S>, steps: seq<Step>, t: State<S>)
    requires s.log == [] && Exec(cfg, s, steps) == Some(t)
    ensures Replay(cfg, s.memory, t.log) == Some(t.memory)
  {
    if steps != [] {
      var r := Exec(cfg, s, steps[..|steps| - 1]).value;
      ReplayExec(cfg, s, steps[..|steps| - 1], r);
      ReplayPush(cfg, s.memory, r.log, Recorded(cfg, r, steps[|steps| - 1]), r.memory, t.memory);
    }
  }

  lemma {:induction false} TraceableRun<S>(cfg: Config<S>, s: State<S>, steps: seq<Step>, t: State<S>)
    requires Runs(cfg, s, steps, t)
    ensures Traceable(cfg, t) && AllJustified(cfg, t.log)
  {
    if steps != [] {
      var step := steps[|steps| - 1];
      var r := RunPrefix(cfg, s, steps, t);
      TraceableRun(cfg, s, steps[..|steps| - 1], r);
      WiredRun(cfg, s, steps[..|steps| - 1], r);
      TraceableStep(cfg, r, step);
      JustifiedStep(cfg, r, step);
    }
  }

  /**
   Safety on a hostile network: on every run, every non-empty result of `request` is the framed answer the callback
   gave to a framed message which that same requester had sent by then, and the answers recorded are those of a
   sequential run of the callback.
   */
  lemma HostileSafety<S>(cfg: Config<S>, s: State<S>, steps: seq<Step>, t: State<S>, j: nat)
    requires Runs(cfg, s, steps, t)
    requires j < |t.log| && (t.log[j].Returned? || t.log[j].GaveUp?) && ResultOf(t.log[j]) != []
    ensures exists i: nat, h: nat, ans ::
              && i < h < j
              && t.log[i].Sent? && t.log[i].who == t.log[j].who
              && t.log[h] == Handled(t.log[j].who, Frame(cfg.querySize, t.log[i].msg), ans)
              && ResultOf(t.log[j]) == Frame(cfg.replySizes(t.log[j].who), ans)
    ensures Replay(cfg, s.memory, t.log) == Some(t.memory)
  {
    ReplayExec(cfg, s, steps, t);
    TraceableRun(cfg, s, steps, t);
    assert Justified(cfg, t.log, j);
    var i: nat, h: nat, ans :| h < j && Served(cfg, t.log, i, h, t.log[j].who, ans)
      && ResultOf(t.log[j]) == Frame(cfg.replySizes(t.log[j].who), ans);
    assert t.log[h] == Handled(t.log[j].who, Frame(cfg.querySize, t.log[i].msg), ans);
  }

  /** `m.size() == 0 || m.size() != msg_size` rejects exactly the datagrams whose frame is empty. */
  lemma AcceptsFullFrames(size: nat, p: Packet)
    ensures Accept(size, p) == if size == 0 || p.data == [] then Listening else Accepted(p.src, Frame(size, p.data))
  {
    FrameShape(size, p.data);
  }

  /** The sizes of what is handed to the callback and to the callers of `request`. */
  predicate Sized<S>(cfg: Config<S>, e: Event) {
    && (e.Handled? ==> |e.req| == cfg.querySize > 0)
    && (e.Returned? ==> e.result == [] || |e.result| == cfg.replySizes(e.who))
  }

  lemma SizedStep<S>(cfg: Config<S>, s: State<S>, step: Step)
    requires Enabled(cfg, s, step)
    requires s.replier.Accepted? ==> |s.replier.req| == cfg.querySize > 0
    ensures forall k :: 0 <= k < |Recorded(cfg, s, step)| ==> Sized(cfg, Recorded(cfg, s, step)[k])
    ensures var r := ReplierAfter(cfg, s, step); r.Accepted? ==> |r.req| == cfg.querySize > 0
  {
    match step
    case Receive(a) => FrameShape(cfg.replySizes(a), Mail(s.net, a).data);
    case OnceReceive => FrameShape(cfg.querySize, Mail(s.net, cfg.host).data);
    case _ =>
  }

  /** On every run the callback sees only messages of the agreed size, and a result has the agreed size or is empty. */
  lemma {:induction false} FixedSizes<S>(cfg: Config<S>, s: State<S>, steps: seq<Step>, t: State<S>)
    requires Runs(cfg, s, steps, t)
    ensures forall k :: 0 <= k < |t.log| ==> Sized(cfg, t.log[k])
    ensures t.replier.Accepted? ==> |t.replier.req| == cfg.querySize > 0
  {
    if steps != [] {
      var r := RunPrefix(cfg, s, steps, t);
      FixedSizes(cfg, s, steps[..|steps| - 1], r);
      SizedStep(cfg, r, steps[|steps| - 1]);
    }
  }
}
