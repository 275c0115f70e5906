/**
 Request/Reply as a distributed protocol: any number of requesters, one replier with a stateful callback, and the
 network of `Datagrams` between them. No message carries a correlation id and a requester does not look at who
 answered, so that an answer belongs to its request is a property of whole runs.

 Every call is split at its system calls: `Request.request` sends, then receives; `Reply.once` receives, calls back,
 then sends. Between those points the other processes and the network move freely.
 */
module RpcModel {
  import opened Sequences
  import opened Datagrams

  /** Sizes and callback are fixed for a run; the callback's own state is passed along explicitly. */
  datatype Config<!S> = Config(
    host: Addr,
    querySize: nat,
    replySizes: Addr -> nat,
    callback: (S, Message) -> (S, Message))

  datatype Phase = Idle | Waiting(msg: Message)

  datatype Replier = Listening | Accepted(to: Addr, req: Message) | Answered(to: Addr, ans: Message)

  /** What happened, in order. The programs never read this history. */
  datatype Event =
    | Sent(who: Addr, msg: Message)
    | RequestLost(who: Addr)
    | ReplyLost(who: Addr)
    | RequestCopied(who: Addr)
    | ReplyCopied(who: Addr)
    | Dropped(who: Addr)
    | Took(who: Addr)
    | Handled(who: Addr, req: Message, ans: Message)
    | Returned(who: Addr, result: Message)
    | GaveUp(who: Addr)

  datatype State<S> = State(net: Net, phases: map<Addr, Phase>, replier: Replier, memory: S, log: seq<Event>)

  datatype Step =
    | Send(a: Addr, msg: Message)
    | Receive(a: Addr)
    | TimeOut(a: Addr)
    | OnceReceive
    | OnceTimeOut
    | OnceCall
    | OnceSend
    | Deliver(k: nat)
    | Lose(k: nat)
    | Duplicate(k: nat)

  ghost predicate Init<S>(cfg: Config<S>, s: State<S>) {
    && cfg.host !in s.phases
    && s.net == Net([], [])
    && (forall a :: a in s.phases ==> s.phases[a] == Idle)
    && s.replier == Listening
    && s.log == []
  }

  predicate Enabled<S>(cfg: Config<S>, s: State<S>, step: Step) {
    match step
    case Send(a, _) => a in s.phases && s.phases[a].Idle?
    case Receive(a) => a in s.phases && s.phases[a].Waiting? && HasMail(s.net, a)
    case TimeOut(a) => a in s.phases && s.phases[a].Waiting?
    case OnceReceive => s.replier.Listening? && HasMail(s.net, cfg.host)
    case OnceTimeOut => s.replier.Listening?
    case OnceCall => s.replier.Accepted?
    case OnceSend => s.replier.Answered?
    case Deliver(k) => k < |s.net.flight|
    case Lose(k) => k < |s.net.flight|
    case Duplicate(k) => k < |s.net.flight|
  }

  /** The guard of `once`: the replier goes on only with a message of exactly the agreed size. */
  function Accept(size: nat, p: Packet): Replier {
    var m := Frame(size, p.data);
    if |m| == 0 || |m| != size then Listening else Accepted(p.src, m)
  }

  function LossOf(host: Addr, p: Packet): Event {
    if p.dst == host then RequestLost(p.src) else ReplyLost(p.dst)
  }

  function CopyOf(host: Addr, p: Packet): Event {
    if p.dst == host then RequestCopied(p.src) else ReplyCopied(p.dst)
  }

  function NetAfter<S>(cfg: Config<S>, s: State<S>, step: Step): Net
    requires Enabled(cfg, s, step)
  {
    match step
    case Send(a, msg) => Posted(s.net, Packet(a, cfg.host, msg))
    case Receive(a) => Taken(s.net, a)
    case OnceReceive => Taken(s.net, cfg.host)
    case OnceSend => Posted(s.net, Packet(cfg.host, s.replier.to, s.replier.ans))
    case Deliver(k) => Delivered(s.net, k)
    case Lose(k) => Lost(s.net, k)
    case Duplicate(k) => Posted(s.net, s.net.flight[k])
    case _ => s.net
  }

  function PhasesAfter<S>(s: State<S>, step: Step): map<Addr, Phase> {
    match step
    case Send(a, msg) => s.phases[a := Waiting(msg)]
    case Receive(a) => s.phases[a := Idle]
    case TimeOut(a) => s.phases[a := Idle]
    case _ => s.phases
  }

  function ReplierAfter<S>(cfg: Config<S>, s: State<S>, step: Step): Replier
    requires Enabled(cfg, s, step)
  {
    match step
    case OnceReceive => Accept(cfg.querySize, Mail(s.net, cfg.host))
    case OnceCall => Answered(s.replier.to, cfg.callback(s.memory, s.replier.req).1)
    case OnceSend => Listening
    case _ => s.replier
  }

  function MemoryAfter<S>(cfg: Config<S>, s: State<S>, step: Step): S
    requires Enabled(cfg, s, step)
  {
    if step.OnceCall? then cfg.callback(s.memory, s.replier.req).0 else s.memory
  }

  /** What the step adds to the history. */
  function Recorded<S>(cfg: Config<S>, s: State<S>, step: Step): seq<Event>
    requires Enabled(cfg, s, step)
  {
    match step
    case Send(a, msg) => [Sent(a, msg)]
    case Receive(a) => [Returned(a, Frame(cfg.replySizes(a), Mail(s.net, a).data))]
    case TimeOut(a) => [GaveUp(a)]
    case OnceReceive =>
      var p := Mail(s.net, cfg.host);
      [if Accept(cfg.querySize, p).Listening? then Dropped(p.src) else Took(p.src)]
    case OnceCall => [Handled(s.replier.to, s.replier.req, cfg.callback(s.memory, s.replier.req).1)]
    case Lose(k) => [LossOf(cfg.host, s.net.flight[k])]
    case Duplicate(k) => [CopyOf(cfg.host, s.net.flight[k])]
    case _ => []
  }

  function Apply<S>(cfg: Config<S>, s: State<S>, step: Step): State<S>
    requires Enabled(cfg, s, step)
  {
    State(NetAfter(cfg, s, step), PhasesAfter(s, step), ReplierAfter(cfg, s, step), MemoryAfter(cfg, s, step),
          s.log + Recorded(cfg, s, step))
  }

  /** The state after `steps`, or `None` when some step is not enabled at its turn. */
  function Exec<S>(cfg: Config<S>, s: State<S>, steps: seq<Step>): Option<State<S>> {
    if steps == [] then Some(s)
    else
      match Exec(cfg, s, steps[..|steps| - 1])
      case None => None
      case Some(t) =>
        var last := steps[|steps| - 1];
        if Enabled(cfg, t, last) then Some(Apply(cfg, t, last)) else None
  }

  /** `t` is a state some run of the protocol reaches. */
  ghost predicate Runs<S>(cfg: Config<S>, s: State<S>, steps: seq<Step>, t: State<S>) {
    Init(cfg, s) && Exec(cfg, s, steps) == Some(t)
  }

  /** The run that stops one step earlier. */
  lemma RunPrefix<S>(cfg: Config<S>, s: State<S>, steps: seq<Step>, t: State<S>) returns (r: State<S>)
    requires Runs(cfg, s, steps, t) && steps != []
    ensures Runs(cfg, s, steps[..|steps| - 1], r)
    ensures Enabled(cfg, r, steps[|steps| - 1]) && t == Apply(cfg, r, steps[|steps| - 1])
  {
    r := Exec(cfg, s, steps[..|steps| - 1]).value;
  }

  lemma ExecPush<S>(cfg: Config<S>, s: State<S>, steps: seq<Step>, t: State<S>, step: Step)
    requires Exec(cfg, s, steps) == Some(t) && Enabled(cfg, t, step)
    ensures Exec(cfg, s, steps + [step]) == Some(Apply(cfg, t, step))
  {
    assert (steps + [step])[..|steps|] == steps;
  }

  lemma {:induction false} ExecAppend<S>(cfg: Config<S>, s: State<S>, steps: seq<Step>, t: State<S>, more: seq<Step>)
    requires Exec(cfg, s, steps) == Some(t)
    ensures Exec(cfg, s, steps + more) == Exec(cfg, t, more)
  {
    if more == [] {
      assert steps + more == steps;
    } else {
      ExecAppend(cfg, s, steps, t, more[..|more| - 1]);
      assert (steps + more)[..|steps + more| - 1] == steps + more[..|more| - 1];
    }
  }

  lemma ApplyWithHistory<S>(cfg: Config<S>, s: State<S>, step: Step, log: seq<Event>)
    requires Enabled(cfg, s, step)
    ensures var s' := s.(log := log);
            Enabled(cfg, s', step)
            && Apply(cfg, s', step) == Apply(cfg, s, step).(log := log + Recorded(cfg, s, step))
  {
  }

  /** The programs never read the history: the same steps are possible, and do the same, when it starts anew. */
  lemma {:induction false} ExecRestart<S>(cfg: Config<S>, s: State<S>, steps: seq<Step>, t: State<S>)
    requires Exec(cfg, s, steps) == Some(t)
    ensures s.log <= t.log
    ensures Exec(cfg, s.(log := []), steps) == Some(t.(log := t.log[|s.log|..]))
  {
    if steps == [] {
      assert t.log[|s.log|..] == [];
    } else {
      var r := Exec(cfg, s, steps[..|steps| - 1]).value;
      ExecRestart(cfg, s, steps[..|steps| - 1], r);
      var step, since := steps[|steps| - 1], r.log[|s.log|..];
      ApplyWithHistory(cfg, r, step, since);
      assert t.log[|s.log|..] == since + Recorded(cfg, r, step);
    }
  }

  /** The datagram a step posts, if it is one of the programs' own. */
  function NewPacket<S>(cfg: Config<S>, s: State<S>, step: Step): Option<Packet>
    requires Enabled(cfg, s, step)
  {
    match step
    case Send(a, msg) => Some(Packet(a, cfg.host, msg))
    case OnceSend => Some(Packet(cfg.host, s.replier.to, s.replier.ans))
    case _ => None
  }

  /** The network only moves, loses and copies what the programs post. */
  lemma EverywhereStep<S>(cfg: Config<S>, s: State<S>, step: Step, ok: Packet -> bool)
    requires Enabled(cfg, s, step) && Everywhere(s.net, ok)
    requires var p := NewPacket(cfg, s, step); p.Some? ==> ok(p.value)
    ensures Everywhere(NetAfter(cfg, s, step), ok)
  {
    match step
    case Send(a, msg) => EverywherePosted(s.net, Packet(a, cfg.host, msg), ok);
    case Receive(a) => EverywhereTaken(s.net, a, ok);
    case OnceReceive => EverywhereTaken(s.net, cfg.host, ok);
    case OnceSend => EverywherePosted(s.net, Packet(cfg.host, s.replier.to, s.replier.ans), ok);
    case Deliver(k) => EverywhereMoved(s.net, k, ok);
    case Lose(k) => EverywhereMoved(s.net, k, ok);
    case Duplicate(k) => EverywherePosted(s.net, s.net.flight[k], ok);
    case _ =>
  }

  /** Datagrams travel only between a requester and the host. */
  function WellAddressed(host: Addr, requesters: set<Addr>): Packet -> bool {
    (p: Packet) => (p.dst == host && p.src in requesters) || (p.src == host && p.dst in requesters)
  }

  predicate Wired<S>(cfg: Config<S>, s: State<S>) {
    && cfg.host !in s.phases
    && Everywhere(s.net, WellAddressed(cfg.host, s.phases.Keys))
    && (s.replier.Listening? || s.replier.to in s.phases.Keys)
  }

  lemma WiredStep<S>(cfg: Config<S>, s: State<S>, step: Step)
    requires Wired(cfg, s) && Enabled(cfg, s, step)
    ensures Wired(cfg, Apply(cfg, s, step))
    ensures Apply(cfg, s, step).phases.Keys == s.phases.Keys
  {
    var ok := WellAddressed(cfg.host, s.phases.Keys);
    assert PhasesAfter(s, step).Keys == s.phases.Keys;
    EverywhereStep(cfg, s, step, ok);
    if step.OnceReceive? {
      EverywhereTaken(s.net, cfg.host, ok);
    }
  }

  lemma {:induction false} WiredExec<S>(cfg: Config<S>, s: State<S>, steps: seq<Step>, t: State<S>)
    requires Wired(cfg, s) && Exec(cfg, s, steps) == Some(t)
    ensures Wired(cfg, t) && t.phases.Keys == s.phases.Keys
  {
    if steps != [] {
      var r := Exec(cfg, s, steps[..|steps| - 1]).value;
      WiredExec(cfg, s, steps[..|steps| - 1], r);
      WiredStep(cfg, r, steps[|steps| - 1]);
    }
  }

  lemma WiredRun<S>(cfg: Config<S>, s: State<S>, steps: seq<Step>, t: State<S>)
    requires Runs(cfg, s, steps, t)
    ensures Wired(cfg, t) && t.phases.Keys == s.phases.Keys
  {
    WiredExec(cfg, s, steps, t);
  }
}
