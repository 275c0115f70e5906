/** Conservation of datagrams, for every run on every network, and the single token it leaves a requester. */
module RpcLedger {
  import opened Sequences
  import opened Datagrams
  import opened RpcModel

  datatype Kind =
    | KSent
    | KRequestLost
    | KReplyLost
    | KRequestCopied
    | KReplyCopied
    | KDropped
    | KTook
    | KHandled
    | KReturned
    | KGaveUp

  function KindOf(e: Event): Kind {
    match e
    case Sent(_, _) => KSent
    case RequestLost(_) => KRequestLost
    case ReplyLost(_) => KReplyLost
    case RequestCopied(_) => KRequestCopied
    case ReplyCopied(_) => KReplyCopied
    case Dropped(_) => KDropped
    case Took(_) => KTook
    case Handled(_, _, _) => KHandled
    case Returned(_, _) => KReturned
    case GaveUp(_) => KGaveUp
  }

  /** How often requester `a` met an event of kind `k`. */
  function Tally(log: seq<Event>, k: Kind, a: Addr): nat {
    if log == [] then 0
    else
      var e := log[|log| - 1];
      Tally(log[..|log| - 1], k, a) + if KindOf(e) == k && e.who == a then 1 else 0
  }

  function Counts(es: seq<Event>, k: Kind, a: Addr): nat {
    if |es| == 1 && KindOf(es[0]) == k && es[0].who == a then 1 else 0
  }

  lemma TallyPush(log: seq<Event>, es: seq<Event>, k: Kind, a: Addr)
    requires |es| <= 1
    ensures Tally(log + es, k, a) == Tally(log, k, a) + Counts(es, k, a)
  {
    if es == [] {
      assert log + es == log;
    } else {
      assert (log + es)[..|log|] == log;
    }
  }

  function RequestOf(host: Addr, a: Addr): Packet -> nat {
    (p: Packet) => if p.dst == host && p.src == a then 1 else 0
  }

  function ReplyTo(host: Addr, a: Addr): Packet -> nat {
    (p: Packet) => if p.dst == a && p.dst != host then 1 else 0
  }

  /** The datagrams the network still holds, each weighed by `f`. */
  function Carried(net: Net, f: Packet -> nat): nat {
    Sum(net.flight, f) + Sum(net.arrived, f)
  }

  function Requests(host: Addr, net: Net, a: Addr): nat {
    Carried(net, RequestOf(host, a))
  }

  function Replies(host: Addr, net: Net, a: Addr): nat {
    Carried(net, ReplyTo(host, a))
  }

  function Pending(r: Replier, a: Addr): nat {
    if r.Listening? || r.to != a then 0 else 1
  }

  /** Calls `a` has begun and not ended. */
  function Open(phases: map<Addr, Phase>, a: Addr): nat {
    if a in phases && phases[a].Waiting? then 1 else 0
  }

  /** Every request sent, or copied by the network, is in flight, queued, lost, dropped as empty, or taken. */
  predicate RequestsBalance<S>(cfg: Config<S>, s: State<S>, a: Addr) {
    Tally(s.log, KSent, a) + Tally(s.log, KRequestCopied, a)
    == Requests(cfg.host, s.net, a)
       + Tally(s.log, KRequestLost, a) + Tally(s.log, KDropped, a) + Tally(s.log, KTook, a)
  }

  /** Every request taken, and every reply copied, is pending, in flight, queued, lost, or returned. */
  predicate RepliesBalance<S>(cfg: Config<S>, s: State<S>, a: Addr) {
    Tally(s.log, KTook, a) + Tally(s.log, KReplyCopied, a)
    == Pending(s.replier, a) + Replies(cfg.host, s.net, a)
       + Tally(s.log, KReplyLost, a) + Tally(s.log, KReturned, a)
  }

  /** Every call begun has returned, has timed out, or still waits. */
  predicate CallsBalance<S>(s: State<S>, a: Addr) {
    Tally(s.log, KSent, a) == Tally(s.log, KReturned, a) + Tally(s.log, KGaveUp, a) + Open(s.phases, a)
  }

  predicate Balanced<S>(cfg: Config<S>, s: State<S>, a: Addr) {
    RequestsBalance(cfg, s, a) && RepliesBalance(cfg, s, a) && CallsBalance(s, a)
  }

  lemma CarriedPosted(net: Net, p: Packet, f: Packet -> nat)
    ensures Carried(Posted(net, p), f) == Carried(net, f) + f(p)
  {
    SumPush(net.flight, p, f);
  }

  lemma CarriedDelivered(net: Net, k: nat, f: Packet -> nat)
    requires k < |net.flight|
    ensures Carried(Delivered(net, k), f) == Carried(net, f)
  {
    SumRemove(net.flight, k, f);
    SumPush(net.arrived, net.flight[k], f);
  }

  lemma CarriedLost(net: Net, k: nat, f: Packet -> nat)
    requires k < |net.flight|
    ensures Carried(net, f) == Carried(Lost(net, k), f) + f(net.flight[k])
  {
    SumRemove(net.flight, k, f);
  }

  lemma CarriedTaken(net: Net, a: Addr, f: Packet -> nat)
    requires HasMail(net, a)
    ensures Carried(net, f) == Carried(Taken(net, a), f) + f(Mail(net, a))
  {
    SumRemove(net.arrived, FirstFor(net.arrived, a), f);
  }

  /** What one step adds to a weight carried by the network. */
  function Delta<S>(cfg: Config<S>, s: State<S>, step: Step, f: Packet -> nat): int
    requires Enabled(cfg, s, step)
  {
    match step
    case Send(a, msg) => f(Packet(a, cfg.host, msg))
    case Receive(a) => 0 - f(Mail(s.net, a)) as int
    case OnceReceive => 0 - f(Mail(s.net, cfg.host)) as int
    case OnceSend => f(Packet(cfg.host, s.replier.to, s.replier.ans))
    case Lose(k) => 0 - f(s.net.flight[k]) as int
    case Duplicate(k) => f(s.net.flight[k])
    case _ => 0
  }

  lemma CarriedStep<S>(cfg: Config<S>, s: State<S>, step: Step, f: Packet -> nat)
    requires Enabled(cfg, s, step)
    ensures Carried(NetAfter(cfg, s, step), f) == Carried(s.net, f) + Delta(cfg, s, step, f)
  {
    match step
    case Send(a, msg) => CarriedPosted(s.net, Packet(a, cfg.host, msg), f);
    case Receive(a) => CarriedTaken(s.net, a, f);
    case OnceReceive => CarriedTaken(s.net, cfg.host, f);
    case OnceSend => CarriedPosted(s.net, Packet(cfg.host, s.replier.to, s.replier.ans), f);
    case Deliver(k) => CarriedDelivered(s.net, k, f);
    case Lose(k) => CarriedLost(s.net, k, f);
    case Duplicate(k) => CarriedPosted(s.net, s.net.flight[k], f);
    case _ =>
  }

  /** Each step records exactly the events that account for what it does to `a`'s requests ... */
  lemma StepAccountsRequests<S>(cfg: Config<S>, s: State<S>, step: Step, a: Addr)
    requires Wired(cfg, s) && Enabled(cfg, s, step)
    ensures var es := Recorded(cfg, s, step);
            Counts(es, KSent, a) + Counts(es, KRequestCopied, a)
            == Delta(cfg, s, step, RequestOf(cfg.host, a))
               + Counts(es, KRequestLost, a) + Counts(es, KDropped, a) + Counts(es, KTook, a)
  {
    if step.Receive? {
      EverywhereTaken(s.net, step.a, WellAddressed(cfg.host, s.phases.Keys));
    }
  }

  /** ... to its replies ... */
  lemma StepAccountsReplies<S>(cfg: Config<S>, s: State<S>, step: Step, a: Addr)
    requires Wired(cfg, s) && Enabled(cfg, s, step)
    ensures var es := Recorded(cfg, s, step);
            Counts(es, KTook, a) + Counts(es, KReplyCopied, a)
            == Pending(ReplierAfter(cfg, s, step), a) - Pending(s.replier, a)
               + Delta(cfg, s, step, ReplyTo(cfg.host, a)) + Counts(es, KReplyLost, a) + Counts(es, KReturned, a)
  {
  }

  /** ... and to its calls. */
  lemma StepAccountsCalls<S>(cfg: Config<S>, s: State<S>, step: Step, a: Addr)
    requires Enabled(cfg, s, step)
    ensures var es := Recorded(cfg, s, step);
            Counts(es, KSent, a)
            == Counts(es, KReturned, a) + Counts(es, KGaveUp, a) + Open(PhasesAfter(s, step), a) - Open(s.phases, a)
  {
  }

  lemma RequestsBalancePush<S>(cfg: Config<S>, s: State<S>, t: State<S>, es: seq<Event>, delta: int, a: Addr)
    requires RequestsBalance(cfg, s, a) && |es| <= 1 && t.log == s.log + es
    requires Requests(cfg.host, t.net, a) == Requests(cfg.host, s.net, a) + delta
    requires Counts(es, KSent, a) + Counts(es, KRequestCopied, a)
             == delta + Counts(es, KRequestLost, a) + Counts(es, KDropped, a) + Counts(es, KTook, a)
    ensures RequestsBalance(cfg, t, a)
  {
    TallyPush(s.log, es, KSent, a);
    TallyPush(s.log, es, KRequestCopied, a);
    TallyPush(s.log, es, KRequestLost, a);
    TallyPush(s.log, es, KDropped, a);
    TallyPush(s.log, es, KTook, a);
  }

  lemma RepliesBalancePush<S>(cfg: Config<S>, s: State<S>, t: State<S>, es: seq<Event>, delta: int, a: Addr)
    requires RepliesBalance(cfg, s, a) && |es| <= 1 && t.log == s.log + es
    requires Pending(t.replier, a) + Replies(cfg.host, t.net, a)
             == Pending(s.replier, a) + Replies(cfg.host, s.net, a) + delta
    requires Counts(es, KTook, a) + Counts(es, KReplyCopied, a)
             == delta + Counts(es, KReplyLost, a) + Counts(es, KReturned, a)
    ensures RepliesBalance(cfg, t, a)
  {
    TallyPush(s.log, es, KTook, a);
    TallyPush(s.log, es, KReplyCopied, a);
    TallyPush(s.log, es, KReplyLost, a);
    TallyPush(s.log, es, KReturned, a);
  }

  lemma CallsBalancePush<S>(s: State<S>, t: State<S>, es: seq<Event>, a: Addr)
    requires CallsBalance(s, a) && |es| <= 1 && t.log == s.log + es
    requires Counts(es, KSent, a)
             == Counts(es, KReturned, a) + Counts(es, KGaveUp, a) + Open(t.phases, a) - Open(s.phases, a)
    ensures CallsBalance(t, a)
  {
    TallyPush(s.log, es, KSent, a);
    TallyPush(s.log, es, KReturned, a);
    TallyPush(s.log, es, KGaveUp, a);
  }

  lemma BalancedStep<S>(cfg: Config<S>, s: State<S>, step: Step, a: Addr)
    requires Wired(cfg, s) && Enabled(cfg, s, step) && Balanced(cfg, s, a)
    ensures Balanced(cfg, Apply(cfg, s, step), a)
  {
    var t, es := Apply(cfg, s, step), Recorded(cfg, s, step);
    var asked, told := Delta(cfg, s, step, RequestOf(cfg.host, a)), Delta(cfg, s, step, ReplyTo(cfg.host, a));
    StepAccountsRequests(cfg, s, step, a);
    StepAccountsReplies(cfg, s, step, a);
    StepAccountsCalls(cfg, s, step, a);
    CarriedStep(cfg, s, step, RequestOf(cfg.host, a));
    CarriedStep(cfg, s, step, ReplyTo(cfg.host, a));
    RequestsBalancePush(cfg, s, t, es, asked, a);
    RepliesBalancePush(cfg, s, t, es, told + Pending(t.replier, a) - Pending(s.replier, a), a);
    CallsBalancePush(s, t, es, a);
  }

  /** The books of every requester balance in every state of every run, copies, losses and timeouts included. */
  lemma {:induction false} Conservation<S>(cfg: Config<S>, s: State<S>, steps: seq<Step>, t: State<S>, a: Addr)
    requires Runs(cfg, s, steps, t)
    ensures Balanced(cfg, t, a)
  {
    if steps != [] {
      var r := RunPrefix(cfg, s, steps, t);
      Conservation(cfg, s, steps[..|steps| - 1], r, a);
      WiredRun(cfg, s, steps[..|steps| - 1], r);
      BalancedStep(cfg, r, steps[|steps| - 1], a);
    }
  }

  /** In this history no datagram of `a`'s is copied and no receive of `a`'s times out. */
  predicate Undisturbed(log: seq<Event>, a: Addr) {
    Tally(log, KRequestCopied, a) == Tally(log, KReplyCopied, a) == Tally(log, KGaveUp, a) == 0
  }

  /** Datagrams of `a`'s current call, wherever they are: in the network or in the replier's hands. */
  function Tokens<S>(cfg: Config<S>, s: State<S>, a: Addr): nat {
    Requests(cfg.host, s.net, a) + Pending(s.replier, a) + Replies(cfg.host, s.net, a)
  }

  function Spent(log: seq<Event>, a: Addr): nat {
    Tally(log, KRequestLost, a) + Tally(log, KReplyLost, a) + Tally(log, KDropped, a)
  }

  lemma UndisturbedBefore(log: seq<Event>, es: seq<Event>, a: Addr)
    requires |es| <= 1 && Undisturbed(log + es, a)
    ensures Undisturbed(log, a)
    ensures es != [GaveUp(a)] && es != [RequestCopied(a)] && es != [ReplyCopied(a)]
  {
    TallyPush(log, es, KRequestCopied, a);
    TallyPush(log, es, KReplyCopied, a);
    TallyPush(log, es, KGaveUp, a);
  }

  /**
   An idle requester has no datagram anywhere, and a waiting one has exactly one, unless that one was lost or was
   dropped as empty, and then it has none. What happens to other requesters' datagrams does not matter.
   */
  lemma SingleToken<S>(cfg: Config<S>, s: State<S>, steps: seq<Step>, t: State<S>, a: Addr)
    requires Runs(cfg, s, steps, t) && Undisturbed(t.log, a) && a in t.phases
    ensures Tokens(cfg, t, a) + Spent(t.log, a) == Open(t.phases, a)
  {
    Conservation(cfg, s, steps, t, a);
  }
}
