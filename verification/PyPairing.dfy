/**
 Which answer a call of the Python `request` returns: exactly when every call is answered by a datagram that its own
 message drew, the arithmetic for several callbacks, and what a long answer does.
 */
module PyPairing {
  import opened Sequences
  import opened Datagrams
  import opened PyUdpSocket
  import opened PyReply

  /** How many datagrams the first `n` requests draw from the replier. */
  function Drawn(cfg: Config, n: nat): nat
    requires n <= |cfg.messages|
  {
    |Emit(cfg, Outgoing(cfg, n)).out|
  }

  /** The `p`-th datagram the replier sends is one that message `q` drew. */
  predicate DrawnBy(cfg: Config, p: nat, q: nat) {
    q < |cfg.messages| && Drawn(cfg, q) <= p < Drawn(cfg, q + 1)
  }

  /** Every call that returned was answered by a datagram its own message drew. */
  predicate Paired(cfg: Config, s: State) {
    forall j: nat :: j < |s.taken| ==> DrawnBy(cfg, j, j)
  }

  ghost predicate AlwaysPaired(cfg: Config) {
    forall steps :: Exec(cfg, steps).Some? ==> Paired(cfg, Exec(cfg, steps).value)
  }

  /** The first `n` requests are sent without raising. */
  predicate Sendable(cfg: Config, n: nat)
    requires n <= |cfg.messages|
  {
    forall i :: 0 <= i < n ==> Post(cfg.bound, cfg.messages[i]).alive
  }

  /** Each message before `q` draws one datagram, `q` draws more, and one more request follows. */
  predicate Overdrawn(cfg: Config, q: nat) {
    && q + 1 < |cfg.messages| && Sendable(cfg, q + 2)
    && (forall i :: 0 <= i <= q ==> Drawn(cfg, i) == i)
    && Drawn(cfg, q + 1) > q + 1
  }

  lemma DrawnGrows(cfg: Config, n: nat)
    requires n < |cfg.messages|
    ensures Within(Emit(cfg, Outgoing(cfg, n)), Emit(cfg, Outgoing(cfg, n + 1)))
    ensures Drawn(cfg, n) <= Drawn(cfg, n + 1)
  {
    var ds := Outgoing(cfg, n + 1);
    assert ds[..|Outgoing(cfg, n)|] == Outgoing(cfg, n);
    EmitWithin(cfg, ds, |Outgoing(cfg, n)|);
  }

  /** By the time `i` calls have returned, message `i` lets another one return. */
  predicate Suffices(cfg: Config, i: nat) {
    i < |cfg.messages| && Drawn(cfg, i + 1) > i
  }

  /** What the requester's progress says about the messages it has sent. */
  predicate Fed(cfg: Config, s: State) {
    && |s.taken| <= s.sent <= |s.taken| + 1 && s.sent <= |cfg.messages|
    && (if s.halted then |s.taken| < s.sent && Sendable(cfg, s.sent - 1) else Sendable(cfg, s.sent))
    && forall i :: 0 <= i < |s.taken| ==> Suffices(cfg, i)
  }

  lemma FedAsk(cfg: Config, s: State)
    requires Fed(cfg, s) && Enabled(cfg, s, Ask)
    ensures Fed(cfg, Apply(cfg, s, Ask))
  {
    var t := Apply(cfg, s, Ask);
    assert t.halted || Sendable(cfg, t.sent);
  }

  lemma FedTake(cfg: Config, s: State)
    requires Fed(cfg, s) && Enabled(cfg, s, Take) && |s.taken| < Drawn(cfg, s.sent)
    ensures Fed(cfg, Apply(cfg, s, Take))
  {
    assert Suffices(cfg, |s.taken|);
  }

  lemma {:induction false} FedRun(cfg: Config, steps: seq<Step>, s: State)
    requires Exec(cfg, steps) == Some(s)
    ensures Fed(cfg, s)
  {
    if steps != [] {
      var r := Exec(cfg, steps[..|steps| - 1]).value;
      FedRun(cfg, steps[..|steps| - 1], r);
      match steps[|steps| - 1]
      case Ask => FedAsk(cfg, r);
      case Take =>
        RepliesFollowStream(cfg, steps, s);
        FedTake(cfg, r);
      case _ =>
    }
  }

  /** The first message that draws more than its share. */
  lemma FirstOverdrawn(cfg: Config, n: nat, j: nat) returns (q: nat)
    requires n < j < |cfg.messages| && Sendable(cfg, j + 1)
    requires forall i :: 0 <= i < j ==> Suffices(cfg, i)
    requires forall i :: 0 <= i <= n ==> Drawn(cfg, i) == i
    requires Drawn(cfg, j) > j
    ensures Overdrawn(cfg, q)
    decreases j - n
  {
    assert Suffices(cfg, n);
    if Drawn(cfg, n + 1) > n + 1 {
      q := n;
    } else {
      assert n + 1 != j;
      q := FirstOverdrawn(cfg, n + 1, j);
    }
  }

  lemma UnpairedIsOverdrawn(cfg: Config, steps: seq<Step>, s: State, j: nat) returns (q: nat)
    requires Exec(cfg, steps) == Some(s) && j < |s.taken| && !DrawnBy(cfg, j, j)
    ensures Overdrawn(cfg, q)
  {
    FedRun(cfg, steps, s);
    assert Suffices(cfg, j);
    q := FirstOverdrawn(cfg, 0, j);
  }

  /** The replier has nothing left to do. */
  predicate Quiet(s: State) {
    s.server.Raised? || (s.server.Listening? && s.requests == [])
  }

  /** The replier can always work off what it has been sent. */
  lemma Drain(cfg: Config, steps: seq<Step>, s: State) returns (steps': seq<Step>, t: State)
    requires Exec(cfg, steps) == Some(s)
    ensures Exec(cfg, steps') == Some(t) && Quiet(t)
    ensures t.sent == s.sent && t.halted == s.halted && t.taken == s.taken
    decreases |s.requests|, if s.server.Serving? then |cfg.callbacks| + 1 - s.server.next else 0
  {
    steps', t := steps, s;
    if s.server.Listening? && s.requests != [] {
      steps', t := Extend(cfg, steps, s, Serve);
      steps', t := Drain(cfg, steps', t);
    } else if s.server.Serving? {
      InvRun(cfg, steps);
      steps', t := Extend(cfg, steps, s, if s.server.next < |cfg.callbacks| then Call else Finish);
      steps', t := Drain(cfg, steps', t);
    }
  }

  lemma QuietSentAll(cfg: Config, steps: seq<Step>, s: State)
    requires Exec(cfg, steps) == Some(s) && Quiet(s)
    ensures s.sent <= |cfg.messages| && s.taken + s.replies == Emit(cfg, Outgoing(cfg, s.sent)).out
  {
    InvRun(cfg, steps);
    EmittedWithin(cfg, s);
    assert s.server.Listening? ==> Outgoing(cfg, s.sent)[..Consumed(cfg, s)] == Outgoing(cfg, s.sent);
  }

  lemma OneCall(cfg: Config, steps: seq<Step>, s: State) returns (steps': seq<Step>, t: State)
    requires Exec(cfg, steps) == Some(s) && s.sent == |s.taken| && !s.halted && Suffices(cfg, s.sent)
    requires Post(cfg.bound, cfg.messages[s.sent]).alive
    ensures Exec(cfg, steps') == Some(t) && t.sent == |t.taken| == s.sent + 1 && !t.halted
  {
    steps', t := Extend(cfg, steps, s, Ask);
    steps', t := Drain(cfg, steps', t);
    QuietSentAll(cfg, steps', t);
    steps', t := Extend(cfg, steps', t, Take);
  }

  /** If every request is sent and draws enough, some run makes the first `j` calls return. */
  lemma {:induction false} AfterCalls(cfg: Config, j: nat) returns (steps: seq<Step>, s: State)
    requires j <= |cfg.messages| && Sendable(cfg, j) && forall i :: 0 <= i < j ==> Suffices(cfg, i)
    ensures Exec(cfg, steps) == Some(s) && s.sent == |s.taken| == j && !s.halted
  {
    if j == 0 {
      steps, s := [], START;
    } else {
      steps, s := AfterCalls(cfg, j - 1);
      assert Suffices(cfg, j - 1);
      steps, s := OneCall(cfg, steps, s);
    }
  }

  lemma OverdrawnCalls(cfg: Config, q: nat) returns (steps: seq<Step>, s: State)
    requires Overdrawn(cfg, q)
    ensures Exec(cfg, steps) == Some(s) && |s.taken| == q + 2 && !DrawnBy(cfg, q + 1, q + 1)
  {
    forall i | 0 <= i < q + 2 ensures Suffices(cfg, i) {
      DrawnGrows(cfg, i);
    }
    steps, s := AfterCalls(cfg, q + 2);
  }

  /**
   Exactly when calls and answers pair. Whatever callbacks answer, keep silent or make `sendto` raise: every call of
   every run gets a datagram its own message drew, if and only if no message draws more than one datagram after each
   before it drew one, while another request follows.
   */
  lemma PairedIffNotOverdrawn(cfg: Config)
    ensures AlwaysPaired(cfg) <==> forall q: nat :: !Overdrawn(cfg, q)
  {
    if q: nat :| Overdrawn(cfg, q) {
      var steps, s := OverdrawnCalls(cfg, q);
      assert !Paired(cfg, s);
    } else {
      forall steps | Exec(cfg, steps).Some? ensures Paired(cfg, Exec(cfg, steps).value) {
        var s := Exec(cfg, steps).value;
        forall j: nat | j < |s.taken| ensures DrawnBy(cfg, j, j) {
          if !DrawnBy(cfg, j, j) {
            var q := UnpairedIsOverdrawn(cfg, steps, s, j);
          }
        }
      }
    }
  }

  predicate MessagesFit(cfg: Config) {
    forall i :: 0 <= i < |cfg.messages| ==> |cfg.messages[i]| <= MAX_PACKET_SIZE
  }

  lemma {:induction false} OutgoingWhole(cfg: Config, n: nat)
    requires MessagesFit(cfg) && n <= |cfg.messages|
    ensures Outgoing(cfg, n) == cfg.messages[..n]
    ensures Sendable(cfg, n)
  {
    if n > 0 {
      OutgoingWhole(cfg, n - 1);
    }
  }

  /** What the first `n` messages draw, one after the other. */
  lemma EmitNext(cfg: Config, n: nat)
    requires MessagesFit(cfg) && n < |cfg.messages|
    ensures Emit(cfg, Outgoing(cfg, n + 1)) == Then(Emit(cfg, Outgoing(cfg, n)), Reaction(cfg, cfg.messages[n]))
  {
    OutgoingWhole(cfg, n);
    OutgoingWhole(cfg, n + 1);
    assert cfg.messages[..n + 1][..n] == cfg.messages[..n];
  }

  lemma DrawnNext(cfg: Config, n: nat)
    requires MessagesFit(cfg) && n < |cfg.messages| && Emit(cfg, Outgoing(cfg, n)).alive
    ensures Drawn(cfg, n + 1) == Drawn(cfg, n) + |Reaction(cfg, cfg.messages[n]).out|
    ensures Emit(cfg, Outgoing(cfg, n + 1)).alive == Reaction(cfg, cfg.messages[n]).alive
  {
    EmitNext(cfg, n);
  }

  /** Message `q` draws `k` datagrams and leaves the replier alive. */
  predicate Yields(cfg: Config, q: nat, k: nat) {
    q < |cfg.messages| && Reaction(cfg, cfg.messages[q]).alive && |Reaction(cfg, cfg.messages[q]).out| == k
  }

  function Times(n: nat, k: nat): nat {
    if n == 0 then 0 else Times(n - 1, k) + k
  }

  lemma {:induction false} TimesIsProduct(n: nat, k: nat)
    ensures Times(n, k) == n * k
  {
    if n > 0 {
      TimesIsProduct(n - 1, k);
      assert n * k == (n - 1) * k + k;
    }
  }

  /** Every message goes out as one datagram and draws `k`. */
  predicate Even(cfg: Config, k: nat) {
    MessagesFit(cfg) && forall i :: 0 <= i < |cfg.messages| ==> Yields(cfg, i, k)
  }

  lemma {:induction false} DrawnEvenly(cfg: Config, n: nat, k: nat)
    requires MessagesFit(cfg) && n <= |cfg.messages| && forall i :: 0 <= i < n ==> Yields(cfg, i, k)
    ensures Drawn(cfg, n) == Times(n, k) && Emit(cfg, Outgoing(cfg, n)).alive
  {
    if n > 0 {
      DrawnEvenly(cfg, n - 1, k);
      assert Yields(cfg, n - 1, k);
      DrawnNext(cfg, n - 1);
    }
  }

  lemma {:induction false} StreamGrows(cfg: Config, n: nat, m: nat)
    requires n <= m <= |cfg.messages|
    ensures Within(Emit(cfg, Outgoing(cfg, n)), Emit(cfg, Outgoing(cfg, m)))
    decreases m
  {
    if n < m {
      StreamGrows(cfg, n, m - 1);
      DrawnGrows(cfg, m - 1);
    }
  }

  /** The stream that message `q` ends is the one taken from. */
  lemma TakenOf(cfg: Config, steps: seq<Step>, s: State, j: nat, q: nat)
    requires Exec(cfg, steps) == Some(s) && j < |s.taken| && DrawnBy(cfg, j, q)
    ensures s.taken[j] == Emit(cfg, Outgoing(cfg, q + 1)).out[j]
  {
    RepliesFollowStream(cfg, steps, s);
    StreamGrows(cfg, s.sent, |cfg.messages|);
    StreamGrows(cfg, q + 1, |cfg.messages|);
  }

  lemma PickLater(t: Traffic, u: Traffic, v: Traffic, j: nat)
    requires t == Then(u, v) && |u.out| <= j < |t.out|
    ensures j - |u.out| < |v.out| && t.out[j] == v.out[j - |u.out|]
  {
  }

  /** A call answered in its turn gets what its message drew. */
  lemma TakenFrom(cfg: Config, steps: seq<Step>, s: State, j: nat, q: nat)
    requires Exec(cfg, steps) == Some(s) && MessagesFit(cfg) && j < |s.taken| && DrawnBy(cfg, j, q)
    ensures j - Drawn(cfg, q) < |Reaction(cfg, cfg.messages[q]).out|
    ensures s.taken[j] == Reaction(cfg, cfg.messages[q]).out[j - Drawn(cfg, q)]
  {
    var t, u, v := Emit(cfg, Outgoing(cfg, q + 1)), Emit(cfg, Outgoing(cfg, q)), Reaction(cfg, cfg.messages[q]);
    TakenOf(cfg, steps, s, j, q);
    EmitNext(cfg, q);
    PickLater(t, u, v, j);
  }

  /** The answer of callback `c` to message `q`. */
  function ReplyOf(cfg: Config, c: nat, q: nat): Option<Message>
    requires c < |cfg.callbacks| && q < |cfg.messages|
  {
    cfg.callbacks[c](Cut(cfg.serverSize, cfg.messages[q]))
  }

  /** No message is empty when it arrives, and every callback answers it. */
  predicate AllAnswer(cfg: Config) {
    && (forall q :: 0 <= q < |cfg.messages| ==> Cut(cfg.serverSize, cfg.messages[q]) != [])
    && (forall c, q :: 0 <= c < |cfg.callbacks| && 0 <= q < |cfg.messages| ==> ReplyOf(cfg, c, q).Some?)
  }

  /** Every message and every answer goes out as one datagram. */
  predicate AllFit(cfg: Config) {
    && MessagesFit(cfg)
    && (forall c, q :: 0 <= c < |cfg.callbacks| && 0 <= q < |cfg.messages| ==>
          ReplyOf(cfg, c, q).Some? ==> |ReplyOf(cfg, c, q).value| <= MAX_PACKET_SIZE)
  }

  lemma {:induction false} AnswersByIndex(cfg: Config, q: nat, n: nat)
    requires AllAnswer(cfg) && AllFit(cfg) && n <= |cfg.callbacks| && q < |cfg.messages|
    ensures var t := Answers(cfg.bound, cfg.callbacks, Cut(cfg.serverSize, cfg.messages[q]), n);
            t.alive && |t.out| == n && forall c :: 0 <= c < n ==> Some(t.out[c]) == ReplyOf(cfg, c, q)
  {
    if n > 0 {
      AnswersByIndex(cfg, q, n - 1);
      assert ReplyOf(cfg, n - 1, q).Some?;
    }
  }

  lemma AllAnswerEvenly(cfg: Config)
    requires AllAnswer(cfg) && AllFit(cfg)
    ensures Even(cfg, |cfg.callbacks|)
  {
    forall i | 0 <= i < |cfg.messages| ensures Yields(cfg, i, |cfg.callbacks|) {
      AnswersByIndex(cfg, i, |cfg.callbacks|);
    }
  }

  lemma Divide(j: nat, k: nat, n: nat) returns (q: nat, r: nat)
    requires j < n * k
    ensures k > 0 && q == j / k && r == j % k && q < n && r < k
    ensures j == Times(q, k) + r
  {
    q, r := j / k, j % k;
    assert (n - q) * k == n * k - q * k > 0;
    TimesIsProduct(q, k);
  }

  lemma TakenBound(cfg: Config, steps: seq<Step>, s: State)
    requires Exec(cfg, steps) == Some(s)
    ensures |s.taken| <= Drawn(cfg, |cfg.messages|)
  {
    RepliesFollowStream(cfg, steps, s);
    StreamGrows(cfg, s.sent, |cfg.messages|);
  }

  lemma EvenBound(cfg: Config, steps: seq<Step>, s: State, k: nat)
    requires Exec(cfg, steps) == Some(s) && Even(cfg, k)
    ensures |s.taken| <= |cfg.messages| * k
  {
    TakenBound(cfg, steps, s);
    DrawnEvenly(cfg, |cfg.messages|, k);
    TimesIsProduct(|cfg.messages|, k);
  }

  lemma PlaceFrom(cfg: Config, j: nat, q: nat, r: nat, k: nat)
    requires q < |cfg.messages| && r < k && j == Times(q, k) + r
    requires Drawn(cfg, q) == Times(q, k) && Drawn(cfg, q + 1) == Times(q + 1, k)
    ensures DrawnBy(cfg, j, q) && j - Drawn(cfg, q) == r
  {
    assert Times(q + 1, k) == Times(q, k) + k;
  }

  lemma PairingPlace(cfg: Config, j: nat, q: nat, r: nat, k: nat)
    requires Even(cfg, k) && q < |cfg.messages| && r < k && j == Times(q, k) + r
    ensures DrawnBy(cfg, j, q) && j - Drawn(cfg, q) == r
  {
    DrawnEvenly(cfg, q, k);
    DrawnEvenly(cfg, q + 1, k);
    PlaceFrom(cfg, j, q, r, k);
  }

  lemma ReactionAt(cfg: Config, q: nat, r: nat)
    requires AllAnswer(cfg) && AllFit(cfg) && q < |cfg.messages| && r < |cfg.callbacks|
    ensures var t := Reaction(cfg, cfg.messages[q]); r < |t.out| && Some(t.out[r]) == ReplyOf(cfg, r, q)
  {
    AnswersByIndex(cfg, q, |cfg.callbacks|);
  }

  lemma PairingAt(cfg: Config, steps: seq<Step>, s: State, j: nat, q: nat, r: nat, k: nat)
    requires Exec(cfg, steps) == Some(s) && Even(cfg, k) && j < |s.taken|
    requires q < |cfg.messages| && r < k && j == Times(q, k) + r
    ensures r < |Reaction(cfg, cfg.messages[q]).out| && s.taken[j] == Reaction(cfg, cfg.messages[q]).out[r]
  {
    PairingPlace(cfg, j, q, r, k);
    TakenFrom(cfg, steps, s, j, q);
  }

  /**
   Pairing law: of k callbacks that all answer, with messages and answers of one datagram each, the j-th call returns
   the answer of callback j mod k to message j div k.
   */
  lemma PairingLaw(cfg: Config, steps: seq<Step>, s: State, j: nat)
    requires Exec(cfg, steps) == Some(s) && AllAnswer(cfg) && AllFit(cfg) && j < |s.taken|
    ensures var k := |cfg.callbacks|;
            && k > 0 && j / k < |cfg.messages|
            && var a := ReplyOf(cfg, j % k, j / k); a.Some? && Result(cfg, s, j) == Cut(cfg.clientSize, a.value)
  {
    var k := |cfg.callbacks|;
    AllAnswerEvenly(cfg);
    EvenBound(cfg, steps, s, k);
    var q, r := Divide(j, k, |cfg.messages|);
    PairingAt(cfg, steps, s, j, q, r, k);
    ReactionAt(cfg, q, r);
  }

  lemma ManyOverdraw(cfg: Config, k: nat)
    requires Even(cfg, k) && k > 1 && |cfg.messages| > 1
    ensures Overdrawn(cfg, 0)
  {
    DrawnEvenly(cfg, 1, k);
    OutgoingWhole(cfg, 2);
  }

  lemma {:induction false} TimesAtMost(n: nat, k: nat)
    requires k <= 1
    ensures Times(n, k) <= n
  {
    if n > 0 {
      TimesAtMost(n - 1, k);
    }
  }

  lemma FewDoNot(cfg: Config, q: nat, k: nat)
    requires Even(cfg, k) && k <= 1 && q + 1 <= |cfg.messages|
    ensures !Overdrawn(cfg, q)
  {
    DrawnEvenly(cfg, q + 1, k);
    TimesAtMost(q + 1, k);
  }

  /** Calls and answers pair on every run exactly when there is no second callback, or no second call. */
  lemma SingleCallbackPairs(cfg: Config)
    requires AllAnswer(cfg) && AllFit(cfg)
    ensures AlwaysPaired(cfg) <==> |cfg.callbacks| <= 1 || |cfg.messages| <= 1
  {
    PairedIffNotOverdrawn(cfg);
    AllAnswerEvenly(cfg);
    if |cfg.callbacks| > 1 && |cfg.messages| > 1 {
      ManyOverdraw(cfg, |cfg.callbacks|);
    } else {
      forall q: nat | q + 1 < |cfg.messages| ensures !Overdrawn(cfg, q) {
        FewDoNot(cfg, q, |cfg.callbacks|);
      }
    }
  }

  /** The answer to message `q` does not fit one datagram ... */
  predicate LongAnswer(cfg: Config, q: nat)
    requires |cfg.callbacks| == 1 && q < |cfg.messages|
  {
    ReplyOf(cfg, 0, q).Some? && |ReplyOf(cfg, 0, q).value| > MAX_PACKET_SIZE
  }

  /** ... or is as long as two or more. */
  predicate DoubleAnswer(cfg: Config, q: nat)
    requires |cfg.callbacks| == 1 && q < |cfg.messages|
  {
    ReplyOf(cfg, 0, q).Some? && |ReplyOf(cfg, 0, q).value| >= 2 * MAX_PACKET_SIZE
  }

  /** The first answer that does not fit one datagram is the one to message `q`. */
  predicate FirstLong(cfg: Config, q: nat)
    requires |cfg.callbacks| == 1
  {
    && q < |cfg.messages| && LongAnswer(cfg, q)
    && forall i :: 0 <= i < q ==> !LongAnswer(cfg, i)
  }

  lemma OneReaction(cfg: Config, q: nat)
    requires |cfg.callbacks| == 1 && AllAnswer(cfg) && q < |cfg.messages|
    ensures Reaction(cfg, cfg.messages[q]) == Post(cfg.bound, ReplyOf(cfg, 0, q).value)
  {
    var data := Cut(cfg.serverSize, cfg.messages[q]);
    assert ReplyOf(cfg, 0, q).Some?;
    assert Answers(cfg.bound, cfg.callbacks, data, 0) == SILENCE;
  }

  lemma ShortReaction(cfg: Config, q: nat)
    requires |cfg.callbacks| == 1 && AllAnswer(cfg) && q < |cfg.messages| && !LongAnswer(cfg, q)
    ensures Yields(cfg, q, 1)
  {
    OneReaction(cfg, q);
    assert ReplyOf(cfg, 0, q).Some?;
    ShortPost(cfg.bound, ReplyOf(cfg, 0, q).value);
  }

  lemma LongReaction(cfg: Config, q: nat)
    requires |cfg.callbacks| == 1 && AllAnswer(cfg) && q < |cfg.messages| && LongAnswer(cfg, q)
    ensures var t := Reaction(cfg, cfg.messages[q]);
            t.alive == cfg.bound && |t.out| >= 1 && (|t.out| > 1 <==> cfg.bound || DoubleAnswer(cfg, q))
  {
    OneReaction(cfg, q);
    LongPost(cfg.bound, ReplyOf(cfg, 0, q).value);
  }

  lemma DrawnWhileShort(cfg: Config, n: nat)
    requires |cfg.callbacks| == 1 && AllAnswer(cfg) && MessagesFit(cfg) && n <= |cfg.messages|
    requires forall i :: 0 <= i < n ==> !LongAnswer(cfg, i)
    ensures Drawn(cfg, n) == n && Emit(cfg, Outgoing(cfg, n)).alive
  {
    forall i | 0 <= i < n ensures Yields(cfg, i, 1) {
      ShortReaction(cfg, i);
    }
    DrawnEvenly(cfg, n, 1);
    TimesIsProduct(n, 1);
  }

  /** Up to its first long answer a single callback keeps step. */
  lemma DrawnAtLong(cfg: Config, q: nat)
    requires |cfg.callbacks| == 1 && AllAnswer(cfg) && MessagesFit(cfg) && FirstLong(cfg, q)
    ensures forall i :: 0 <= i <= q ==> Drawn(cfg, i) == i
    ensures Drawn(cfg, q + 1) >= q + 1 && (Drawn(cfg, q + 1) > q + 1 <==> cfg.bound || DoubleAnswer(cfg, q))
    ensures Emit(cfg, Outgoing(cfg, q + 1)).alive == cfg.bound
  {
    forall i | 0 <= i <= q ensures Drawn(cfg, i) == i {
      DrawnWhileShort(cfg, i);
    }
    DrawnWhileShort(cfg, q);
    DrawnNext(cfg, q);
    LongReaction(cfg, q);
  }

  lemma DrawnStays(cfg: Config, q: nat, p: nat)
    requires q <= p <= |cfg.messages| && !Emit(cfg, Outgoing(cfg, q)).alive
    ensures Drawn(cfg, p) == Drawn(cfg, q)
  {
    StreamGrows(cfg, q, p);
  }

  lemma FirstLongBefore(cfg: Config, n: nat) returns (q: nat)
    requires |cfg.callbacks| == 1 && n <= |cfg.messages|
    requires exists i :: 0 <= i < n && LongAnswer(cfg, i)
    ensures q < n && FirstLong(cfg, q)
  {
    q := n - 1;
    if !FirstLong(cfg, q) {
      q := FirstLongBefore(cfg, n - 1);
    }
  }

  /** A single callback goes wrong at its first long answer, if that makes more than one datagram. */
  lemma LongAnswerOverdraws(cfg: Config, q: nat)
    requires |cfg.callbacks| == 1 && AllAnswer(cfg) && MessagesFit(cfg) && FirstLong(cfg, q) && q + 1 < |cfg.messages|
    ensures Overdrawn(cfg, q) <==> cfg.bound || DoubleAnswer(cfg, q)
  {
    DrawnAtLong(cfg, q);
    OutgoingWhole(cfg, q + 2);
  }

  /** As written, the replier ends at its first long answer. */
  lemma NothingAfterLong(cfg: Config, q: nat, p: nat)
    requires |cfg.callbacks| == 1 && AllAnswer(cfg) && MessagesFit(cfg) && FirstLong(cfg, q) && q < p <= |cfg.messages|
    requires !cfg.bound && !DoubleAnswer(cfg, q)
    ensures Drawn(cfg, p) == q + 1
  {
    DrawnAtLong(cfg, q);
    DrawnStays(cfg, q + 1, p);
  }

  lemma OverdrawnAtFirstLong(cfg: Config, q: nat) returns (p: nat)
    requires |cfg.callbacks| == 1 && AllAnswer(cfg) && MessagesFit(cfg) && Overdrawn(cfg, q)
    ensures FirstLong(cfg, p) && p + 1 < |cfg.messages| && (cfg.bound || DoubleAnswer(cfg, p))
  {
    if forall i :: 0 <= i < q + 1 ==> !LongAnswer(cfg, i) {
      DrawnWhileShort(cfg, q + 1);
    } else {
      p := FirstLongBefore(cfg, q + 1);
      if !cfg.bound && !DoubleAnswer(cfg, p) {
        NothingAfterLong(cfg, p, q + 1);
      }
    }
  }

  /**
   One callback whose answers may be long. Calls and answers pair on every run if and only if the first answer that does
   not fit one datagram, unless it is the last, is shorter than two of them; were `buffer` the data, that would not do.
   */
  lemma LongAnswersMispair(cfg: Config)
    requires |cfg.callbacks| == 1 && AllAnswer(cfg) && MessagesFit(cfg)
    ensures AlwaysPaired(cfg) <==>
            forall q: nat :: FirstLong(cfg, q) && q + 1 < |cfg.messages| ==>
                          !cfg.bound && !DoubleAnswer(cfg, q)
  {
    PairedIffNotOverdrawn(cfg);
    if q: nat :| FirstLong(cfg, q) && q + 1 < |cfg.messages| && (cfg.bound || DoubleAnswer(cfg, q)) {
      LongAnswerOverdraws(cfg, q);
    } else {
      forall q: nat ensures !Overdrawn(cfg, q) {
        if Overdrawn(cfg, q) {
          var p := OverdrawnAtFirstLong(cfg, q);
        }
      }
    }
  }

  /** What then happens: some run returns, to the call after the long answer, the second piece of that answer. */
  lemma SecondPieceReturned(cfg: Config, q: nat) returns (steps: seq<Step>, s: State)
    requires |cfg.callbacks| == 1 && AllAnswer(cfg) && MessagesFit(cfg) && FirstLong(cfg, q) && q + 1 < |cfg.messages|
    requires DoubleAnswer(cfg, q)
    ensures Exec(cfg, steps) == Some(s) && |s.taken| == q + 2
    ensures s.taken[q + 1] == ReplyOf(cfg, 0, q).value[MAX_PACKET_SIZE..2 * MAX_PACKET_SIZE]
  {
    LongAnswerOverdraws(cfg, q);
    steps, s := OverdrawnCalls(cfg, q);
    DrawnAtLong(cfg, q);
    LongPost(cfg.bound, ReplyOf(cfg, 0, q).value);
    OneReaction(cfg, q);
    TakenFrom(cfg, steps, s, q + 1, q);
  }

  /** Answers [1] with 12000 bytes and everything else with itself. */
  function Verbose(m: Message): Option<Message> {
    Some(if m == [1] then seq(12000, _ => 7) else m)
  }

  /** A requester that asks [1] and then [2] gets a byte of the answer to [1], where it should get [2]. */
  lemma VerboseMispairs(bound: bool) returns (steps: seq<Step>, s: State)
    ensures var cfg := Config([Verbose], 1, 1, [[1], [2]], bound);
            && Exec(cfg, steps) == Some(s) && |s.taken| == 2
            && Result(cfg, s, 1) == [7] && ReplyOf(cfg, 0, 1) == Some([2])
  {
    var cfg := Config([Verbose], 1, 1, [[1], [2]], bound);
    assert Cut(1, [1]) == [1] && Cut(1, [2]) == [2];
    assert ReplyOf(cfg, 0, 0) == Verbose([1]) && ReplyOf(cfg, 0, 1) == Verbose([2]);
    steps, s := SecondPieceReturned(cfg, 0);
    assert s.taken[1][0] == 7;
    assert Result(cfg, s, 1) == [7];
  }

  /** Every message goes out, and draws exactly one datagram, whichever callbacks keep silent. */
  predicate OneEach(cfg: Config) {
    Even(cfg, 1)
  }

  lemma DrawnOneEach(cfg: Config, n: nat)
    requires OneEach(cfg) && n <= |cfg.messages|
    ensures Drawn(cfg, n) == n && Emit(cfg, Outgoing(cfg, n)).alive
  {
    DrawnEvenly(cfg, n, 1);
    TimesIsProduct(n, 1);
  }

  /** Steps still to be taken: a call is one to ask, one to take, and what the replier does in between. */
  function Remaining(cfg: Config, s: State): int {
    (|cfg.messages| - s.sent) + (|cfg.messages| - |s.taken|)
    + (|cfg.messages| - s.sent + |s.requests|) * (|cfg.callbacks| + 2)
    + if s.server.Serving? then |cfg.callbacks| + 1 - s.server.next else 0
  }

  /** No process has raised. */
  predicate Up(s: State) {
    !s.halted && !s.server.Raised?
  }

  lemma RemainingServe(cfg: Config, s: State)
    requires OneEach(cfg) && Inv(cfg, s) && Up(s) && Enabled(cfg, s, Serve)
    ensures Up(Apply(cfg, s, Serve)) && Remaining(cfg, Apply(cfg, s, Serve)) + 1 == Remaining(cfg, s)
  {
    var c, w := Consumed(cfg, s), |cfg.callbacks| + 2;
    OutgoingWhole(cfg, s.sent);
    assert s.requests[0] == cfg.messages[c] && Yields(cfg, c, 1);
    var n := |cfg.messages| - s.sent + |s.requests|;
    assert (n - 1) * w == n * w - w;
  }

  lemma RemainingCall(cfg: Config, s: State)
    requires OneEach(cfg) && Inv(cfg, s) && Up(s) && Enabled(cfg, s, Call)
    ensures Up(Apply(cfg, s, Call)) && Remaining(cfg, Apply(cfg, s, Call)) + 1 == Remaining(cfg, s)
  {
    var c, n, data := Consumed(cfg, s), s.server.next, s.server.data;
    OutgoingWhole(cfg, s.sent);
    assert Yields(cfg, c - 1, 1);
    AnswersWithin(cfg.bound, cfg.callbacks, data, n + 1, |cfg.callbacks|);
  }

  lemma RemainingStep(cfg: Config, s: State, step: Step)
    requires OneEach(cfg) && Inv(cfg, s) && Up(s) && Enabled(cfg, s, step)
    ensures Up(Apply(cfg, s, step)) && Remaining(cfg, Apply(cfg, s, step)) + 1 == Remaining(cfg, s)
  {
    match step
    case Serve => RemainingServe(cfg, s);
    case Call => RemainingCall(cfg, s);
    case Ask => assert |Post(cfg.bound, cfg.messages[s.sent]).out| == 1;
    case _ =>
  }

  lemma {:induction false} RemainingRun(cfg: Config, steps: seq<Step>, s: State)
    requires OneEach(cfg) && Exec(cfg, steps) == Some(s)
    ensures Up(s) && |steps| + Remaining(cfg, s) == |cfg.messages| * (|cfg.callbacks| + 4)
  {
    if steps == [] {
      var n, k := |cfg.messages|, |cfg.callbacks|;
      assert n * (k + 4) == n * (k + 2) + 2 * n;
    } else {
      var r := Exec(cfg, steps[..|steps| - 1]).value;
      RemainingRun(cfg, steps[..|steps| - 1], r);
      InvRun(cfg, steps[..|steps| - 1]);
      RemainingStep(cfg, r, steps[|steps| - 1]);
    }
  }

  /** A run in which nothing more can happen has answered every message. */
  lemma StuckIsDone(cfg: Config, steps: seq<Step>, s: State)
    requires OneEach(cfg) && Exec(cfg, steps) == Some(s) && forall step :: !Enabled(cfg, s, step)
    ensures s.sent == |s.taken| == |cfg.messages| && s.requests == [] && s.server.Listening? && s.replies == []
  {
    RemainingRun(cfg, steps, s);
    assert !Enabled(cfg, s, Ask) && !Enabled(cfg, s, Take) && !Enabled(cfg, s, Serve);
    assert !Enabled(cfg, s, Call) && !Enabled(cfg, s, Finish);
    QuietSentAll(cfg, steps, s);
    DrawnOneEach(cfg, s.sent);
    InvRun(cfg, steps);
  }

  /** Every call that returns, on any run, returns what its own message drew. */
  lemma EachReturnsOwn(cfg: Config, steps: seq<Step>, s: State, j: nat)
    requires OneEach(cfg) && Exec(cfg, steps) == Some(s) && j < |s.taken|
    ensures Yields(cfg, j, 1) && s.taken[j] == Reaction(cfg, cfg.messages[j]).out[0]
  {
    TakenBound(cfg, steps, s);
    DrawnOneEach(cfg, |cfg.messages|);
    DrawnOneEach(cfg, j);
    DrawnOneEach(cfg, j + 1);
    assert Yields(cfg, j, 1);
    TakenFrom(cfg, steps, s, j, j);
  }

  lemma NotNegative(n: nat, w: nat)
    ensures n * w >= 0
  {
  }

  lemma RemainingBound(cfg: Config, steps: seq<Step>, s: State)
    requires Exec(cfg, steps) == Some(s)
    ensures s.sent <= |cfg.messages| && |s.taken| <= s.sent
    ensures Remaining(cfg, s) >= (|cfg.messages| - s.sent) + (|cfg.messages| - |s.taken|)
  {
    InvRun(cfg, steps);
    NotNegative(|cfg.messages| - s.sent + |s.requests|, |cfg.callbacks| + 2);
  }

  lemma StepsLeft(cfg: Config, steps: seq<Step>, s: State)
    requires OneEach(cfg) && Exec(cfg, steps) == Some(s)
    ensures s.sent <= |cfg.messages| && |s.taken| <= |cfg.messages|
    ensures Remaining(cfg, s) >= 0 && (Remaining(cfg, s) == 0 ==> |s.taken| == |cfg.messages|)
    ensures Remaining(cfg, s) > 0 <==> exists step :: Enabled(cfg, s, step)
  {
    RemainingRun(cfg, steps, s);
    RemainingBound(cfg, steps, s);
    if step :| Enabled(cfg, s, step) {
      var steps', t := Extend(cfg, steps, s, step);
      InvRun(cfg, steps);
      RemainingStep(cfg, s, step);
      RemainingBound(cfg, steps', t);
    } else {
      StuckIsDone(cfg, steps, s);
    }
  }

  /**
   If every message draws exactly one datagram, then no run deadlocks or goes on for ever: steps are possible until
   exactly |messages| * (|callbacks| + 4) have been taken, and then every call has returned what its own message drew.
   */
  lemma EachCallAnswered(cfg: Config, steps: seq<Step>, s: State)
    requires OneEach(cfg) && Exec(cfg, steps) == Some(s)
    ensures forall j :: 0 <= j < |s.taken| ==>
              Yields(cfg, j, 1)
              && Result(cfg, s, j) == Cut(cfg.clientSize, Reaction(cfg, cfg.messages[j]).out[0])
    ensures var n := |cfg.messages| * (|cfg.callbacks| + 4);
            && |steps| <= n && (|steps| == n ==> |s.taken| == |cfg.messages|)
            && (|steps| < n <==> exists step :: Enabled(cfg, s, step))
  {
    RemainingRun(cfg, steps, s);
    StepsLeft(cfg, steps, s);
    forall j | 0 <= j < |s.taken|
      ensures Yields(cfg, j, 1) && s.taken[j] == Reaction(cfg, cfg.messages[j]).out[0] {
      EachReturnsOwn(cfg, steps, s, j);
    }
  }
}
