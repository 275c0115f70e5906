/**
 `PublisherThread` (Python): one thread walks the client list by index to publish while the listener thread appends to
 it and removes from it. Each list operation is atomic; between any two of the walk's steps the listener may do any
 number of them.
 */
module PyPublisher {
  import opened Sequences
  import opened Datagrams
  import opened Utf8
  import opened PyRegistry
  import opened PyUdpSocket

  /** A place in the list, told apart from every other by its number; `seen` once the walk has sent to it. */
  datatype Slot = Slot(id: nat, addr: Addr, seen: bool)

  /** `next` is the list iterator's index. `lost` counts removals of slots already sent to, `removed` all removals. */
  datatype Walk = Walk(slots: seq<Slot>, serial: nat, next: nat, sent: seq<nat>, targets: seq<Addr>, lost: nat,
                       removed: nat, done: bool)

  datatype Tick = Listener(c: Control) | Next

  function Addresses(slots: seq<Slot>): (r: seq<Addr>)
    ensures |r| == |slots| && forall i :: 0 <= i < |slots| ==> r[i] == slots[i].addr
  {
    seq(|slots|, i requires 0 <= i < |slots| => slots[i].addr)
  }

  function FirstAt(slots: seq<Slot>, a: Addr): nat {
    FirstOf(Addresses(slots), a)
  }

  function Start(list: seq<Addr>): Walk {
    Walk(seq(|list|, i requires 0 <= i < |list| => Slot(i, list[i], false)), |list|, 0, [], [], 0, 0, false)
  }

  /** One step of either thread; once the walk has run off the end, `publish` has returned. */
  function Play(w: Walk, t: Tick): Walk {
    if w.done then w
    else
      match t
      case Next =>
        if w.next < |w.slots| then
          var s := w.slots[w.next];
          w.(slots := w.slots[w.next := s.(seen := true)], next := w.next + 1, sent := w.sent + [s.id],
             targets := w.targets + [s.addr])
        else w.(done := true)
      case Listener(Ignored) => w
      case Listener(Subscribe(a)) => w.(slots := w.slots + [Slot(w.serial, a, false)], serial := w.serial + 1)
      case Listener(Shutdown(a)) =>
        var k := FirstAt(w.slots, a);
        if k == |w.slots| then w
        else w.(slots := RemoveAt(w.slots, k), removed := w.removed + 1,
                lost := w.lost + if w.slots[k].seen then 1 else 0)
  }

  function PlayAll(w: Walk, ticks: seq<Tick>): Walk {
    Fold(Play, w, ticks)
  }

  function Listening(cs: seq<Control>): seq<Tick> {
    seq(|cs|, i requires 0 <= i < |cs| => Listener(cs[i]))
  }

  /** The first `n` steps of the walk, each preceded by what the listener does before it. */
  function Rounds(between: seq<seq<Control>>, n: nat): seq<Tick> {
    if n == 0 then [] else Rounds(between, n - 1) + Meanwhile(between, n - 1) + [Next]
  }

  function Meanwhile(between: seq<seq<Control>>, n: nat): seq<Tick> {
    Listening(if n < |between| then between[n] else [])
  }

  /** What the listener does in the course of `ticks`. */
  function Heeded(ticks: seq<Tick>): seq<Control> {
    if ticks == [] then []
    else
      var before, t := Heeded(ticks[..|ticks| - 1]), ticks[|ticks| - 1];
      if t.Listener? then before + [t.c] else before
  }

  /** Everything in the first `n` of `between`, in order. */
  function Before(between: seq<seq<Control>>, n: nat): seq<Control> {
    if n == 0 then [] else Before(between, n - 1) + if n <= |between| then between[n - 1] else []
  }

  lemma {:induction false} HeededAppend(ticks: seq<Tick>, us: seq<Tick>)
    ensures Heeded(ticks + us) == Heeded(ticks) + Heeded(us)
  {
    if us == [] {
      assert ticks + us == ticks;
    } else {
      assert (ticks + us)[..|ticks + us| - 1] == ticks + us[..|us| - 1];
      HeededAppend(ticks, us[..|us| - 1]);
    }
  }

  lemma {:induction false} HeededListening(cs: seq<Control>)
    ensures Heeded(Listening(cs)) == cs
  {
    if cs != [] {
      assert Listening(cs)[..|cs| - 1] == Listening(cs[..|cs| - 1]);
      HeededListening(cs[..|cs| - 1]);
    }
  }

  lemma HeededRound(ticks: seq<Tick>, cs: seq<Control>)
    ensures Heeded(ticks + Listening(cs) + [Next]) == Heeded(ticks) + cs
  {
    HeededListening(cs);
    HeededAppend(ticks, Listening(cs));
    assert (ticks + Listening(cs) + [Next])[..|ticks + Listening(cs)|] == ticks + Listening(cs);
  }

  /** By its `n`-th step the walk has let the listener do all of the first `n` parts of `between`, and no more. */
  lemma {:induction false} RoundsHeed(between: seq<seq<Control>>, n: nat)
    ensures Heeded(Rounds(between, n)) == Before(between, n)
    ensures |Rounds(between, n)| == |Before(between, n)| + n
  {
    if n > 0 {
      RoundsHeed(between, n - 1);
      HeededRound(Rounds(between, n - 1), if n - 1 < |between| then between[n - 1] else []);
    }
  }

  lemma RoundStep(w: Walk, between: seq<seq<Control>>, n: nat)
    ensures PlayAll(w, Rounds(between, n + 1))
            == Play(PlayAll(PlayAll(w, Rounds(between, n)), Meanwhile(between, n)), Next)
  {
    FoldAppend(Play, w, Rounds(between, n), Meanwhile(between, n));
    FoldPush(Play, w, Rounds(between, n) + Meanwhile(between, n), Next);
  }

  lemma AddressesRemoveAt(slots: seq<Slot>, k: nat)
    requires k < |slots|
    ensures Addresses(RemoveAt(slots, k)) == RemoveAt(Addresses(slots), k)
  {
  }

  /** A step of the listener changes the numbered list as it changes the plain one. */
  lemma ListenerHandles(w: Walk, c: Control)
    requires !w.done
    ensures Addresses(Play(w, Listener(c)).slots) == Handle(Addresses(w.slots), c)
    ensures var v := Play(w, Listener(c)); !v.done && v.next == w.next && v.targets == w.targets
  {
    match c
    case Ignored =>
    case Subscribe(a) =>
      assert Addresses(w.slots + [Slot(w.serial, a, false)]) == Addresses(w.slots) + [a];
    case Shutdown(a) =>
      RemoveIsRemoveAt(Addresses(w.slots), a);
      if FirstAt(w.slots, a) < |w.slots| {
        AddressesRemoveAt(w.slots, FirstAt(w.slots, a));
      }
  }

  function ToOne(a: Addr, parts: seq<Message>): seq<(Addr, Message)> {
    seq(|parts|, i requires 0 <= i < |parts| => (a, parts[i]))
  }

  /** The same pieces to each address in turn. */
  function ToEach(targets: seq<Addr>, parts: seq<Message>): seq<(Addr, Message)> {
    if targets == [] then [] else ToEach(targets[..|targets| - 1], parts) + ToOne(targets[|targets| - 1], parts)
  }

  lemma ToEachPush(targets: seq<Addr>, a: Addr, parts: seq<Message>)
    ensures ToEach(targets + [a], parts) == ToEach(targets, parts) + ToOne(a, parts)
  {
    assert (targets + [a])[..|targets|] == targets;
  }

  /** Client `i` gets piece `j` in its turn: all pieces go to the first client, then all to the second, and so on. */
  lemma {:induction false} EachGetsAll(targets: seq<Addr>, parts: seq<Message>, i: nat, j: nat)
    requires i < |targets| && j < |parts|
    ensures |ToEach(targets, parts)| == |targets| * |parts|
    ensures 0 <= i * |parts| + j < |ToEach(targets, parts)|
    ensures ToEach(targets, parts)[i * |parts| + j] == (targets[i], parts[j])
  {
    var n := |targets| - 1;
    ToEachLength(targets[..n], parts);
    ToEachLength(targets, parts);
    assert |targets| * |parts| == n * |parts| + |parts|;
    if i < n {
      EachGetsAll(targets[..n], parts, i, j);
    }
  }

  lemma {:induction false} ToEachLength(targets: seq<Addr>, parts: seq<Message>)
    ensures |ToEach(targets, parts)| == |targets| * |parts|
  {
    if targets != [] {
      ToEachLength(targets[..|targets| - 1], parts);
      assert |targets| * |parts| == (|targets| - 1) * |parts| + |parts|;
    }
  }

  class PublisherThread {
    var clientaddr: seq<Addr>

    constructor ()
      ensures clientaddr == []
    {
      clientaddr := [];
    }

    /** The listener thread, up to any point of its endless loop. */
    method Listen(received: seq<Incoming>)
      modifies this
      ensures clientaddr == Registry(old(clientaddr), Controls(received))
    {
      ghost var history := Controls(received);
      for n := 0 to |received|
        invariant clientaddr == Registry(old(clientaddr), history[..n])
      {
        assert history[..n + 1][..n] == history[..n];
        if received[n].Datagram? {
          var data := received[n].data[..Min(LISTEN_SIZE, |received[n].data|)];
          var msg := Decode(data);
          if data == [] || msg.None? {
            continue;
          }
          if msg.value == SUBSCRIBE {
            clientaddr := clientaddr + [received[n].from];
          } else if msg.value == SHUTDOWN {
            clientaddr := Remove(clientaddr, received[n].from);
          }
        }
      }
      assert history[..|received|] == history;
    }

    /** The listener gets to run. */
    method Preempt(cs: seq<Control>, ghost w: Walk)
      requires !w.done && clientaddr == Addresses(w.slots)
      modifies this
      ensures var u := PlayAll(w, Listening(cs));
              !u.done && u.next == w.next && u.targets == w.targets && clientaddr == Addresses(u.slots)
    {
      ghost var all := Listening(cs);
      for n := 0 to |cs|
        invariant var u := PlayAll(w, all[..n]);
                  !u.done && u.next == w.next && u.targets == w.targets && clientaddr == Addresses(u.slots)
      {
        ListenerHandles(PlayAll(w, all[..n]), cs[n]);
        FoldPush(Play, w, all[..n], all[n]);
        assert all[..n + 1] == all[..n] + [all[n]];
        clientaddr := Handle(clientaddr, cs[n]);
      }
      assert all[..|cs|] == all;
    }

    /** The list iterator at index `i` is asked for the next client, after the listener has handled `cs`. */
    method NextClient(i: nat, cs: seq<Control>, ghost w: Walk) returns (client: Option<Addr>, ghost v: Walk)
      requires !w.done && w.next == i && clientaddr == Addresses(w.slots)
      modifies this
      ensures v == Play(PlayAll(w, Listening(cs)), Next) && clientaddr == Addresses(v.slots)
      ensures client.None? ==> v.done && v.targets == w.targets
      ensures client.Some? ==> !v.done && v.next == i + 1 && v.targets == w.targets + [client.value]
      ensures client.Some? ==> i < |clientaddr|
      ensures cs == [] ==> clientaddr == old(clientaddr)
    {
      if cs != [] {
        Preempt(cs, w);
      }
      v := PlayAll(w, Listening(cs));
      NextSends(v);
      client := if i < |clientaddr| then Some(clientaddr[i]) else None;
      v := Play(v, Next);
    }

    /**
     The `for` loop over the list being changed: `between[k]` is what the listener does before the loop's k-th step.
     Returns the addresses sent to, in order, the datagrams that went to them, and whether a send raised, which ends the
     loop at its first client; `bound` says whether `buffer` names the data, as was intended.
     */
    method Publish(data: Message, bound: bool, between: seq<seq<Control>>)
      returns (targets: seq<Addr>, sent: seq<(Addr, Message)>, raised: bool, ghost rounds: nat)
      modifies this
      ensures var w := PlayAll(Start(old(clientaddr)), Rounds(between, rounds));
              && targets == w.targets && clientaddr == Addresses(w.slots)
              && (if raised then !w.done && |targets| == 1 else w.done)
      ensures sent == ToEach(targets, Post(bound, data).out)
      ensures raised <==> targets != [] && !Post(bound, data).alive
    {
      targets, sent, raised, rounds := [], [], false, 0;
      ghost var start := Start(clientaddr);
      ghost var w := start;
      var i := 0;
      while true
        invariant i == rounds && w == PlayAll(start, Rounds(between, rounds))
        invariant !w.done && w.next == i && w.targets == targets && clientaddr == Addresses(w.slots)
        invariant sent == ToEach(targets, Post(bound, data).out) && (targets != [] ==> Post(bound, data).alive)
        decreases if i < |between| then |between| - i else 0, if i < |between| then 0 else |clientaddr| - i
      {
        RoundStep(start, between, rounds);
        assert PlayAll(start, Rounds(between, rounds + 1)) == Play(PlayAll(w, Meanwhile(between, rounds)), Next);
        var client;
        client, w := NextClient(i, if i < |between| then between[i] else [], w);
        i, rounds := i + 1, rounds + 1;
        if client.None? {
          return;
        }
        var one, alive := SendToOne(data, bound, client.value);
        ToEachPush(targets, client.value, Post(bound, data).out);
        targets, sent := targets + [client.value], sent + one;
        if !alive {
          return targets, sent, true, rounds;
        }
      }
    }

    method SendToOne(data: Message, bound: bool, addr: Addr) returns (sent: seq<(Addr, Message)>, alive: bool)
      ensures sent == ToOne(addr, Post(bound, data).out) && alive == Post(bound, data).alive
    {
      var parts, outcome := SendTo(data, MAX_PACKET_SIZE, if bound then Some(data) else None);
      sent, alive := ToOne(addr, parts), outcome.Returned?;
    }
  }

  /** A step of the walk sends to the next address, or ends the walk, and leaves the list as it is. */
  lemma NextSends(w: Walk)
    requires !w.done
    ensures var v := Play(w, Next);
            && Addresses(v.slots) == Addresses(w.slots)
            && (if w.next < |w.slots| then
                  !v.done && v.next == w.next + 1 && v.targets == w.targets + [w.slots[w.next].addr]
                else v.done && v.targets == w.targets)
  {
    if w.next < |w.slots| {
      SeenKeepsAddresses(w.slots, w.next);
    }
  }

  lemma SeenKeepsAddresses(slots: seq<Slot>, i: nat)
    requires i < |slots|
    ensures Addresses(slots[i := slots[i].(seen := true)]) == Addresses(slots)
  {
  }

  /** Everyone ever listed, by slot number: those at the start, then those who subscribed. */
  function Ever(list: seq<Addr>, ticks: seq<Tick>): seq<Addr> {
    if ticks == [] then list
    else
      var before, t := Ever(list, ticks[..|ticks| - 1]), ticks[|ticks| - 1];
      if t.Listener? && t.c.Subscribe? then before + [t.c.addr] else before
  }

  /** A slot's number says whose it is, and what was sent to a slot was sent to its address. */
  predicate Addressed(w: Walk, ever: seq<Addr>) {
    && w.serial <= |ever| && (w.done || w.serial == |ever|) && |w.sent| == |w.targets|
    && (forall j :: 0 <= j < |w.slots| ==> w.slots[j].id < |ever| && w.slots[j].addr == ever[w.slots[j].id])
    && (forall i :: 0 <= i < |w.sent| ==> w.sent[i] < |ever| && w.targets[i] == ever[w.sent[i]])
  }

  lemma AddressedStep(w: Walk, t: Tick, ever: seq<Addr>, ever': seq<Addr>)
    requires Addressed(w, ever)
    requires ever' == if t.Listener? && t.c.Subscribe? then ever + [t.c.addr] else ever
    ensures Addressed(Play(w, t), ever')
  {
  }

  /** On every interleaving, each datagram of the walk went to the client whose slot it was sent for. */
  lemma {:induction false} SentToOwners(list: seq<Addr>, ticks: seq<Tick>)
    ensures Addressed(PlayAll(Start(list), ticks), Ever(list, ticks))
  {
    if ticks != [] {
      var front, t := ticks[..|ticks| - 1], ticks[|ticks| - 1];
      SentToOwners(list, front);
      AddressedStep(PlayAll(Start(list), front), t, Ever(list, front), Ever(list, ticks));
    }
  }

  /** Slots the walk has not sent to. */
  function Unseen(): Slot -> nat {
    (s: Slot) => if s.seen then 0 else 1
  }

  predicate Increasing(ns: seq<nat>) {
    forall i, j :: 0 <= i < j < |ns| ==> ns[i] < ns[j]
  }

  /** Slots are numbered upwards. */
  predicate Numbered(slots: seq<Slot>, serial: nat) {
    && (forall i, j :: 0 <= i < j < |slots| ==> slots[i].id < slots[j].id)
    && (forall i :: 0 <= i < |slots| ==> slots[i].id < serial)
  }

  /** Everything ahead of the iterator is numbered above everything sent. */
  predicate Ahead(slots: seq<Slot>, next: nat, sent: seq<nat>, serial: nat) {
    && Increasing(sent)
    && (forall i :: 0 <= i < |sent| ==> sent[i] < serial)
    && (forall i, j :: 0 <= i < |sent| && next <= j < |slots| ==> sent[i] < slots[j].id)
  }

  /** The marks are right. */
  predicate Marked(slots: seq<Slot>, sent: seq<nat>) {
    forall j :: 0 <= j < |slots| ==> (slots[j].seen <==> slots[j].id in sent)
  }

  predicate Ordered(w: Walk) {
    Numbered(w.slots, w.serial) && Ahead(w.slots, w.next, w.sent, w.serial) && Marked(w.slots, w.sent)
    && |w.targets| == |w.sent|
  }

  lemma OrderedNext(w: Walk)
    requires Ordered(w) && w.next < |w.slots| && !w.done
    ensures Ordered(Play(w, Next))
  {
    var v := Play(w, Next);
    assert forall j :: 0 <= j < |w.slots| ==> v.slots[j].id == w.slots[j].id;
    assert Numbered(v.slots, v.serial);
    assert Ahead(v.slots, v.next, v.sent, v.serial);
    assert forall n :: n in v.sent <==> n in w.sent || n == w.slots[w.next].id;
  }

  lemma OrderedAppend(w: Walk, a: Addr)
    requires Ordered(w)
    ensures Ordered(Play(w, Listener(Subscribe(a))))
  {
  }

  lemma OrderedRemove(w: Walk, k: nat)
    requires Ordered(w) && k < |w.slots|
    ensures Ordered(w.(slots := RemoveAt(w.slots, k)))
  {
    var left := RemoveAt(w.slots, k);
    assert forall j :: 0 <= j < |left| ==> left[j] == if j < k then w.slots[j] else w.slots[j + 1];
    assert Numbered(left, w.serial);
    assert Marked(left, w.sent);
  }

  lemma OrderedStep(w: Walk, t: Tick)
    requires Ordered(w)
    ensures Ordered(Play(w, t))
  {
    if !w.done {
      match t
      case Next =>
        if w.next < |w.slots| {
          OrderedNext(w);
        }
      case Listener(Subscribe(a)) => OrderedAppend(w, a);
      case Listener(Shutdown(a)) =>
        if FirstAt(w.slots, a) < |w.slots| {
          OrderedRemove(w, FirstAt(w.slots, a));
        }
      case Listener(Ignored) =>
    }
  }

  /** Slots before position `n` not sent to, each place by which `n` stands beyond the list's end counting as one. */
  function Skipped(slots: seq<Slot>, n: nat): nat {
    if n <= |slots| then Sum(slots[..n], Unseen()) else Sum(slots, Unseen()) + (n - |slots|)
  }

  lemma SkippedNext(slots: seq<Slot>, n: nat)
    requires n < |slots|
    ensures Skipped(slots[n := slots[n].(seen := true)], n + 1) == Skipped(slots, n)
  {
    var after := slots[n := slots[n].(seen := true)];
    SumPush(slots[..n], after[n], Unseen());
    assert after[..n + 1] == slots[..n] + [after[n]];
  }

  lemma SkippedAppend(slots: seq<Slot>, n: nat, s: Slot)
    requires !s.seen
    ensures Skipped(slots + [s], n) == Skipped(slots, n)
  {
    if n <= |slots| {
      assert (slots + [s])[..n] == slots[..n];
    } else {
      SumPush(slots, s, Unseen());
      assert (slots + [s])[..|slots| + 1] == slots + [s];
    }
  }

  lemma SkippedRemoveAhead(slots: seq<Slot>, n: nat, k: nat)
    requires n <= k < |slots|
    ensures Skipped(RemoveAt(slots, k), n) == Skipped(slots, n)
  {
    assert RemoveAt(slots, k)[..n] == slots[..n];
  }

  /** Taking out a slot behind the iterator pulls one unsent slot past it ... */
  lemma SkippedRemoveInside(slots: seq<Slot>, n: nat, k: nat)
    requires k < n < |slots| && !slots[n].seen
    ensures Skipped(RemoveAt(slots, k), n) == Skipped(slots, n) + if slots[k].seen then 1 else 0
  {
    var before := slots[..n];
    SumRemove(before, k, Unseen());
    SumPush(RemoveAt(before, k), slots[n], Unseen());
    assert RemoveAt(slots, k)[..n] == RemoveAt(before, k) + [slots[n]];
  }

  /** ... or, when the walk has come to the end, the list's end. */
  lemma SkippedRemoveAtEnd(slots: seq<Slot>, n: nat, k: nat)
    requires k < |slots| <= n
    ensures Skipped(RemoveAt(slots, k), n) == Skipped(slots, n) + if slots[k].seen then 1 else 0
  {
    SumRemove(slots, k, Unseen());
    assert n == |slots| ==> slots[..n] == slots;
  }

  lemma UnseenAhead(w: Walk, j: nat)
    requires Ordered(w) && w.next <= j < |w.slots|
    ensures !w.slots[j].seen
  {
  }

  /** Exactly the removal of a slot already sent to makes the walk pass over one more. */
  lemma SkippedStep(w: Walk, t: Tick)
    requires Ordered(w) && !w.done
    ensures var v := Play(w, t); Skipped(v.slots, v.next) - Skipped(w.slots, w.next) == v.lost - w.lost
  {
    match t
    case Next =>
      if w.next < |w.slots| {
        SkippedNext(w.slots, w.next);
      }
    case Listener(Ignored) =>
    case Listener(Subscribe(a)) => SkippedAppend(w.slots, w.next, Slot(w.serial, a, false));
    case Listener(Shutdown(a)) =>
      var k := FirstAt(w.slots, a);
      if w.next <= k < |w.slots| {
        UnseenAhead(w, k);
        SkippedRemoveAhead(w.slots, w.next, k);
      } else if k < w.next < |w.slots| {
        UnseenAhead(w, w.next);
        SkippedRemoveInside(w.slots, w.next, k);
      } else if k < |w.slots| {
        SkippedRemoveAtEnd(w.slots, w.next, k);
      }
  }

  function Appended(ticks: seq<Tick>): nat {
    if ticks == [] then 0
    else
      var t := ticks[|ticks| - 1];
      Appended(ticks[..|ticks| - 1]) + if t.Listener? && t.c.Subscribe? then 1 else 0
  }

  predicate InStep(w: Walk) {
    w.removed == 0 ==>
      && w.next == |w.sent| == |w.targets| <= |w.slots| == w.serial
      && (forall i :: 0 <= i < |w.slots| ==> w.slots[i].id == i)
      && (forall i :: 0 <= i < w.next ==> w.sent[i] == i && w.targets[i] == w.slots[i].addr)
  }

  lemma InStepStep(w: Walk, t: Tick)
    requires InStep(w)
    ensures InStep(Play(w, t))
  {
  }

  lemma {:induction false} WalkInvariant(list: seq<Addr>, ticks: seq<Tick>)
    ensures var w := PlayAll(Start(list), ticks); Ordered(w) && InStep(w) && Skipped(w.slots, w.next) == w.lost
  {
    if ticks != [] {
      WalkInvariant(list, ticks[..|ticks| - 1]);
      var w, t := PlayAll(Start(list), ticks[..|ticks| - 1]), ticks[|ticks| - 1];
      OrderedStep(w, t);
      InStepStep(w, t);
      if !w.done {
        SkippedStep(w, t);
      }
    } else {
      assert Start(list).slots[..0] == [];
    }
  }

  lemma {:induction false} WalkBounds(list: seq<Addr>, ticks: seq<Tick>)
    ensures var w := PlayAll(Start(list), ticks);
            && w.lost <= w.removed
            && w.serial <= |list| + Appended(ticks)
            && (w.done ==> w.next >= |w.slots|)
  {
    if ticks != [] {
      WalkBounds(list, ticks[..|ticks| - 1]);
    }
  }

  lemma {:induction false} IncreasingIsShort(ns: seq<nat>, bound: nat)
    requires Increasing(ns) && forall i :: 0 <= i < |ns| ==> ns[i] < bound
    ensures |ns| <= bound
  {
    if ns != [] {
      IncreasingIsShort(ns[..|ns| - 1], ns[|ns| - 1]);
    }
  }

  /**
   Publish racing the listener, for every interleaving. No slot is sent to twice. The walk sends at most as many
   datagrams as there were slots and appends, so it ends if the appends do. When it has ended, the slots still listed
   that it did not send to number exactly the removals of slots already sent to, less the places by which it overran the
   list; so at most one slot is skipped for each removal. Without removals every slot was sent to, in list order.
   */
  lemma PublishRace(list: seq<Addr>, ticks: seq<Tick>)
    ensures var w := PlayAll(Start(list), ticks);
            && Increasing(w.sent)
            && |w.targets| == |w.sent| <= |list| + Appended(ticks)
            && (forall j :: 0 <= j < |w.slots| ==> (w.slots[j].seen <==> w.slots[j].id in w.sent))
            && (w.done ==> w.next >= |w.slots| && Sum(w.slots, Unseen()) + (w.next - |w.slots|) == w.lost <= w.removed)
            && (w.done && w.removed == 0 ==> w.targets == Addresses(w.slots))
            && (w.removed == 0 ==> |list| <= |w.slots| && Addresses(w.slots)[..|list|] == list)
  {
    var w := PlayAll(Start(list), ticks);
    WalkInvariant(list, ticks);
    WalkBounds(list, ticks);
    IncreasingIsShort(w.sent, w.serial);
    assert w.next == |w.slots| ==> w.slots[..w.next] == w.slots;
    OnlyAppends(list, ticks);
  }

  lemma {:induction false} OnlyAppends(list: seq<Addr>, ticks: seq<Tick>)
    ensures var w := PlayAll(Start(list), ticks);
            w.removed == 0 ==> |list| <= |w.slots| && forall i :: 0 <= i < |list| ==> w.slots[i].addr == list[i]
  {
    if ticks != [] {
      OnlyAppends(list, ticks[..|ticks| - 1]);
    }
  }

  lemma {:induction false} NoneUnseen(slots: seq<Slot>)
    ensures Sum(slots, Unseen()) == 0 <==> forall i :: 0 <= i < |slots| ==> slots[i].seen
  {
    if slots != [] {
      NoneUnseen(slots[..|slots| - 1]);
    }
  }

  /**
   Exactly when a finished walk has served everyone who is still listed: when the removals of slots already sent to are
   as many as the places by which the iterator ended up beyond the list's end.
   */
  lemma AllServed(list: seq<Addr>, ticks: seq<Tick>)
    ensures var w := PlayAll(Start(list), ticks);
            w.done ==>
              w.next >= |w.slots|
              && ((forall i :: 0 <= i < |w.slots| ==> w.slots[i].seen) <==> w.lost == w.next - |w.slots|)
  {
    PublishRace(list, ticks);
    NoneUnseen(PlayAll(Start(list), ticks).slots);
  }

  lemma PlayPush(w: Walk, ticks: seq<Tick>, t: Tick)
    ensures PlayAll(w, ticks + [t]) == Play(PlayAll(w, ticks), t)
  {
    FoldPush(Play, w, ticks, t);
  }

  /** Client 1 is served and leaves; client 2 moves into its place, behind the iterator, and is missed. */
  lemma ClientMissed() returns (w: Walk)
    ensures w == PlayAll(Start([1, 2, 3]), [Next] + [Listener(Shutdown(1))] + [Next] + [Next])
    ensures w.done && w.targets == [1, 3] && Addresses(w.slots) == [2, 3] && w.lost == 1 && w.next == |w.slots|
  {
    w := Start([1, 2, 3]);
    PlayPush(Start([1, 2, 3]), [], Next);
    w := Play(w, Next);
    assert w.slots == [Slot(0, 1, true), Slot(1, 2, false), Slot(2, 3, false)];
    PlayPush(Start([1, 2, 3]), [Next], Listener(Shutdown(1)));
    w := Play(w, Listener(Shutdown(1)));
    assert w.slots == [Slot(1, 2, false), Slot(2, 3, false)];
    PlayPush(Start([1, 2, 3]), [Next] + [Listener(Shutdown(1))], Next);
    w := Play(w, Next);
    PlayPush(Start([1, 2, 3]), [Next] + [Listener(Shutdown(1))] + [Next], Next);
    w := Play(w, Next);
    assert [] + [Next] == [Next];
  }

  /** The only client is served and leaves: nobody is missed, and the iterator has overrun the list by one. */
  lemma NobodyMissed() returns (w: Walk)
    ensures w == PlayAll(Start([1]), [Next] + [Listener(Shutdown(1))] + [Next])
    ensures w.done && w.targets == [1] && w.slots == [] && w.lost == 1 && w.next == 1
  {
    w := Start([1]);
    PlayPush(Start([1]), [], Next);
    w := Play(w, Next);
    assert w.slots == [Slot(0, 1, true)];
    PlayPush(Start([1]), [Next], Listener(Shutdown(1)));
    w := Play(w, Listener(Shutdown(1)));
    PlayPush(Start([1]), [Next] + [Listener(Shutdown(1))], Next);
    w := Play(w, Next);
    assert [] + [Next] == [Next];
  }
}
