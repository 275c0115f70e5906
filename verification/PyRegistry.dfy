/** `PublisherThread.__listen` (Python): the client list that subscribe and shutdown messages build up. */
module PyRegistry {
  import opened Sequences
  import opened Datagrams
  import opened Utf8

  const LISTEN_SIZE := 100
  const SUBSCRIBE: Text := [115, 117, 98, 115, 99, 114, 105, 98, 101]
  const SHUTDOWN: Text := [115, 104, 117, 116, 100, 111, 119, 110]

  datatype Incoming = TimedOut | Datagram(data: Message, from: Addr)

  datatype Control = Ignored | Subscribe(addr: Addr) | Shutdown(addr: Addr)

  /** What the listener makes of a receive: undecodable and unknown messages do nothing. */
  function Heard(m: Incoming): Control {
    match m
    case TimedOut => Ignored
    case Datagram(bytes, from) =>
      var data := bytes[..Min(LISTEN_SIZE, |bytes|)];
      if data == [] then Ignored
      else
        match Decode(data)
        case None => Ignored
        case Some(msg) =>
          if msg == SUBSCRIBE then Subscribe(from) else if msg == SHUTDOWN then Shutdown(from) else Ignored
  }

  lemma {:induction false} AsciiEncodesItself(t: Text)
    requires forall i :: 0 <= i < |t| ==> t[i] < 0x80
    ensures Encode(t) == Some(t)
  {
    if t != [] {
      AsciiEncodesItself(t[1..]);
      assert t == [t[0]] + t[1..];
    }
  }

  lemma DecodesToAscii(data: Message, t: Text)
    requires forall i :: 0 <= i < |t| ==> t[i] < 0x80
    ensures Decode(data) == Some(t) <==> data == t
  {
    AsciiEncodesItself(t);
    DecodeEncode(t);
    if Decode(data) == Some(t) {
      EncodeDecode(data);
    }
  }

  /** Exactly these byte strings are control messages. */
  lemma ControlBytes(bytes: Message, from: Addr)
    ensures Heard(Datagram(bytes, from)) == Subscribe(from) <==> bytes == SUBSCRIBE
    ensures Heard(Datagram(bytes, from)) == Shutdown(from) <==> bytes == SHUTDOWN
    ensures Heard(Datagram(bytes, from)) in {Ignored, Subscribe(from), Shutdown(from)}
  {
    var data := bytes[..Min(LISTEN_SIZE, |bytes|)];
    DecodesToAscii(data, SUBSCRIBE);
    DecodesToAscii(data, SHUTDOWN);
    assert |bytes| <= LISTEN_SIZE ==> data == bytes;
  }

  /** `list.remove`: the first occurrence goes; without one the list is unchanged (the exception is swallowed). */
  function Remove(list: seq<Addr>, a: Addr): seq<Addr> {
    if list == [] then []
    else if list[0] == a then list[1..]
    else [list[0]] + Remove(list[1..], a)
  }

  /** Position of the first `a`, or the length when there is none. */
  function FirstOf(list: seq<Addr>, a: Addr): (k: nat)
    ensures k <= |list| && (k < |list| ==> list[k] == a)
    ensures forall j :: 0 <= j < k ==> list[j] != a
  {
    FirstWhere(list, b => b == a)
  }

  lemma {:induction false} RemoveIsRemoveAt(list: seq<Addr>, a: Addr)
    ensures Remove(list, a) == if FirstOf(list, a) < |list| then RemoveAt(list, FirstOf(list, a)) else list
  {
    if list != [] {
      var k := FirstOf(list[1..], a);
      RemoveIsRemoveAt(list[1..], a);
      if list[0] == a {
        assert RemoveAt(list, 0) == list[1..];
      } else if k < |list[1..]| {
        RemoveAtTail(list, k);
      } else {
        assert list == [list[0]] + list[1..];
      }
    }
  }

  /** `remove` takes out the first entry of `a`, and only that; without one nothing changes. */
  lemma RemovesFirst(list: seq<Addr>, a: Addr)
    ensures a !in list ==> Remove(list, a) == list
    ensures a in list ==>
              exists k ::
                && 0 <= k < |list| && list[k] == a && a !in list[..k]
                && Remove(list, a) == list[..k] + list[k + 1..]
  {
    var k := FirstOf(list, a);
    RemoveIsRemoveAt(list, a);
    if k < |list| {
      assert a !in list[..k] && RemoveAt(list, k) == list[..k] + list[k + 1..];
    }
  }

  function Handle(list: seq<Addr>, c: Control): seq<Addr> {
    match c
    case Ignored => list
    case Subscribe(a) => list + [a]
    case Shutdown(a) => Remove(list, a)
  }

  function Registry(initial: seq<Addr>, history: seq<Control>): seq<Addr> {
    if history == [] then initial
    else Handle(Registry(initial, history[..|history| - 1]), history[|history| - 1])
  }

  function Controls(received: seq<Incoming>): seq<Control> {
    seq(|received|, i requires 0 <= i < |received| => Heard(received[i]))
  }

  /** Multiplicity of `a`. */
  function Count(list: seq<Addr>, a: Addr): nat {
    if list == [] then 0 else (if list[0] == a then 1 else 0) + Count(list[1..], a)
  }

  lemma {:induction false} CountAppend(list: seq<Addr>, b: Addr, a: Addr)
    ensures Count(list + [b], a) == Count(list, a) + if b == a then 1 else 0
  {
    if list != [] {
      CountAppend(list[1..], b, a);
      assert (list + [b])[1..] == list[1..] + [b];
    }
  }

  lemma {:induction false} CountRemove(list: seq<Addr>, b: Addr, a: Addr)
    ensures Count(Remove(list, b), a) == Count(list, a) - if a == b && Count(list, a) > 0 then 1 else 0
  {
    if list != [] {
      CountRemove(list[1..], b, a);
      assert list[0] != b ==> Remove(list, b)[1..] == Remove(list[1..], b);
    }
  }

  /** Subscribes minus shutdowns of `a`. */
  function Balance(history: seq<Control>, a: Addr): int {
    if history == [] then 0
    else
      Balance(history[..|history| - 1], a)
      + match history[|history| - 1]
        case Subscribe(b) => if b == a then 1 else 0
        case Shutdown(b) => if b == a then -1 else 0
        case Ignored => 0
  }

  /** What the history from position `n` on would leave of `a`, without a floor; position 0 includes the start. */
  function Level(initial: seq<Addr>, history: seq<Control>, n: nat, a: Addr): int
    requires n <= |history|
  {
    Balance(history[n..], a) + if n == 0 then Count(initial, a) else 0
  }

  /**
   Closed form of the registry: after every history, the multiplicity of `a` is the largest balance over all suffixes of
   the history, the empty one included (the whole history counting the entries present at the start).
   */
  lemma {:induction false} RegistryClosedForm(initial: seq<Addr>, history: seq<Control>, a: Addr) returns (best: nat)
    ensures best <= |history| && Count(Registry(initial, history), a) == Level(initial, history, best, a)
    ensures forall n :: 0 <= n <= |history| ==> Level(initial, history, n, a) <= Count(Registry(initial, history), a)
  {
    var m := |history|;
    if m == 0 {
      best := 0;
    } else {
      var front, c := history[..m - 1], history[m - 1];
      var before := Registry(initial, front);
      best := RegistryClosedForm(initial, front, a);
      forall n | 0 <= n < m
        ensures Level(initial, history, n, a) == Level(initial, front, n, a) + Balance([c], a) {
        assert history[n..][..m - n - 1] == front[n..];
        assert [c][..0] == [];
      }
      if c.Subscribe? {
        CountAppend(before, c.addr, a);
      } else if c.Shutdown? {
        CountRemove(before, c.addr, a);
        if c.addr == a && Count(before, a) == 0 {
          best := m;
        }
      }
      assert Level(initial, history, m, a) == 0;
    }
  }

  /** The ASCII bytes of a word. */
  function Spell(word: string): Message
    requires forall i :: 0 <= i < |word| ==> word[i] < 128 as char
  {
    seq(|word|, i requires 0 <= i < |word| => word[i] as int)
  }

  /** Datagrams from `a` that spell "subscribe" minus those that spell "shutdown"; nothing else counts. */
  function Score(received: seq<Incoming>, a: Addr): int {
    if received == [] then 0
    else
      Score(received[..|received| - 1], a)
      + match received[|received| - 1]
        case TimedOut => 0
        case Datagram(data, from) =>
          if from != a then 0
          else if data == Spell("subscribe") then 1
          else if data == Spell("shutdown") then -1
          else 0
  }

  lemma Words()
    ensures SUBSCRIBE == Spell("subscribe") && SHUTDOWN == Spell("shutdown")
  {
    assert Spell("subscribe") == [115, 117, 98, 115, 99, 114, 105, 98, 101];
    assert Spell("shutdown") == [115, 104, 117, 116, 100, 111, 119, 110];
  }

  lemma {:induction false} ScoreIsBalance(received: seq<Incoming>, a: Addr)
    ensures |Controls(received)| == |received| && Balance(Controls(received), a) == Score(received, a)
  {
    if received != [] {
      var front, last := received[..|received| - 1], received[|received| - 1];
      ScoreIsBalance(front, a);
      assert Controls(received)[..|received| - 1] == Controls(front);
      Words();
      if last.Datagram? {
        ControlBytes(last.data, last.from);
      }
    }
  }

  /** What the datagrams from position `n` on would leave of `a`, without a floor; position 0 includes the start. */
  function ReceivedLevel(initial: seq<Addr>, received: seq<Incoming>, n: nat, a: Addr): int
    requires n <= |received|
  {
    Score(received[n..], a) + if n == 0 then Count(initial, a) else 0
  }

  /**
   The closed form over what arrives on the socket: the multiplicity of `a` is the largest score over all suffixes of
   what was received, the empty one included (the whole of it counting the entries present at the start).
   */
  lemma ListenClosedForm(initial: seq<Addr>, received: seq<Incoming>, a: Addr) returns (best: nat)
    ensures best <= |received|
    ensures Count(Registry(initial, Controls(received)), a) == ReceivedLevel(initial, received, best, a)
    ensures forall n :: 0 <= n <= |received| ==>
                          ReceivedLevel(initial, received, n, a) <= Count(Registry(initial, Controls(received)), a)
  {
    ScoreIsBalance(received, a);
    forall n | 0 <= n <= |received|
      ensures ReceivedLevel(initial, received, n, a) == Level(initial, Controls(received), n, a) {
      ScoreIsBalance(received[n..], a);
      assert Controls(received)[n..] == Controls(received[n..]);
    }
    best := RegistryClosedForm(initial, Controls(received), a);
  }

  /** The list without the entries of `a`. */
  function Others(list: seq<Addr>, a: Addr): seq<Addr> {
    if list == [] then []
    else if list[0] == a then Others(list[1..], a)
    else [list[0]] + Others(list[1..], a)
  }

  /** A message from `a` leaves the other addresses as they were, in the same order. */
  lemma {:induction false} OthersKeepOrder(list: seq<Addr>, c: Control, a: Addr)
    requires c == Subscribe(a) || c == Shutdown(a)
    ensures Others(Handle(list, c), a) == Others(list, a)
  {
    if list != [] {
      OthersKeepOrder(list[1..], c, a);
      if c.Subscribe? {
        assert (list + [a])[1..] == list[1..] + [a];
      } else if list[0] != a {
        assert Remove(list, a)[1..] == Remove(list[1..], a);
      }
    }
  }
}
