/** `UDPSocket.sendto` (Python): a message longer than the packet limit goes out in pieces. */
module PyUdpSocket {
  import opened Sequences
  import opened Datagrams

  /** The limit the class always uses, whatever its constructor is given. */
  const MAX_PACKET_SIZE := 6000

  datatype Outcome = Returned(length: nat) | NameError

  /** Python's `b[-rem:]`, where `-0` is 0 and so selects everything. */
  function LastBytes(b: Message, rem: nat): Message {
    if rem == 0 || rem > |b| then b else b[|b| - rem..]
  }

  /** The first `n` pieces of `limit` bytes each. */
  function Pieces(data: Message, limit: nat, n: nat): (r: seq<Message>)
    requires n * limit <= |data|
    ensures |r| == n
  {
    if n == 0 then []
    else
      assert n * limit == (n - 1) * limit + limit;
      Pieces(data, limit, n - 1) + [data[(n - 1) * limit..(n - 1) * limit + limit]]
  }

  lemma WholePieces(length: nat, limit: nat)
    requires limit > 0
    ensures length / limit * limit + length % limit == length
  {
  }

  /**
   The datagrams of one call and how it ends. The last piece is cut from the global name `buffer`, which the program
   never binds (`None`); the intended reading is that it is the data.
   */
  function Fragments(data: Message, limit: nat, buffer: Option<Message>): (seq<Message>, Outcome)
    requires limit > 0
  {
    if |data| <= limit then ([data], Returned(|data|))
    else
      WholePieces(|data|, limit);
      var whole := Pieces(data, limit, |data| / limit);
      match buffer
      case None => (whole, NameError)
      case Some(b) => (whole + [LastBytes(b, |data| % limit)], Returned(|data|))
  }

  lemma NextPiece(data: Message, limit: nat, i: nat, num: nat)
    requires i < num && num * limit <= |data|
    ensures i * limit + limit == (i + 1) * limit <= |data|
    ensures Pieces(data, limit, i + 1) == Pieces(data, limit, i) + [data[i * limit..i * limit + limit]]
  {
    assert (i + 1) * limit <= num * limit;
  }

  method SendTo(data: Message, limit: nat, buffer: Option<Message>) returns (sent: seq<Message>, outcome: Outcome)
    requires limit > 0
    ensures (sent, outcome) == Fragments(data, limit, buffer)
  {
    var dlen := |data|;
    if dlen > limit {
      var num, rem := dlen / limit, dlen % limit;
      WholePieces(dlen, limit);
      sent := SendWhole(data, limit, num);
      if buffer.None? {
        return sent, NameError;
      }
      sent := sent + [LastBytes(buffer.value, rem)];
    } else {
      sent := [data];
    }
    outcome := Returned(dlen);
  }

  /** The `for` loop of the call. */
  method SendWhole(data: Message, split: nat, num: nat) returns (sent: seq<Message>)
    requires num * split <= |data|
    ensures sent == Pieces(data, split, num)
  {
    sent := [];
    for i := 0 to num
      invariant i * split <= |data| && sent == Pieces(data, split, i)
    {
      NextPiece(data, split, i, num);
      sent := sent + [data[i * split..i * split + split]];
    }
  }

  function Concat(parts: seq<Message>): Message {
    if parts == [] then [] else Concat(parts[..|parts| - 1]) + parts[|parts| - 1]
  }

  lemma ConcatPush(parts: seq<Message>, p: Message)
    ensures Concat(parts + [p]) == Concat(parts) + p
  {
    assert (parts + [p])[..|parts|] == parts;
  }

  lemma {:induction false} PiecesAreAPrefix(data: Message, limit: nat, n: nat)
    requires n * limit <= |data|
    ensures Concat(Pieces(data, limit, n)) == data[..n * limit]
    ensures forall i :: 0 <= i < n ==> |Pieces(data, limit, n)[i]| == limit
  {
    if n > 0 {
      NextPiece(data, limit, n - 1, n);
      PiecesAreAPrefix(data, limit, n - 1);
      ConcatPush(Pieces(data, limit, n - 1), data[(n - 1) * limit..(n - 1) * limit + limit]);
    }
  }

  /** Together the pieces are the data; each fits the limit; none is empty without need; there are as few as can be. */
  predicate Proper(parts: seq<Message>, data: Message, limit: nat)
    requires limit > 0
  {
    && Concat(parts) == data
    && (forall i :: 0 <= i < |parts| ==> |parts[i]| <= limit && (data != [] ==> parts[i] != []))
    && |parts| == if data == [] then 1 else (|data| + limit - 1) / limit
  }

  lemma CeilingOf(length: nat, limit: nat)
    requires length > limit > 0
    ensures (length + limit - 1) / limit == length / limit + if length % limit == 0 then 0 else 1
  {
    var q, r := length / limit, length % limit;
    assert length == q * limit + r;
    if r == 0 {
      DivUnique(length + limit - 1, limit, q, limit - 1);
    } else {
      assert (q + 1) * limit == q * limit + limit;
      DivUnique(length + limit - 1, limit, q + 1, r - 1);
    }
  }

  lemma DivUnique(x: nat, limit: nat, q: nat, r: nat)
    requires 0 <= r < limit && x == q * limit + r
    ensures x / limit == q
  {
    var q', r' := x / limit, x % limit;
    var d: int := q' - q;
    assert d * limit == r - r';
    SmallMultiple(d, limit);
  }

  lemma SmallMultiple(d: int, limit: int)
    requires -limit < d * limit < limit
    ensures d == 0
  {
    assert d >= 1 ==> d * limit >= limit;
    assert d <= -1 ==> d * limit <= -limit;
  }

  lemma {:induction false} PieceAt(data: Message, limit: nat, n: nat, i: nat)
    requires n * limit <= |data| && i < n
    ensures 0 <= i * limit <= i * limit + limit <= |data|
    ensures Pieces(data, limit, n)[i] == data[i * limit..i * limit + limit]
  {
    NextPiece(data, limit, n - 1, n);
    NextPiece(data, limit, i, n);
    if i < n - 1 {
      PieceAt(data, limit, n - 1, i);
    }
  }

  /**
   With `buffer` read as the data, a message is fragmented properly exactly when it fits one packet or is not a multiple
   of the limit; otherwise the whole message follows its own pieces as one oversized datagram.
   */
  lemma Fragmentation(data: Message, limit: nat)
    requires limit > 0
    ensures var (parts, outcome) := Fragments(data, limit, Some(data));
            && outcome == Returned(|data|)
            && (Proper(parts, data, limit) <==> |data| <= limit || |data| % limit != 0)
            && (|data| > limit && |data| % limit == 0 ==>
                  Concat(parts) == data + data && |parts| == |data| / limit + 1 && parts[|parts| - 1] == data
                  && forall i :: 0 <= i < |parts| - 1 ==> |parts[i]| == limit)
  {
    if |data| <= limit {
      ConcatPush([], data);
      if data != [] {
        DivUnique(|data| + limit - 1, limit, 1, |data| - 1);
      }
    } else {
      var num, rem := |data| / limit, |data| % limit;
      WholePieces(|data|, limit);
      var whole := Pieces(data, limit, num);
      PiecesAreAPrefix(data, limit, num);
      ConcatPush(whole, LastBytes(data, rem));
      CeilingOf(|data|, limit);
      if rem != 0 {
        assert data[..num * limit] + data[num * limit..] == data;
      } else {
        assert data[..num * limit] == data;
      }
    }
  }

  /** As written, with `buffer` unbound: every message longer than the limit raises, after its whole pieces went out. */
  lemma UnboundBuffer(data: Message, limit: nat)
    requires limit > 0
    ensures var (parts, outcome) := Fragments(data, limit, None);
            && outcome == (if |data| > limit then NameError else Returned(|data|))
            && (|data| > limit ==> forall i :: 0 <= i < |parts| ==> |parts[i]| == limit)
            && (|data| <= limit ==> |parts| == 1)
            && Concat(parts) == if |data| > limit then data[..|data| - |data| % limit] else data
  {
    if |data| > limit {
      WholePieces(|data|, limit);
      PiecesAreAPrefix(data, limit, |data| / limit);
    } else {
      ConcatPush([], data);
    }
  }

  /** What was put on the wire, and whether the process is still alive after it. */
  datatype Traffic = Traffic(out: seq<Message>, alive: bool)

  /** One call of `sendto`. */
  function Post(bound: bool, data: Message): Traffic {
    var (parts, outcome) := Fragments(data, MAX_PACKET_SIZE, if bound then Some(data) else None);
    Traffic(parts, outcome.Returned?)
  }

  lemma ShortPost(bound: bool, data: Message)
    requires |data| <= MAX_PACKET_SIZE
    ensures Post(bound, data) == Traffic([data], true)
  {
  }

  /** How many datagrams a long message makes: as written, only its whole pieces, and the sender ends. */
  lemma LongPost(bound: bool, data: Message)
    requires |data| > MAX_PACKET_SIZE
    ensures Post(bound, data).alive == bound
    ensures |Post(bound, data).out| > 1 <==> bound || |data| >= 2 * MAX_PACKET_SIZE
    ensures |Post(bound, data).out| >= 1
    ensures |data| >= 2 * MAX_PACKET_SIZE ==> Post(bound, data).out[1] == data[MAX_PACKET_SIZE..2 * MAX_PACKET_SIZE]
  {
    var num := |data| / MAX_PACKET_SIZE;
    WholePieces(|data|, MAX_PACKET_SIZE);
    if num >= 2 {
      PieceAt(data, MAX_PACKET_SIZE, num, 1);
    }
  }
}
