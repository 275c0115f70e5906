/** Who owns a file descriptor: the base class `Socket`, its constructor, `makeSocket`, `close` and destructor. */
module Descriptors {
  import opened Sequences

  /** The value of an unset descriptor, and what the system call returns on failure. */
  const SOCKET_ERR := -1

  datatype Call = Opened(fd: int) | Closed(fd: int)

  /** The process's descriptor table; `calls` are the successful `socket` calls and all `close` calls of sockets. */
  class Table {
    var open: set<int>
    var calls: seq<Call>

    constructor (open: set<int>)
      ensures this.open == open && calls == []
    {
      this.open := open;
      calls := [];
    }

    /** The kernel answers -1 or any number not in use. */
    method Open(answer: int) returns (fd: int)
      requires answer == SOCKET_ERR || (answer >= 0 && answer !in open)
      modifies this
      ensures fd == answer
      ensures answer == SOCKET_ERR ==> open == old(open) && calls == old(calls)
      ensures answer != SOCKET_ERR ==> open == old(open) + {answer} && calls == old(calls) + [Opened(answer)]
    {
      fd := answer;
      if answer != SOCKET_ERR {
        open := open + {answer};
        calls := calls + [Opened(answer)];
      }
    }

    method Close(fd: int)
      modifies this
      ensures open == old(open) - {fd} && calls == old(calls) + [Closed(fd)]
    {
      open := open - {fd};
      calls := calls + [Closed(fd)];
    }
  }

  /** What a method leaves in the socket's field and in the table. */
  datatype Held = Held(fd: int, open: set<int>, calls: seq<Call>)

  function AfterClose(h: Held): Held {
    if h.fd == SOCKET_ERR then h else Held(SOCKET_ERR, h.open - {h.fd}, h.calls + [Closed(h.fd)])
  }

  /** The field is overwritten, whatever it held. */
  function AfterMake(h: Held, answer: int): Held {
    if answer < 0 then AfterClose(h.(fd := answer))
    else Held(answer, h.open + {answer}, h.calls + [Opened(answer)])
  }

  class Socket {
    const table: Table
    var fd: int

    constructor (table: Table)
      ensures this.table == table && fd == SOCKET_ERR
    {
      this.table := table;
      fd := SOCKET_ERR;
    }

    method Close()
      modifies this, table
      ensures Held(fd, table.open, table.calls) == AfterClose(old(Held(fd, table.open, table.calls)))
    {
      if fd != SOCKET_ERR {
        table.Close(fd);
        fd := SOCKET_ERR;
      }
    }

    method MakeSocket(answer: int) returns (ok: bool)
      requires answer == SOCKET_ERR || (answer >= 0 && answer !in table.open)
      modifies this, table
      ensures Held(fd, table.open, table.calls) == AfterMake(old(Held(fd, table.open, table.calls)), answer)
      ensures ok == (answer >= 0)
    {
      fd := table.Open(answer);
      if fd < 0 {
        Close();
        return false;
      }
      ok := true;
    }

    /** The destructor. */
    method Destroy()
      modifies this, table
      ensures Held(fd, table.open, table.calls) == AfterClose(old(Held(fd, table.open, table.calls)))
    {
      Close();
    }
  }

  /** Live sockets by name, the open descriptors, those of them that are not sockets' business, and the calls made. */
  datatype Process = Process(fds: map<nat, int>, open: set<int>, foreign: set<int>, calls: seq<Call>)

  datatype Op =
    | Create(s: nat, answer: int)
    | Close(s: nat)
    | Destroy(s: nat)
    | OpenOther(fd: int)
    | CloseOther(fd: int)

  /** A descriptor number is handed out only while it is not open; everything else is the program's choice. */
  predicate Possible(p: Process, op: Op) {
    match op
    case Create(s, answer) => s !in p.fds && (answer == SOCKET_ERR || (answer >= 0 && answer !in p.open))
    case Close(s) => s in p.fds
    case Destroy(s) => s in p.fds
    case OpenOther(fd) => fd >= 0 && fd !in p.open
    case CloseOther(fd) => fd in p.foreign
  }

  function Put(p: Process, s: nat, h: Held): Process {
    p.(fds := p.fds[s := h.fd], open := h.open, calls := h.calls)
  }

  function HeldBy(p: Process, s: nat): Held {
    Held(if s in p.fds then p.fds[s] else SOCKET_ERR, p.open, p.calls)
  }

  function Perform(p: Process, op: Op): Process
    requires Possible(p, op)
  {
    match op
    case Create(s, answer) => Put(p, s, AfterMake(HeldBy(p, s), answer))
    case Close(s) => Put(p, s, AfterClose(HeldBy(p, s)))
    case Destroy(s) => var q := Put(p, s, AfterClose(HeldBy(p, s))); q.(fds := q.fds - {s})
    case OpenOther(fd) => p.(open := p.open + {fd}, foreign := p.foreign + {fd})
    case CloseOther(fd) => p.(open := p.open - {fd}, foreign := p.foreign - {fd})
  }

  /** The process after `ops`, or `None` when one of them was not possible at its turn. */
  function PerformAll(p: Process, ops: seq<Op>): Option<Process> {
    if ops == [] then Some(p)
    else
      match PerformAll(p, ops[..|ops| - 1])
      case None => None
      case Some(r) => if Possible(r, ops[|ops| - 1]) then Some(Perform(r, ops[|ops| - 1])) else None
  }

  /** Opens minus closes of a descriptor number. */
  function Balance(calls: seq<Call>, fd: int): int {
    if calls == [] then 0
    else
      Balance(calls[..|calls| - 1], fd)
      + match calls[|calls| - 1]
        case Opened(d) => if d == fd then 1 else 0
        case Closed(d) => if d == fd then -1 else 0
  }

  predicate Holds(p: Process, s: nat, fd: int) {
    s in p.fds && p.fds[s] == fd && fd != SOCKET_ERR
  }

  /**
   Live sockets hold distinct descriptors; these are exactly the open ones that are not foreign; and, in every
   beginning of the history of calls, each descriptor has been closed as often as opened, or once less.
   */
  ghost predicate Owned(p: Process) {
    && (forall s, s', fd :: Holds(p, s, fd) && Holds(p, s', fd) ==> s == s')
    && p.foreign <= p.open && (forall fd :: fd in p.open ==> fd >= 0)
    && (forall s, fd :: Holds(p, s, fd) ==> fd in p.open && fd !in p.foreign)
    && (forall fd :: fd in p.open && fd !in p.foreign ==> exists s :: Holds(p, s, fd))
    && (forall fd :: Balance(p.calls, fd) == if fd in p.open && fd !in p.foreign then 1 else 0)
    && (forall n, fd :: 0 <= n <= |p.calls| ==> 0 <= Balance(p.calls[..n], fd) <= 1)
  }

  lemma BalancePush(calls: seq<Call>, c: Call)
    ensures forall fd :: Balance(calls + [c], fd)
                      == Balance(calls, fd) + if c.fd != fd then 0 else if c.Opened? then 1 else -1
  {
    assert (calls + [c])[..|calls|] == calls;
  }

  lemma HistoryPush(p: Process, c: Call, q: Process)
    requires Owned(p) && q.calls == p.calls + [c]
    requires Balance(p.calls, c.fd) == if c.Opened? then 0 else 1
    ensures forall n, fd :: 0 <= n <= |q.calls| ==> 0 <= Balance(q.calls[..n], fd) <= 1
  {
    BalancePush(p.calls, c);
    forall n, fd | 0 <= n <= |q.calls| ensures 0 <= Balance(q.calls[..n], fd) <= 1 {
      if n <= |p.calls| {
        assert q.calls[..n] == p.calls[..n];
      } else {
        assert q.calls[..n] == q.calls;
      }
    }
  }

  /** Closing what `s` holds, and forgetting it, keeps ownership. */
  lemma ClosedOwned(p: Process, s: nat, q: Process)
    requires Owned(p) && s in p.fds && q == Put(p, s, AfterClose(HeldBy(p, s)))
    ensures Owned(q) && q.fds.Keys == p.fds.Keys && q.fds[s] == SOCKET_ERR
  {
    var d := p.fds[s];
    if d != SOCKET_ERR {
      assert Holds(p, s, d);
      BalancePush(p.calls, Closed(d));
      HistoryPush(p, Closed(d), q);
      assert forall x, fd :: Holds(q, x, fd) <==> Holds(p, x, fd) && x != s;
      forall fd | fd in q.open && fd !in q.foreign ensures exists x :: Holds(q, x, fd) {
        var x :| Holds(p, x, fd);
        assert Holds(q, x, fd);
      }
    } else {
      assert forall x, fd :: Holds(q, x, fd) <==> Holds(p, x, fd);
    }
  }

  lemma CreatedOwned(p: Process, s: nat, answer: int)
    requires Owned(p) && Possible(p, Create(s, answer))
    ensures Owned(Perform(p, Create(s, answer)))
  {
    var q := Perform(p, Create(s, answer));
    if answer == SOCKET_ERR {
      assert forall x, fd :: Holds(q, x, fd) <==> Holds(p, x, fd);
    } else {
      BalancePush(p.calls, Opened(answer));
      HistoryPush(p, Opened(answer), q);
      assert forall x, fd :: Holds(q, x, fd) <==> Holds(p, x, fd) || (x == s && fd == answer);
      forall fd | fd in q.open && fd !in q.foreign ensures exists x :: Holds(q, x, fd) {
        if fd == answer {
          assert Holds(q, s, fd);
        } else {
          var x :| Holds(p, x, fd);
          assert Holds(q, x, fd);
        }
      }
    }
  }

  lemma OtherOwned(p: Process, op: Op)
    requires Owned(p) && Possible(p, op) && (op.OpenOther? || op.CloseOther?)
    ensures Owned(Perform(p, op))
  {
    var q := Perform(p, op);
    assert forall x, fd :: Holds(q, x, fd) <==> Holds(p, x, fd);
  }

  lemma ForgottenOwned(p: Process, s: nat)
    requires Owned(p) && s in p.fds && p.fds[s] == SOCKET_ERR
    ensures Owned(p.(fds := p.fds - {s}))
  {
    var q := p.(fds := p.fds - {s});
    assert forall x, fd :: Holds(q, x, fd) <==> Holds(p, x, fd);
  }

  lemma OwnedStep(p: Process, op: Op)
    requires Owned(p) && Possible(p, op)
    ensures Owned(Perform(p, op))
  {
    match op
    case Create(s, answer) => CreatedOwned(p, s, answer);
    case Close(s) => ClosedOwned(p, s, Perform(p, op));
    case Destroy(s) =>
      var q := Put(p, s, AfterClose(HeldBy(p, s)));
      ClosedOwned(p, s, q);
      ForgottenOwned(q, s);
    case OpenOther(_) => OtherOwned(p, op);
    case CloseOther(_) => OtherOwned(p, op);
  }

  lemma {:induction false} OwnedRun(p: Process, ops: seq<Op>, q: Process)
    requires Owned(p) && PerformAll(p, ops) == Some(q)
    ensures Owned(q)
  {
    if ops != [] {
      var r := PerformAll(p, ops[..|ops| - 1]).value;
      OwnedRun(p, ops[..|ops| - 1], r);
      OwnedStep(r, ops[|ops| - 1]);
    }
  }

  ghost predicate Fresh(p: Process) {
    p.fds == map[] && p.open == p.foreign && (forall fd :: fd in p.open ==> fd >= 0) && p.calls == []
  }

  /**
   Over any run of creations, failed creations, repeated closes and destructions, and with the rest of the program
   opening and closing its own descriptors: ownership holds, and once no socket lives every descriptor a socket opened
   has been closed exactly as often as it was opened and nothing else was closed.
   */
  lemma DescriptorOwnership(p: Process, ops: seq<Op>, q: Process)
    requires Fresh(p) && PerformAll(p, ops) == Some(q)
    ensures Owned(q)
    ensures q.fds == map[] ==> q.open == q.foreign && forall fd :: Balance(q.calls, fd) == 0
  {
    assert p.calls[..0] == [];
    OwnedRun(p, ops, q);
    if q.fds == map[] {
      assert forall fd :: fd in q.open && fd !in q.foreign ==> exists s :: Holds(q, s, fd);
    }
  }

  lemma PerformPush(p: Process, ops: seq<Op>, q: Process, op: Op)
    requires PerformAll(p, ops) == Some(q) && Possible(q, op)
    ensures PerformAll(p, ops + [op]) == Some(Perform(q, op))
  {
    assert (ops + [op])[..|ops|] == ops;
  }

  /** No run closes a descriptor that is open for the rest of the program. */
  ghost predicate NeverTrespasses(p: Process) {
    forall ops :: PerformAll(p, ops).Some? ==> PerformAll(p, ops).value.foreign <= PerformAll(p, ops).value.open
  }

  /** A copy of socket `s`, which the class does not forbid. */
  function Copied(p: Process, s: nat, s': nat): Process
    requires s in p.fds
  {
    p.(fds := p.fds[s' := p.fds[s]])
  }

  /**
   What two sockets with one descriptor do: the first destroyed closes it, the rest of the program is given the number
   again, and the second destroyed closes it under the program's hands.
   */
  lemma ClosedForOthers(p: Process, s: nat, s': nat) returns (q: Process)
    requires Owned(p) && s in p.fds && s' !in p.fds && p.fds[s] != SOCKET_ERR
    ensures PerformAll(Copied(p, s, s'), [Destroy(s), OpenOther(p.fds[s]), Destroy(s')]) == Some(q)
    ensures p.fds[s] in q.foreign && p.fds[s] !in q.open
  {
    var d, c := p.fds[s], Copied(p, s, s');
    assert Holds(p, s, d);
    var p1 := Perform(c, Destroy(s));
    PerformPush(c, [], c, Destroy(s));
    var p2 := Perform(p1, OpenOther(d));
    PerformPush(c, [Destroy(s)], p1, OpenOther(d));
    q := Perform(p2, Destroy(s'));
    PerformPush(c, [Destroy(s), OpenOther(d)], p2, Destroy(s'));
    assert [] + [Destroy(s)] == [Destroy(s)];
    assert [Destroy(s)] + [OpenOther(d)] == [Destroy(s), OpenOther(d)];
    assert [Destroy(s), OpenOther(d)] + [Destroy(s')] == [Destroy(s), OpenOther(d), Destroy(s')];
  }

  /** After a copy no run ever closes someone else's descriptor, if and only if the copied socket held none. */
  lemma CopyBreaksOwnership(p: Process, s: nat, s': nat)
    requires Owned(p) && s in p.fds && s' !in p.fds
    ensures NeverTrespasses(Copied(p, s, s')) <==> p.fds[s] == SOCKET_ERR
  {
    var c := Copied(p, s, s');
    if p.fds[s] == SOCKET_ERR {
      assert forall x, fd :: Holds(c, x, fd) <==> Holds(p, x, fd);
      forall ops | PerformAll(c, ops).Some?
        ensures PerformAll(c, ops).value.foreign <= PerformAll(c, ops).value.open {
        OwnedRun(c, ops, PerformAll(c, ops).value);
      }
    } else {
      var q := ClosedForOthers(p, s, s');
    }
  }

  /** `d` is open, and neither a live socket nor the rest of the program has it. */
  ghost predicate Orphaned(p: Process, d: int) {
    d in p.open && d !in p.foreign && d != SOCKET_ERR && forall s :: !Holds(p, s, d)
  }

  lemma OrphanStep(p: Process, op: Op, d: int)
    requires Orphaned(p, d) && Possible(p, op)
    ensures Orphaned(Perform(p, op), d)
  {
    var q := Perform(p, op);
    match op
    case Create(s, answer) =>
      assert forall x :: x != s ==> (Holds(q, x, d) <==> Holds(p, x, d));
    case Close(s) =>
      assert p.fds[s] != d by { assert !Holds(p, s, d); }
      assert forall x :: x != s ==> (Holds(q, x, d) <==> Holds(p, x, d));
    case Destroy(s) =>
      assert p.fds[s] != d by { assert !Holds(p, s, d); }
      assert forall x :: x != s ==> (Holds(q, x, d) <==> Holds(p, x, d));
    case _ =>
      assert forall x :: Holds(q, x, d) <==> Holds(p, x, d);
  }

  /** An orphaned descriptor stays open for ever: no run closes it, and none gives it to a socket. */
  lemma {:induction false} OrphanStaysOpen(p: Process, ops: seq<Op>, q: Process, d: int)
    requires Orphaned(p, d) && PerformAll(p, ops) == Some(q)
    ensures Orphaned(q, d)
  {
    if ops != [] {
      var r := PerformAll(p, ops[..|ops| - 1]).value;
      OrphanStaysOpen(p, ops[..|ops| - 1], r, d);
      OrphanStep(r, ops[|ops| - 1], d);
    }
  }

  /** `makeSocket` called on a socket that is already made. */
  function Remade(p: Process, s: nat, answer: int): Process {
    Put(p, s, AfterMake(HeldBy(p, s), answer))
  }

  /** Every run that ends with no live socket has closed everything sockets opened. */
  ghost predicate NeverLeaks(p: Process) {
    forall ops :: PerformAll(p, ops).Some? && PerformAll(p, ops).value.fds == map[] ==>
                    PerformAll(p, ops).value.open == PerformAll(p, ops).value.foreign
  }

  /** All live sockets can be destroyed. */
  lemma {:induction false} DestroyAll(p: Process, ops: seq<Op>, q: Process) returns (ops': seq<Op>, q': Process)
    requires PerformAll(p, ops) == Some(q)
    ensures PerformAll(p, ops') == Some(q') && q'.fds == map[]
    decreases |q.fds.Keys|
  {
    if q.fds == map[] {
      ops', q' := ops, q;
    } else {
      var s :| s in q.fds;
      PerformPush(p, ops, q, Destroy(s));
      assert Perform(q, Destroy(s)).fds.Keys == q.fds.Keys - {s};
      ops', q' := DestroyAll(p, ops + [Destroy(s)], Perform(q, Destroy(s)));
    }
  }

  lemma RemadeOrphans(p: Process, s: nat, answer: int)
    requires Owned(p) && s in p.fds && (answer == SOCKET_ERR || (answer >= 0 && answer !in p.open))
    requires p.fds[s] != SOCKET_ERR
    ensures Orphaned(Remade(p, s, answer), p.fds[s])
  {
    var q, d := Remade(p, s, answer), p.fds[s];
    assert Holds(p, s, d);
    assert forall x :: Holds(q, x, d) ==> Holds(p, x, d) && x != s;
  }

  /**
   Making a socket again leaks nothing exactly when it held nothing. What it held is lost for good otherwise: on every
   run from there it stays open, and no socket holds it.
   */
  lemma RemakeLeaks(p: Process, s: nat, answer: int)
    requires Owned(p) && s in p.fds && (answer == SOCKET_ERR || (answer >= 0 && answer !in p.open))
    ensures NeverLeaks(Remade(p, s, answer)) <==> p.fds[s] == SOCKET_ERR
    ensures p.fds[s] != SOCKET_ERR ==>
              forall ops :: PerformAll(Remade(p, s, answer), ops).Some? ==>
                              Orphaned(PerformAll(Remade(p, s, answer), ops).value, p.fds[s])
  {
    var q, d := Remade(p, s, answer), p.fds[s];
    if d == SOCKET_ERR {
      ForgottenOwned(p, s);
      CreatedOwned(p.(fds := p.fds - {s}), s, answer);
      assert q == Perform(p.(fds := p.fds - {s}), Create(s, answer));
      forall ops | PerformAll(q, ops).Some? && PerformAll(q, ops).value.fds == map[]
        ensures PerformAll(q, ops).value.open == PerformAll(q, ops).value.foreign {
        var r := PerformAll(q, ops).value;
        OwnedRun(q, ops, r);
        assert forall fd :: fd in r.open && fd !in r.foreign ==> exists x :: Holds(r, x, fd);
      }
    } else {
      RemadeOrphans(p, s, answer);
      forall ops | PerformAll(q, ops).Some? ensures Orphaned(PerformAll(q, ops).value, d) {
        OrphanStaysOpen(q, ops, PerformAll(q, ops).value, d);
      }
      var ops, r := DestroyAll(q, [], q);
      assert Orphaned(PerformAll(q, ops).value, d);
    }
  }
}
