/** The I2C link to the sensor as the driver sees it: register-address writes,
    register writes, burst reads and pauses. The device is a script of
    replies, one per write or read, so that every bus failure and every value
    the hardware might return is an input. */
module RegisterIO {
  import opened Bits
  import Registers

  /** One step the driver takes on the bus: a write of a frame (a register
      address, optionally followed by the bytes to store from there on), a
      read of `count` bytes from the selected register on, or a pause. */
  datatype Op = Write(frame: seq<Byte>) | Read(count: nat) | Sleep(ms: nat)

  /** How the device answers one write or read. */
  datatype Reply = Done(data: seq<Byte>) | Failed

  /** The reply the next write or read gets; a device that stopped answering
      fails every transfer. */
  function Next(rs: seq<Reply>): Reply
  {
    if rs == [] then Failed else rs[0]
  }

  function Rest(rs: seq<Reply>): (rest: seq<Reply>)
    ensures rs != [] ==> rest == rs[1..]
  {
    if rs == [] then [] else rs[1..]
  }

  /** Whether `op` completes under `reply`. `write` and `read` return the
      byte count, and the driver treats any count other than the one it asked
      for as a failure: a write completes on any Done, a read only when it
      delivers exactly `count` bytes. A pause always completes. */
  predicate Accepts(op: Op, reply: Reply)
  {
    match op
    case Write(_) => reply.Done?
    case Read(n) => reply.Done? && |reply.data| == n
    case Sleep(_) => true
  }

  /** The bytes a completed read delivers. */
  function Payload(reply: Reply): seq<Byte>
  {
    if reply.Done? then reply.data else []
  }

  /** The first byte of reply i, or 0 when there is none. */
  function ByteAt(rs: seq<Reply>, i: nat): Byte
  {
    if i < |rs| && Payload(rs[i]) != [] then Payload(rs[i])[0] else 0
  }

  /** Whether reply i exists and completes a one-byte read. */
  predicate Answered(rs: seq<Reply>, i: nat)
  {
    i < |rs| && Accepts(Read(1), rs[i])
  }

  /** Whether the replies from k on answer `count` single-byte queries:
      each address write takes one reply and each read the one after it. */
  predicate AnswersFrom(rs: seq<Reply>, k: nat, count: nat)
  {
    |rs| >= k + 2 * count
    && forall j :: 0 <= j < count ==> Answered(rs, k + 2 * j + 1)
  }

  /** One more answered query in front of the ones from k + 2 on. */
  lemma AnswersStep(rs: seq<Reply>, k: nat, count: nat)
    requires count > 0 && AnswersFrom(rs, k + 2, count - 1)
    requires Answered(rs, k + 1)
    ensures AnswersFrom(rs, k, count)
  {
    forall j | 0 <= j < count
      ensures Answered(rs, k + 2 * j + 1)
    {
      if j > 0 {
        assert k + 2 * j + 1 == (k + 2) + 2 * (j - 1) + 1;
      }
    }
  }

  /** Select a register and read n bytes from it: the shape of every query. */
  function Select(reg: Byte, n: nat): seq<Op>
  {
    [Write([reg]), Read(n)]
  }

  // ---------------------------------------------------------------------
  // A reference semantics for straight-line sequences: stop at the first
  // transfer that fails.

  /** The ops of `plan` that a driver issues when it gives up at the first
      write or read the device does not complete: every op up to and
      including that one. */
  function Issued(plan: seq<Op>, rs: seq<Reply>): (ops: seq<Op>)
    ensures ops <= plan
    ensures Completes(plan, rs) ==> ops == plan
    ensures !Completes(plan, rs) ==> ops != [] && !ops[|ops| - 1].Sleep?
  {
    if plan == [] then []
    else if plan[0].Sleep? then [plan[0]] + Issued(plan[1..], rs)
    else if Accepts(plan[0], Next(rs)) then [plan[0]] + Issued(plan[1..], Rest(rs))
    else [plan[0]]
  }

  /** Whether every write and read of `plan` completes. */
  predicate Completes(plan: seq<Op>, rs: seq<Reply>)
  {
    if plan == [] then true
    else if plan[0].Sleep? then Completes(plan[1..], rs)
    else Accepts(plan[0], Next(rs)) && Completes(plan[1..], Rest(rs))
  }

  /** The replies left once `plan` has run, or has stopped at a failure. */
  function Left(plan: seq<Op>, rs: seq<Reply>): seq<Reply>
  {
    if plan == [] then rs
    else if plan[0].Sleep? then Left(plan[1..], rs)
    else if Accepts(plan[0], Next(rs)) then Left(plan[1..], Rest(rs))
    else Rest(rs)
  }

  /** Running two plans back to back: the second runs only when the first
      completes, on the replies the first left. */
  lemma {:induction false} IssuedAppend(a: seq<Op>, b: seq<Op>, rs: seq<Reply>)
    ensures Issued(a + b, rs) == if Completes(a, rs) then a + Issued(b, Left(a, rs)) else Issued(a, rs)
    ensures Left(a + b, rs) == if Completes(a, rs) then Left(b, Left(a, rs)) else Left(a, rs)
    ensures Completes(a + b, rs) <==> Completes(a, rs) && Completes(b, Left(a, rs))
  {
    if a != [] {
      assert (a + b)[0] == a[0] && (a + b)[1..] == a[1..] + b;
      if a[0].Sleep? {
        IssuedAppend(a[1..], b, rs);
      } else if Accepts(a[0], Next(rs)) {
        IssuedAppend(a[1..], b, Rest(rs));
      }
    } else {
      assert a + b == b;
    }
  }

  /** A register write followed by a pause: both are issued when the write
      completes, and only the write when it fails. */
  lemma WriteWait(frame: seq<Byte>, ms: nat, plan: seq<Op>, rs: seq<Reply>)
    ensures var ops := [Write(frame), Sleep(ms)] + plan;
      Issued(ops, rs) == (if Next(rs).Done? then [Write(frame), Sleep(ms)] + Issued(plan, Rest(rs)) else [Write(frame)])
      && Left(ops, rs) == (if Next(rs).Done? then Left(plan, Rest(rs)) else Rest(rs))
      && (Completes(ops, rs) <==> Next(rs).Done? && Completes(plan, Rest(rs)))
  {
    var ops := [Write(frame), Sleep(ms)] + plan;
    assert ops[0] == Write(frame) && ops[1..][0] == Sleep(ms) && ops[1..][1..] == plan;
  }

  // ---------------------------------------------------------------------
  // The bus as a value, and the steps the driver takes on it.

  /** Everything the driver has sent so far, and the replies still to come. */
  datatype Wire = Wire(trace: seq<Op>, replies: seq<Reply>)

  /** `write(fd, frame, |frame|)`: the frame is sent and takes one reply. */
  function Send(w: Wire, frame: seq<Byte>): Wire
  {
    Wire(w.trace + [Write(frame)], Rest(w.replies))
  }

  /** Whether the next write completes. */
  predicate SendOk(w: Wire)
  {
    Next(w.replies).Done?
  }

  /** `read(fd, buf, n)`: the read is sent and takes one reply. */
  function Fetch(w: Wire, n: nat): Wire
  {
    Wire(w.trace + [Read(n)], Rest(w.replies))
  }

  /** Whether the next read delivers exactly n bytes. */
  predicate FetchOk(w: Wire, n: nat)
  {
    Accepts(Read(n), Next(w.replies))
  }

  /** `usleep(ms * 1000)`: the pause joins the trace and takes no reply. */
  function Wait(w: Wire, ms: nat): Wire
  {
    Wire(w.trace + [Sleep(ms)], w.replies)
  }

  datatype Status = Ok | WriteFailed | ReadFailed

  /** What one query did: how it ended, the bytes it read and the bus after it. */
  datatype Txn = Txn(status: Status, data: seq<Byte>, wire: Wire)

  /** Write the register address `reg`; if that completes, read n bytes. */
  function QuerySpec(w: Wire, reg: Byte, n: nat): (t: Txn)
    ensures t.status == WriteFailed <==> !SendOk(w)
    ensures t.wire.trace == w.trace + if t.status == WriteFailed then [Write([reg])] else Select(reg, n)
    ensures t.status == Ok ==>
      |w.replies| >= 2 && w.replies[1].Done? && t.data == w.replies[1].data && |t.data| == n
      && t.wire.replies == w.replies[2..]
    ensures t.status != Ok ==> t.data == []
  {
    var w1 := Send(w, [reg]);
    if !SendOk(w) then Txn(WriteFailed, [], w1)
    else if !FetchOk(w1, n) then Txn(ReadFailed, [], Fetch(w1, n))
    else Txn(Ok, Next(w1.replies).data, Fetch(w1, n))
  }

  /** A query is the two-op plan `Select` under the stop-at-first-failure
      semantics: it issues what `Issued` issues and succeeds exactly when both
      ops complete. */
  lemma QueryIssued(w: Wire, reg: Byte, n: nat)
    ensures var t := QuerySpec(w, reg, n);
      t.wire.trace == w.trace + Issued(Select(reg, n), w.replies) && t.wire.replies == Left(Select(reg, n), w.replies)
      && (t.status == Ok <==> Completes(Select(reg, n), w.replies))
  {
    var sel, rs := Select(reg, n), w.replies;
    assert sel[1..] == [Read(n)] && sel[1..][1..] == [];
    assert Accepts(Write([reg]), Next(rs)) && Accepts(Read(n), Next(Rest(rs))) ==>
      Left(sel[1..], Rest(rs)) == Left(sel[1..][1..], Rest(Rest(rs))) == Rest(Rest(rs));
  }

  /** A query that starts at reply k of `rs` takes reply k for its address
      write and reply k + 1 for its read: it reads that reply's bytes and
      leaves the replies from k + 2 on, and its read fails only when reply
      k + 1 does not deliver n bytes. */
  lemma QueryAt(w: Wire, reg: Byte, n: nat, rs: seq<Reply>, k: nat)
    requires k <= |rs| && w.replies == rs[k..]
    ensures var t := QuerySpec(w, reg, n);
      (t.status == Ok ==>
         k + 1 < |rs| && Accepts(Read(n), rs[k + 1]) && t.data == rs[k + 1].data && t.wire.replies == rs[k + 2..])
      && (t.status == ReadFailed ==> !(k + 1 < |rs| && Accepts(Read(n), rs[k + 1])))
  {
    var t := QuerySpec(w, reg, n);
    if t.status != WriteFailed {
      assert Rest(w.replies) == rs[k + 1..];
    }
  }

  /** A register write and a pause in front of a later stage: if the stage
      ran the plan from where the pause left the bus, the whole ran
      `[write, pause] + plan` under the stop-at-first-failure semantics. */
  lemma WriteWaitThen(w: Wire, frame: seq<Byte>, ms: nat, plan: seq<Op>, later: Wire)
    requires SendOk(w) ==>
      later.trace == Wait(Send(w, frame), ms).trace + Issued(plan, Rest(w.replies))
      && later.replies == Left(plan, Rest(w.replies))
    ensures var ops := [Write(frame), Sleep(ms)] + plan;
      var now := if SendOk(w) then later else Send(w, frame);
      now.trace == w.trace + Issued(ops, w.replies) && now.replies == Left(ops, w.replies)
  {
    WriteWait(frame, ms, plan, w.replies);
    if SendOk(w) {
      assert w.trace + [Write(frame)] + [Sleep(ms)] == w.trace + [Write(frame), Sleep(ms)];
      AppendAssoc(w.trace, [Write(frame), Sleep(ms)], Issued(plan, Rest(w.replies)));
    }
  }

  /** A query in front of a later stage: if the stage ran `plan` from where
      a successful query left the bus, the whole ran `Select + plan` under
      the stop-at-first-failure semantics, and completed exactly when both
      parts did. */
  lemma QueryThen(w: Wire, reg: Byte, n: nat, plan: seq<Op>, later: Wire)
    requires var t := QuerySpec(w, reg, n);
      t.status == Ok ==>
        later.trace == t.wire.trace + Issued(plan, t.wire.replies)
        && later.replies == Left(plan, t.wire.replies)
    ensures var t := QuerySpec(w, reg, n);
      var now := if t.status == Ok then later else t.wire;
      now.trace == w.trace + Issued(Select(reg, n) + plan, w.replies)
      && now.replies == Left(Select(reg, n) + plan, w.replies)
      && (Completes(Select(reg, n) + plan, w.replies) <==> t.status == Ok && Completes(plan, t.wire.replies))
  {
    var t := QuerySpec(w, reg, n);
    QueryIssued(w, reg, n);
    IssuedAppend(Select(reg, n), plan, w.replies);
    if t.status == Ok {
      AppendAssoc(w.trace, Select(reg, n), Issued(plan, t.wire.replies));
    }
  }

  /** Helper: sequence concatenation is associative. */
  lemma AppendAssoc<T>(a: seq<T>, b: seq<T>, c: seq<T>)
    ensures a + b + c == a + (b + c)
  {
  }

  /** What a driver call that fills an output argument did: its return code,
      the value it leaves in the argument and the bus after it. */
  datatype Run<T> = Run(code: int, value: T, wire: Wire)

  /** What a driver call without an output argument did. */
  datatype Outcome = Outcome(code: int, wire: Wire)

  /** How a driver call ends: it returns a code to its caller, or it ends
      the whole program with `exit(status)`. */
  datatype Ending = Returned(code: int) | Exited(status: int)

  /** What a driver call that may end the program did. */
  datatype Finish = Finish(ending: Ending, wire: Wire)

  // ---------------------------------------------------------------------
  // Observing a trace.

  /** The byte strings stored into `reg` by register writes (the address
      followed by at least one value), in order. */
  function Stores(ops: seq<Op>, reg: Byte): (vs: seq<seq<Byte>>)
    ensures |vs| <= |ops|
    ensures forall i :: 0 <= i < |vs| ==> |vs[i]| >= 1
  {
    if ops == [] then []
    else
      var v := if ops[0].Write? && |ops[0].frame| >= 2 && ops[0].frame[0] == reg then [ops[0].frame[1..]] else [];
      v + Stores(ops[1..], reg)
  }

  lemma {:induction false} StoresAppend(a: seq<Op>, b: seq<Op>, reg: Byte)
    ensures Stores(a + b, reg) == Stores(a, reg) + Stores(b, reg)
  {
    if a == [] {
      assert a + b == b;
    } else {
      assert (a + b)[0] == a[0] && (a + b)[1..] == a[1..] + b;
      StoresAppend(a[1..], b, reg);
    }
  }

  /** A query writes only an address, so it stores nothing into any register. */
  lemma QueryStoresNothing(w: Wire, reg: Byte, n: nat, target: Byte)
    ensures Stores(QuerySpec(w, reg, n).wire.trace, target) == Stores(w.trace, target)
  {
    var t := QuerySpec(w, reg, n);
    var ops := if t.status == WriteFailed then [Write([reg])] else Select(reg, n);
    StoresAppend(w.trace, ops, target);
    assert ops[1..] == [] || ops[1..][1..] == [];
  }

  /** Issuing a register write appends its value to the register's stores. */
  lemma StoresAfterWrite(ops: seq<Op>, reg: Byte, v: Byte, target: Byte)
    ensures Stores(ops + [Write([reg, v])], target)
      == Stores(ops, target) + if reg == target then [[v]] else []
  {
    StoresAppend(ops, [Write([reg, v])], target);
    assert [reg, v][1..] == [v];
    assert [Write([reg, v])][1..] == [];
  }

  /** A pause stores nothing. */
  lemma StoresAfterSleep(ops: seq<Op>, ms: nat, target: Byte)
    ensures Stores(ops + [Sleep(ms)], target) == Stores(ops, target)
  {
    StoresAppend(ops, [Sleep(ms)], target);
    assert [Sleep(ms)][1..] == [];
  }

  /** The register page the driver last asked for in `ops` (the value of
      its last PAGE_ID write), or `start` when it asked for none. */
  function PageAfter(ops: seq<Op>, start: int): (page: int)
  {
    var ps := Stores(ops, Registers.PAGE_ID);
    if ps == [] then start else ps[|ps| - 1][0]
  }

  lemma PageAfterAppend(a: seq<Op>, b: seq<Op>, start: int)
    ensures PageAfter(a + b, start) == PageAfter(b, PageAfter(a, start))
  {
    StoresAppend(a, b, Registers.PAGE_ID);
  }

  /** The total time the driver pauses for in `ops`, in milliseconds. */
  function PauseTime(ops: seq<Op>): nat
  {
    if ops == [] then 0 else (if ops[0].Sleep? then ops[0].ms else 0) + PauseTime(ops[1..])
  }

  lemma {:induction false} PauseAppend(a: seq<Op>, b: seq<Op>)
    ensures PauseTime(a + b) == PauseTime(a) + PauseTime(b)
  {
    if a == [] {
      assert a + b == b;
    } else {
      assert (a + b)[0] == a[0] && (a + b)[1..] == a[1..] + b;
      PauseAppend(a[1..], b);
    }
  }

  /** A register write of one value followed by a pause stores that value
      into its register, nothing into any other, and pauses for `ms`. */
  lemma PairFacts(reg: Byte, v: Byte, ms: nat, other: Byte)
    requires other != reg
    ensures Stores([Write([reg, v]), Sleep(ms)], reg) == [[v]]
    ensures Stores([Write([reg, v]), Sleep(ms)], other) == []
    ensures PauseTime([Write([reg, v]), Sleep(ms)]) == ms
  {
    var ops := [Write([reg, v]), Sleep(ms)];
    assert ops[1..][1..] == [];
    assert [reg, v][1..] == [v];
    assert Stores(ops[1..], reg) == [] && Stores(ops[1..], other) == [];
    assert PauseTime(ops[1..]) == ms;
  }

  /** One more operation adds its own pause, if it is one. */
  lemma PauseAfter(ops: seq<Op>, op: Op)
    ensures PauseTime(ops + [op]) == PauseTime(ops) + if op.Sleep? then op.ms else 0
  {
    PauseAppend(ops, [op]);
    assert [op][1..] == [];
  }

  /** A query does not pause. */
  lemma QueryPauses(w: Wire, reg: Byte, n: nat)
    ensures PauseTime(QuerySpec(w, reg, n).wire.trace) == PauseTime(w.trace)
  {
    var t := QuerySpec(w, reg, n);
    PauseAfter(w.trace, Write([reg]));
    if t.status != WriteFailed {
      assert w.trace + Select(reg, n) == w.trace + [Write([reg])] + [Read(n)];
      PauseAfter(w.trace + [Write([reg])], Read(n));
    }
  }

  // ---------------------------------------------------------------------
  // The bus itself.

  /** The I2C file descriptor the driver talks through: what it has sent
      so far and how the device will answer from now on. */
  class Bus {
    var trace: seq<Op>
    var replies: seq<Reply>

    constructor (script: seq<Reply>)
      ensures State() == Wire([], script)
    {
      trace := [];
      replies := script;
    }

    function State(): Wire
      reads this
    {
      Wire(trace, replies)
    }

    /** `write(fd, frame, |frame|) == |frame|`. */
    method Transmit(frame: seq<Byte>) returns (ok: bool)
      modifies this
      ensures ok == SendOk(old(State())) && State() == Send(old(State()), frame)
    {
      ok := Next(replies).Done?;
      trace := trace + [Write(frame)];
      replies := Rest(replies);
    }

    /** `read(fd, buf, n) == n`, and the bytes read. */
    method Receive(n: nat) returns (ok: bool, data: seq<Byte>)
      modifies this
      ensures ok == FetchOk(old(State()), n) && State() == Fetch(old(State()), n)
      ensures data == if ok then Next(old(replies)).data else []
    {
      ok := Accepts(Read(n), Next(replies));
      data := if ok then Next(replies).data else [];
      trace := trace + [Read(n)];
      replies := Rest(replies);
    }

    /** `usleep(ms * 1000)`. */
    method Pause(ms: nat)
      modifies this
      ensures State() == Wait(old(State()), ms)
    {
      trace := trace + [Sleep(ms)];
    }

    /** Write the address `reg`, and if that completes read n bytes. */
    method Query(reg: Byte, n: nat) returns (status: Status, data: seq<Byte>)
      modifies this
      ensures var t := QuerySpec(old(State()), reg, n);
        status == t.status && data == t.data && State() == t.wire
    {
      var ok := Transmit([reg]);
      if !ok {
        return WriteFailed, [];
      }
      ok, data := Receive(n);
      status := if ok then Ok else ReadFailed;
    }
  }
}
