/**
 * The bus as the device adapters (DS1307 clock, AT24C32 EEPROM) see it:
 * whole transfers, logged in order. Two masters drive it:
 *  - the register-level driver's blocking `I2C_MasterSendData` /
 *    `I2C_MasterReceiveData`, which return nothing;
 *  - the vendor HAL's `HAL_I2C_Master_Transmit` / `HAL_I2C_Master_Receive`
 *    / `HAL_I2C_IsDeviceReady`, which return a `HAL_StatusTypeDef`.
 * What the slave answers and what the HAL reports are not visible here:
 * they are scripted by two input streams, `replies` and `results`.
 */
module I2cBus {
  import opened Bits
  import Seqs

  /** `HAL_StatusTypeDef`. */
  datatype Status = HalOk | HalError | HalBusy | HalTimeout

  datatype Transfer =
    /** Master transmit of `data`; `stop == false` is a repeated start. */
    | Send(addr: byte, data: seq<byte>, stop: bool)
    /** Master receive of `|data|` bytes. */
    | Recv(addr: byte, data: seq<byte>, stop: bool)
    /** `HAL_I2C_Master_Transmit`, with the status it returned. */
    | HalSend(addr: byte, data: seq<byte>, st: Status)
    /** `HAL_I2C_Master_Receive`, with the status it returned. */
    | HalRecv(addr: byte, data: seq<byte>, st: Status)
    /** `HAL_I2C_IsDeviceReady` polled until it returned `HAL_OK`. */
    | Ready(addr: byte)
    /** `Error_Handler`: an error message on the LCD, then the processor stops. */
    | Halt

  /** The `i`-th byte the slave clocks out; past the scripted replies the released SDA line reads 0xFF. */
  function Reply(replies: seq<byte>, i: nat): (b: byte)
    ensures i < |replies| ==> b == replies[i]
  {
    if i < |replies| then replies[i] else 0xFF
  }

  /** The next `n` bytes received. */
  function Take(replies: seq<byte>, n: nat): (r: seq<byte>)
    ensures |r| == n
    ensures forall i :: 0 <= i < n ==> r[i] == Reply(replies, i)
  {
    seq(n, i requires 0 <= i => Reply(replies, i))
  }

  /** The replies left after `n` bytes were received. */
  function Drop(replies: seq<byte>, n: nat): (r: seq<byte>)
    ensures n <= |replies| ==> r == replies[n..]
    ensures n > |replies| ==> r == []
    ensures forall i :: 0 <= i < |r| ==> r[i] == replies[n + i]
  {
    if n <= |replies| then replies[n..] else []
  }

  /** The status the next HAL call returns; once the script is used up, every call succeeds. */
  function Next(results: seq<Status>): Status
  {
    if |results| == 0 then HalOk else results[0]
  }

  function Rest(results: seq<Status>): (r: seq<Status>)
    ensures |results| > 0 ==> |r| == |results| - 1
  {
    if |results| == 0 then [] else results[1..]
  }

  /** Receiving `n` bytes, then the next: the replies are consumed in order. */
  lemma {:induction false} DropReply(replies: seq<byte>, n: nat, i: nat)
    ensures Reply(Drop(replies, n), i) == Reply(replies, n + i)
  {
    if n <= |replies| {
      if i < |replies| - n {
        assert Drop(replies, n)[i] == replies[n + i];
      }
    }
  }

  /**
   * One step of an adapter's transfer plan: a transmit (ending in STOP, or
   * in a repeated start when `stop` is false) or a receive of `n` bytes.
   */
  datatype Op = TxOp(addr: byte, data: seq<byte>, stop: bool) | RxOp(addr: byte, n: nat)

  /** How many reply bytes a plan consumes. */
  function Received(plan: seq<Op>): nat
  {
    if plan == [] then 0
    else (if plan[0].RxOp? then plan[0].n else 0) + Received(plan[1..])
  }

  /** The log of a plan run by the register-level driver; every receive ends in STOP. */
  function DriverRun(plan: seq<Op>, replies: seq<byte>): (log: seq<Transfer>)
    ensures |log| == |plan|
  {
    if plan == [] then []
    else match plan[0]
      case TxOp(a, d, stop) => [Send(a, d, stop)] + DriverRun(plan[1..], replies)
      case RxOp(a, n) => [Recv(a, Take(replies, n), true)] + DriverRun(plan[1..], Drop(replies, n))
  }

  /** A plan followed by one transmit: the driver logs the transmit last. */
  lemma DriverRunSnocTx(p: seq<Op>, a: byte, d: seq<byte>, stop: bool, replies: seq<byte>)
    ensures DriverRun(p + [TxOp(a, d, stop)], replies) == DriverRun(p, replies) + [Send(a, d, stop)]
  {
    DriverRunConcat(p, [TxOp(a, d, stop)], replies);
    assert [TxOp(a, d, stop)][1..] == [];
  }

  /**
   * The log of a plan run over the HAL when every `HAL_ERROR` ends in
   * `Error_Handler`: each call records its status, other failures are
   * ignored, and nothing follows the halt.
   */
  function HalRun(plan: seq<Op>, results: seq<Status>, replies: seq<byte>): seq<Transfer>
  {
    if plan == [] then []
    else if Next(results) == HalError then [HalCall(plan[0], HalError, replies), Halt]
    else [HalCall(plan[0], Next(results), replies)] + HalRun(plan[1..], Rest(results), Left(plan[0], replies))
  }

  /** The HAL call that carries out `op`, logged with its status. */
  function HalCall(op: Op, st: Status, replies: seq<byte>): Transfer
  {
    match op
    case TxOp(a, d, _) => HalSend(a, d, st)
    case RxOp(a, n) => HalRecv(a, Take(replies, n), st)
  }

  /** The replies left after `op`. */
  function Left(op: Op, replies: seq<byte>): seq<byte>
  {
    if op.RxOp? then Drop(replies, op.n) else replies
  }

  /** Whether one of the plan's HAL calls returns `HAL_ERROR`, which halts the run. */
  function Halts(plan: seq<Op>, results: seq<Status>): bool
  {
    plan != [] && (Next(results) == HalError || Halts(plan[1..], Rest(results)))
  }

  /** The run ends in `Error_Handler` exactly when one of its calls fails with `HAL_ERROR`. */
  lemma {:induction false} HaltsLast(plan: seq<Op>, results: seq<Status>, replies: seq<byte>)
    ensures Halts(plan, results) <==> |HalRun(plan, results, replies)| > 0 && HalRun(plan, results, replies)[|HalRun(plan, results, replies)| - 1] == Halt
  {
    if plan != [] && Next(results) != HalError {
      HaltsLast(plan[1..], Rest(results), Left(plan[0], replies));
    }
  }

  /** The statuses left after `k` HAL calls. */
  function Skip(results: seq<Status>, k: nat): seq<Status>
  {
    if k == 0 then results else Skip(Rest(results), k - 1)
  }

  lemma {:induction false} SkipSkip(results: seq<Status>, m: nat, n: nat)
    ensures Skip(Skip(results, m), n) == Skip(results, m + n)
  {
    if m > 0 {
      SkipSkip(Rest(results), m - 1, n);
    }
  }

  /** Replies left after `m` then `n` bytes are those left after `m + n`. */
  lemma DropDrop(replies: seq<byte>, m: nat, n: nat)
    ensures Drop(Drop(replies, m), n) == Drop(replies, m + n)
  {
  }

  /** Receiving `m` bytes, then `n`, gives the next `m + n` bytes in order. */
  lemma TakeDrop(replies: seq<byte>, m: nat, n: nat)
    ensures Take(replies, m) + Take(Drop(replies, m), n) == Take(replies, m + n)
  {
    forall i | 0 <= i < n
      ensures Take(Drop(replies, m), n)[i] == Take(replies, m + n)[m + i]
    {
      DropReply(replies, m, i);
    }
  }

  lemma {:induction false} ReceivedConcat(p: seq<Op>, q: seq<Op>)
    ensures Received(p + q) == Received(p) + Received(q)
  {
    if p == [] {
      assert p + q == q;
    } else {
      assert (p + q)[0] == p[0];
      assert (p + q)[1..] == p[1..] + q;
      ReceivedConcat(p[1..], q);
    }
  }

  /** Running two plans one after the other logs the first, then the second on the replies left over. */
  lemma {:induction false} DriverRunConcat(p: seq<Op>, q: seq<Op>, replies: seq<byte>)
    ensures DriverRun(p + q, replies) == DriverRun(p, replies) + DriverRun(q, Drop(replies, Received(p)))
  {
    if p == [] {
      assert p + q == q;
    } else {
      assert (p + q)[0] == p[0];
      assert (p + q)[1..] == p[1..] + q;
      match p[0]
      case TxOp(a, d, stop) =>
        DriverRunConcat(p[1..], q, replies);
      case RxOp(a, n) =>
        DriverRunConcat(p[1..], q, Drop(replies, n));
        DropDrop(replies, n, Received(p[1..]));
    }
  }

  /**
   * Running two plans over the HAL: if the first ends without a halt, the
   * second runs on the statuses and replies left over; if it halts, the
   * second never runs.
   */
  lemma {:induction false} HalRunConcat(p: seq<Op>, q: seq<Op>, results: seq<Status>, replies: seq<byte>)
    requires !Halts(p, results)
    ensures HalRun(p + q, results, replies) == HalRun(p, results, replies) + HalRun(q, Skip(results, |p|), Drop(replies, Received(p)))
  {
    if p == [] {
      assert p + q == q;
    } else {
      var c := HalCall(p[0], Next(results), replies);
      HalRunCons(p, results, replies);
      HalRunCons(p + q, results, replies);
      assert (p + q)[0] == p[0] && (p + q)[1..] == p[1..] + q;
      HalRunConcat(p[1..], q, Rest(results), Left(p[0], replies));
      LeftThenRest(p, replies);
      assert Skip(results, |p|) == Skip(Rest(results), |p[1..]|);
      Seqs.Regroup2([c], HalRun(p[1..], Rest(results), Left(p[0], replies)),
        HalRun(q, Skip(results, |p|), Drop(replies, Received(p))));
    }
  }

  /** One HAL call that does not fail with `HAL_ERROR`, then the rest of the plan. */
  lemma HalRunCons(p: seq<Op>, results: seq<Status>, replies: seq<byte>)
    requires p != [] && Next(results) != HalError
    ensures HalRun(p, results, replies) == [HalCall(p[0], Next(results), replies)] + HalRun(p[1..], Rest(results), Left(p[0], replies))
  {
  }

  /** After a run without halt, the next call's status is the one following the plan's calls. */
  lemma {:induction false} HaltsConcat(p: seq<Op>, q: seq<Op>, results: seq<Status>)
    requires !Halts(p, results)
    ensures Halts(p + q, results) == Halts(q, Skip(results, |p|))
  {
    if p == [] {
      assert p + q == q;
    } else {
      assert (p + q)[1..] == p[1..] + q;
      HaltsConcat(p[1..], q, Rest(results));
      assert Skip(results, |p|) == Skip(Rest(results), |p[1..]|);
    }
  }

  lemma LeftThenRest(p: seq<Op>, replies: seq<byte>)
    requires p != []
    ensures Drop(Left(p[0], replies), Received(p[1..])) == Drop(replies, Received(p))
  {
    if p[0].RxOp? {
      DropDrop(replies, p[0].n, Received(p[1..]));
    }
  }

  /**
   * Only `HAL_ERROR` stops a run: without it every call of the plan is
   * issued, busy and timeout results included; with it the run stops after
   * at most all of them, with the halt.
   */
  lemma {:induction false} HalRunLength(plan: seq<Op>, results: seq<Status>, replies: seq<byte>)
    ensures !Halts(plan, results) ==> |HalRun(plan, results, replies)| == |plan|
    ensures Halts(plan, results) ==> 2 <= |HalRun(plan, results, replies)| <= |plan| + 1
  {
    if plan != [] && Next(results) != HalError {
      HalRunLength(plan[1..], Rest(results), Left(plan[0], replies));
    }
  }

  /** A single HAL call: its log entry, followed by the halt if it failed with `HAL_ERROR`. */
  lemma HalStep(op: Op, results: seq<Status>, replies: seq<byte>)
    ensures HalRun([op], results, replies) == [HalCall(op, Next(results), replies)] + (if Next(results) == HalError then [Halt] else [])
    ensures Halts([op], results) == (Next(results) == HalError)
    ensures Skip(results, 1) == Rest(results)
    ensures Received([op]) == (if op.RxOp? then op.n else 0)
    ensures Drop(replies, Received([op])) == Left(op, replies)
  {
    assert [op][1..] == [];
  }

  /** A HAL run without halt, followed by another plan. */
  lemma HalThen(p: seq<Op>, q: seq<Op>, results: seq<Status>, replies: seq<byte>, log: seq<Transfer>)
    requires !Halts(p, results)
    ensures log + HalRun(p, results, replies) + HalRun(q, Skip(results, |p|), Drop(replies, Received(p)))
      == log + HalRun(p + q, results, replies)
    ensures Halts(p + q, results) == Halts(q, Skip(results, |p|))
  {
    HalRunConcat(p, q, results, replies);
    Seqs.Regroup2(log, HalRun(p, results, replies), HalRun(q, Skip(results, |p|), Drop(replies, Received(p))));
    HaltsConcat(p, q, results);
  }

  lemma {:induction false} HalRunHalted(p: seq<Op>, q: seq<Op>, results: seq<Status>, replies: seq<byte>)
    requires Halts(p, results)
    ensures HalRun(p + q, results, replies) == HalRun(p, results, replies)
    ensures Halts(p + q, results)
  {
    assert (p + q)[0] == p[0];
    assert (p + q)[1..] == p[1..] + q;
    if Next(results) != HalError {
      HalRunHalted(p[1..], q, Rest(results), Left(p[0], replies));
    }
  }

  /** The bus with its scripted slave and HAL, and the log of what was put on it. */
  class Bus {
    var log: seq<Transfer>
    var replies: seq<byte>
    var results: seq<Status>
    /** Set by `Error_Handler`, which never returns: a halted processor issues no further call. */
    var halted: bool

    constructor (replies: seq<byte>, results: seq<Status>)
      ensures log == [] && !halted
      ensures this.replies == replies && this.results == results
    {
      log := [];
      this.replies := replies;
      this.results := results;
      halted := false;
    }

    /** `I2C_MasterSendData(handle, data, |data|, addr, stop)`. */
    method Transmit(addr: byte, data: seq<byte>, stop: bool)
      modifies this`log
      ensures log == old(log) + [Send(addr, data, stop)]
    {
      log := log + [Send(addr, data, stop)];
    }

    /** `I2C_MasterReceiveData(handle, buffer, n, addr, stop)`: the buffer holds the next `n` replies. */
    method Receive(addr: byte, n: nat, stop: bool) returns (data: seq<byte>)
      modifies this`log, this`replies
      ensures data == Take(old(replies), n) && replies == Drop(old(replies), n)
      ensures log == old(log) + [Recv(addr, data, stop)]
    {
      data := Take(replies, n);
      replies := Drop(replies, n);
      log := log + [Recv(addr, data, stop)];
    }

    /** `HAL_I2C_Master_Transmit`: returns the next scripted status. */
    method HalTransmit(addr: byte, data: seq<byte>) returns (st: Status)
      requires !halted
      modifies this`log, this`results
      ensures st == Next(old(results)) && results == Rest(old(results))
      ensures log == old(log) + [HalSend(addr, data, st)]
    {
      st := Next(results);
      results := Rest(results);
      log := log + [HalSend(addr, data, st)];
    }

    /** `HAL_I2C_Master_Receive` of `n` bytes: the next scripted status and the next `n` replies. */
    method HalReceive(addr: byte, n: nat) returns (st: Status, data: seq<byte>)
      requires !halted
      modifies this`log, this`results, this`replies
      ensures st == Next(old(results)) && results == Rest(old(results))
      ensures data == Take(old(replies), n) && replies == Drop(old(replies), n)
      ensures log == old(log) + [HalRecv(addr, data, st)]
    {
      st := Next(results);
      results := Rest(results);
      data := Take(replies, n);
      replies := Drop(replies, n);
      log := log + [HalRecv(addr, data, st)];
    }

    /**
     * `while (HAL_I2C_IsDeviceReady(...) != HAL_OK);`: the device is assumed
     * to answer at last; the statuses of the polls are not scripted.
     */
    method AwaitReady(addr: byte)
      requires !halted
      modifies this`log
      ensures log == old(log) + [Ready(addr)]
    {
      log := log + [Ready(addr)];
    }

    /** `Error_Handler()`. */
    method Stop()
      requires !halted
      modifies this`log, this`halted
      ensures halted && log == old(log) + [Halt]
    {
      log := log + [Halt];
      halted := true;
    }
  }
}
