/**
 * The AT24C32 EEPROM adapter over the vendor HAL (`Drivers/bsp/at24c32.c`).
 * Writes are chunked exactly as in the register-level adapter (the chunking
 * is `At24c32.Chunks`), but every chunk waits for the device to be ready,
 * each transfer reports a status, and the first status other than `HAL_OK`
 * is returned at once: that chunk does not advance the cursor and the
 * end-of-memory wrap is skipped. A call on no data returns whatever the
 * uninitialised `ret` held; the model takes that value as a parameter.
 */
module At24c32Hal {
  import opened Bits
  import opened I2cBus
  import At24c32
  import Seqs

  /** `AT24C32_I2C_ADDR`: the 7-bit address 0x50 already shifted into the HAL's 8-bit form. */
  const AT24C32_I2C_ADDR: byte := 0xA0
  /** The same address with the read bit, `AT24C32_I2C_ADDR | 0x01`. */
  const AT24C32_RX_ADDR: byte := 0xA1

  /** What a write call leaves behind: its transfers, its return value, the cursor and the statuses not yet used. */
  datatype SetOutcome = SetOutcome(log: seq<Transfer>, status: Status, cursor: uint16, results: seq<Status>)

  /** The transfers of one chunk: wait for the device, then send the chunk's frame. */
  function ChunkEvents(c: At24c32.Chunk, st: Status): seq<Transfer>
  {
    [Ready(AT24C32_I2C_ADDR), HalSend(AT24C32_I2C_ADDR, At24c32.Frame(c), st)]
  }

  /**
   * Reference definition of `at24c32_set_data` from cursor `cursor`, with
   * `ret` the current value of the status variable and `log` the transfers
   * so far: chunk by chunk, stop at the first failed transmission, wrap the
   * cursor only after the last chunk.
   */
  function HalSet(cursor: uint16, data: seq<byte>, results: seq<Status>, ret: Status, log: seq<Transfer>): (r: SetOutcome)
    decreases |data|
  {
    if |data| == 0 then
      SetOutcome(log, ret, if cursor >= At24c32.AT24C32_END_ADDR then At24c32.AT24C32_START_ADDR else cursor, results)
    else
      var n := At24c32.ChunkLen(cursor, |data|);
      var st := Next(results);
      var events := ChunkEvents(At24c32.Chunk(cursor, data[..n]), st);
      if st != HalOk then SetOutcome(log + events, st, cursor, Rest(results))
      else HalSet(At24c32.Advance(cursor, n), data[n..], Rest(results), HalOk, log + events)
  }

  /** The transfers of a write in which every transmission succeeds. */
  function AllEvents(cs: seq<At24c32.Chunk>): seq<Transfer>
  {
    if cs == [] then [] else ChunkEvents(cs[0], HalOk) + AllEvents(cs[1..])
  }

  /** The first `k` statuses are all `HAL_OK` (an exhausted script reads as `HAL_OK`). */
  predicate AllOk(results: seq<Status>, k: nat)
  {
    forall i :: 0 <= i < k && i < |results| ==> results[i] == HalOk
  }

  /**
   * With every transmission succeeding, the HAL adapter sends the same chunks
   * as the register-level one, each after a readiness wait, returns `HAL_OK`
   * (or the untouched `ret` on no data) and leaves the cursor where the
   * register-level adapter leaves it.
   */
  lemma {:induction false} HalSetAllOk(cursor: uint16, data: seq<byte>, results: seq<Status>, ret: Status, log: seq<Transfer>)
    requires AllOk(results, |At24c32.Chunks(cursor, data)|)
    ensures HalSet(cursor, data, results, ret, log).log == log + AllEvents(At24c32.Chunks(cursor, data))
    ensures HalSet(cursor, data, results, ret, log).status == if |data| == 0 then ret else HalOk
    ensures HalSet(cursor, data, results, ret, log).cursor == At24c32.NextCursor(cursor, |data|)
    decreases |data|
  {
    if |data| == 0 {
      assert At24c32.Advance(cursor, 0) == cursor;
    } else {
      var n := At24c32.ChunkLen(cursor, |data|);
      var next := At24c32.Advance(cursor, n);
      var cs := At24c32.Chunks(cursor, data);
      assert cs == [At24c32.Chunk(cursor, data[..n])] + At24c32.Chunks(next, data[n..]);
      assert Next(results) == HalOk by {
        if results != [] { assert results[0] == HalOk; }
      }
      assert AllOk(Rest(results), |At24c32.Chunks(next, data[n..])|) by {
        forall i | 0 <= i < |At24c32.Chunks(next, data[n..])| && i < |Rest(results)|
          ensures Rest(results)[i] == HalOk
        {
          assert Rest(results)[i] == results[i + 1];
        }
      }
      var events := ChunkEvents(At24c32.Chunk(cursor, data[..n]), HalOk);
      HalSetAllOk(next, data[n..], Rest(results), HalOk, log + events);
      assert cs[1..] == At24c32.Chunks(next, data[n..]);
      Seqs.Regroup2(log, events, AllEvents(cs[1..]));
      At24c32.AdvanceTwice(cursor, n, |data| - n);
    }
  }

  /**
   * The call fails exactly when one of the statuses it consumes is not
   * `HAL_OK`; it then returns that status, its last transfer is the failed
   * send, and the cursor is not wrapped.
   */
  lemma {:induction false} HalSetFailure(cursor: uint16, data: seq<byte>, results: seq<Status>, ret: Status, log: seq<Transfer>)
    requires |data| > 0
    ensures var r := HalSet(cursor, data, results, ret, log);
      r.status != HalOk <==> !AllOk(results, |At24c32.Chunks(cursor, data)|)
    ensures var r := HalSet(cursor, data, results, ret, log);
      r.status != HalOk ==> r.log != [] && r.log[|r.log| - 1].HalSend? && r.log[|r.log| - 1].st == r.status
    decreases |data|
  {
    var n := At24c32.ChunkLen(cursor, |data|);
    var next := At24c32.Advance(cursor, n);
    var r := HalSet(cursor, data, results, ret, log);
    var cs := At24c32.Chunks(cursor, data);
    assert cs == [At24c32.Chunk(cursor, data[..n])] + At24c32.Chunks(next, data[n..]);
    if Next(results) != HalOk {
      assert results != [] && results[0] != HalOk;
      assert !AllOk(results, |cs|);
    } else {
      var events := ChunkEvents(At24c32.Chunk(cursor, data[..n]), HalOk);
      var rest := HalSet(next, data[n..], Rest(results), HalOk, log + events);
      assert r == rest;
      assert AllOk(results, |cs|) <==> AllOk(Rest(results), |cs| - 1) by {
        ShiftAllOk(results, |cs| - 1);
      }
      if |data[n..]| == 0 {
        assert rest.status == HalOk;
        assert |cs| == 1 by { assert At24c32.Chunks(next, data[n..]) == []; }
        assert AllOk(Rest(results), 0);
      } else {
        HalSetFailure(next, data[n..], Rest(results), HalOk, log + events);
      }
    }
  }

  /** `AllOk` for `k + 1` statuses is the first one being `HAL_OK` and `AllOk` of the rest for `k`. */
  lemma ShiftAllOk(results: seq<Status>, k: nat)
    requires Next(results) == HalOk
    ensures AllOk(results, k + 1) <==> AllOk(Rest(results), k)
  {
    if AllOk(Rest(results), k) {
      forall i | 0 <= i < k + 1 && i < |results|
        ensures results[i] == HalOk
      {
        if i > 0 { assert results[i] == Rest(results)[i - 1]; }
      }
    }
    if AllOk(results, k + 1) {
      forall i | 0 <= i < k && i < |Rest(results)|
        ensures Rest(results)[i] == HalOk
      {
        assert Rest(results)[i] == results[i + 1];
      }
    }
  }

  /** What a read call leaves behind. */
  datatype GetOutcome = GetOutcome(log: seq<Transfer>, status: Status, data: seq<byte>, results: seq<Status>, replies: seq<byte>)

  /**
   * Reference definition of `at24c32_get_data`: the two address bytes, and
   * only if they were accepted one receive of `len` bytes from the read address.
   */
  function HalGet(address: uint16, len: nat, results: seq<Status>, replies: seq<byte>): (r: GetOutcome)
  {
    var st := Next(results);
    var send := HalSend(AT24C32_I2C_ADDR, At24c32.Pointer(address), st);
    if st != HalOk then GetOutcome([send], st, [], Rest(results), replies)
    else
      var st2 := Next(Rest(results));
      var got := Take(replies, len);
      GetOutcome([send, HalRecv(AT24C32_RX_ADDR, got, st2)], st2, got, Rest(Rest(results)), Drop(replies, len))
  }

  /**
   * A read whose address write is refused issues no receive and fills
   * nothing; otherwise it returns the receive's status and the next `len`
   * bytes, and exactly those bytes are consumed.
   */
  lemma HalGetOutcome(address: uint16, len: nat, results: seq<Status>, replies: seq<byte>)
    ensures var r := HalGet(address, len, results, replies);
      Next(results) != HalOk ==> |r.log| == 1 && r.data == [] && r.status == Next(results) && r.replies == replies
    ensures var r := HalGet(address, len, results, replies);
      Next(results) == HalOk ==>
        (|r.log| == 2 && |r.data| == len && r.status == Next(Rest(results))
         && r.data + r.replies == Take(replies, len) + Drop(replies, len)
         && (len <= |replies| ==> r.data + r.replies == replies))
  {
    if Next(results) == HalOk && len <= |replies| {
      var r := HalGet(address, len, results, replies);
      assert r.data == replies[..len] by {
        assert |r.data| == len;
        forall i | 0 <= i < len ensures r.data[i] == replies[..len][i] {
          assert r.data[i] == Reply(replies, i);
        }
      }
      assert replies[..len] + replies[len..] == replies;
    }
  }

  /** The cursor of the HAL adapter and the bus it drives. */
  class EepromHal {
    /** `curr_addr`. */
    var currAddr: uint16
    const bus: Bus

    constructor (bus: Bus)
      ensures currAddr == At24c32.AT24C32_START_ADDR && this.bus == bus
    {
      currAddr := At24c32.AT24C32_START_ADDR;
      this.bus := bus;
    }

    /** `at24c32_set_data(Tx, |data|)`, with `uninit` the value of `ret` before the loop. */
    method SetData(data: seq<byte>, uninit: Status) returns (ret: Status)
      requires !bus.halted
      modifies this`currAddr, bus`log, bus`results
      ensures var r := HalSet(old(currAddr), data, old(bus.results), uninit, old(bus.log));
        bus.log == r.log && ret == r.status && currAddr == r.cursor && bus.results == r.results
    {
      ret := uninit;
      var len: nat := |data|;
      var tx: nat := 0;
      while len > 0
        invariant tx + len == |data|
        invariant HalSet(old(currAddr), data, old(bus.results), uninit, old(bus.log))
          == HalSet(currAddr, data[tx..], bus.results, ret, bus.log)
        decreases len
      {
        var pageSpace: nat := At24c32.PAGE_SIZE - currAddr % At24c32.PAGE_SIZE;
        var currLen: nat := if len > pageSpace then pageSpace else len;
        var buf := [currAddr / 0x100, currAddr % 0x100] + data[tx..tx + currLen];
        assert currLen == At24c32.ChunkLen(currAddr, |data| - tx);
        assert buf == At24c32.Frame(At24c32.Chunk(currAddr, data[tx..tx + currLen]));
        SetStep(currAddr, data, tx, bus.results, ret, bus.log);
        ghost var log0 := bus.log;
        bus.AwaitReady(AT24C32_I2C_ADDR);
        ret := bus.HalTransmit(AT24C32_I2C_ADDR, buf);
        Seqs.Snoc2(log0, Ready(AT24C32_I2C_ADDR), HalSend(AT24C32_I2C_ADDR, buf, ret));
        if ret != HalOk {
          return;
        }
        len := len - currLen;
        tx := tx + currLen;
        currAddr := At24c32.Advance(currAddr, currLen);
      }
      assert data[tx..] == [];
      if currAddr >= At24c32.AT24C32_END_ADDR {
        currAddr := At24c32.AT24C32_START_ADDR;
      }
    }

    /** `at24c32_get_data(Rx, address, len)`; the bytes placed in `Rx` are returned. */
    method GetData(address: uint16, len: nat) returns (ret: Status, rx: seq<byte>)
      requires !bus.halted
      modifies bus`log, bus`results, bus`replies
      ensures var r := HalGet(address, len, old(bus.results), old(bus.replies));
        bus.log == old(bus.log) + r.log && ret == r.status && rx == r.data
        && bus.results == r.results && bus.replies == r.replies
    {
      rx := [];
      ret := bus.HalTransmit(AT24C32_I2C_ADDR, [address / 0x100, address % 0x100]);
      if ret != HalOk {
        return;
      }
      ret, rx := bus.HalReceive(AT24C32_RX_ADDR, len);
      Seqs.Snoc2(old(bus.log), HalSend(AT24C32_I2C_ADDR, At24c32.Pointer(address), HalOk), HalRecv(AT24C32_RX_ADDR, rx, ret));
    }
  }

  /**
   * One chunk of a write, as the reference definition unfolds it: a failure
   * ends the call there, a success leaves the rest of the data from the
   * advanced cursor.
   */
  lemma SetStep(cursor: uint16, data: seq<byte>, tx: nat, results: seq<Status>, prev: Status, log: seq<Transfer>)
    requires tx < |data|
    ensures var n := At24c32.ChunkLen(cursor, |data| - tx);
      var st := Next(results);
      var events := ChunkEvents(At24c32.Chunk(cursor, data[tx..tx + n]), st);
      (st != HalOk ==> HalSet(cursor, data[tx..], results, prev, log) == SetOutcome(log + events, st, cursor, Rest(results))) &&
      (st == HalOk ==>
        HalSet(cursor, data[tx..], results, prev, log)
          == HalSet(At24c32.Advance(cursor, n), data[tx + n..], Rest(results), HalOk, log + events))
  {
    var n := At24c32.ChunkLen(cursor, |data| - tx);
    var rest := data[tx..];
    assert rest[..n] == data[tx..tx + n] && rest[n..] == data[tx + n..];
  }
}
