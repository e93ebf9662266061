/**
 * The AT24C32 EEPROM adapter of the register-level driver (`bsp/at24c32.c`)
 * and the page-chunking both adapters share. Writes go out from a cursor
 * (`curr_addr`, a module-static `uint16_t`) in chunks that never cross a
 * 32-byte page; the cursor wraps to the start of the memory only after the
 * whole call, so frames within one call may carry addresses of 0x1000 and up.
 */
module At24c32 {
  import opened Bits
  import opened I2cBus
  import Seqs

  const AT24C32_I2C_ADDR: byte := 0x50
  const AT24C32_START_ADDR: uint16 := 0x0000
  const AT24C32_END_ADDR: uint16 := 0x0FFF
  const PAGE_SIZE: nat := 32

  /** One page write: start address in the EEPROM and payload bytes. */
  datatype Chunk = Chunk(start: uint16, payload: seq<byte>)

  /** `page_space`: bytes left in the cursor's page, 1..32. */
  function PageSpace(cursor: uint16): (n: nat)
    ensures 1 <= n <= PAGE_SIZE
  {
    PAGE_SIZE - cursor % PAGE_SIZE
  }

  /** `curr_len`: the remaining length, capped at the page space. */
  function ChunkLen(cursor: uint16, remaining: nat): (n: nat)
    ensures remaining > 0 ==> 1 <= n
    ensures n <= remaining && n <= PageSpace(cursor)
    ensures n == remaining || n == PageSpace(cursor)
  {
    if remaining > PageSpace(cursor) then PageSpace(cursor) else remaining
  }

  /** `curr_addr += curr_len` on a `uint16_t`. */
  function Advance(cursor: uint16, n: nat): uint16
  {
    (cursor + n) % 0x1_0000
  }

  /** `set_data`'s chunks for `data` from `cursor`, in order. */
  function Chunks(cursor: uint16, data: seq<byte>): seq<Chunk>
    decreases |data|
  {
    if |data| == 0 then []
    else
      var n := ChunkLen(cursor, |data|);
      [Chunk(cursor, data[..n])] + Chunks(Advance(cursor, n), data[n..])
  }

  /** The two address bytes: `(addr >> 8) & 0xFF`, then `addr & 0xFF`. */
  function Pointer(address: uint16): (p: seq<byte>)
    ensures |p| == 2 && (p[0] as int) * 0x100 + (p[1] as int) == address
  {
    [address / 0x100, address % 0x100]
  }

  /** A chunk's frame: the address bytes, then the payload. */
  function Frame(c: Chunk): seq<byte>
  {
    Pointer(c.start) + c.payload
  }

  /** The cursor after a call on `len` bytes: advanced, then reset to the start once it reaches the end address. */
  function NextCursor(cursor: uint16, len: nat): uint16
  {
    var c := Advance(cursor, len);
    if c >= AT24C32_END_ADDR then AT24C32_START_ADDR else c
  }

  /** The transfers of the register-level adapter's write: one frame per chunk, each ending in STOP. */
  function SetDataPlan(cursor: uint16, data: seq<byte>): (p: seq<Op>)
    decreases |data|
  {
    if |data| == 0 then []
    else
      var n := ChunkLen(cursor, |data|);
      [TxOp(AT24C32_I2C_ADDR, Frame(Chunk(cursor, data[..n])), true)] + SetDataPlan(Advance(cursor, n), data[n..])
  }

  /** Every chunk holds 1..32 bytes and stays within one 32-byte page. */
  lemma {:induction false} ChunksInPage(cursor: uint16, data: seq<byte>)
    ensures forall c :: c in Chunks(cursor, data) ==>
      1 <= |c.payload| <= PAGE_SIZE && c.start % PAGE_SIZE + |c.payload| <= PAGE_SIZE
    decreases |data|
  {
    if |data| > 0 {
      var n := ChunkLen(cursor, |data|);
      ChunksInPage(Advance(cursor, n), data[n..]);
    }
  }

  /** The payloads, concatenated, are the data written. */
  function Payloads(cs: seq<Chunk>): seq<byte>
  {
    if cs == [] then [] else cs[0].payload + Payloads(cs[1..])
  }

  lemma {:induction false} ChunksCoverData(cursor: uint16, data: seq<byte>)
    ensures Payloads(Chunks(cursor, data)) == data
    decreases |data|
  {
    if |data| > 0 {
      var n := ChunkLen(cursor, |data|);
      var cs := Chunks(cursor, data);
      assert cs[1..] == Chunks(Advance(cursor, n), data[n..]);
      ChunksCoverData(Advance(cursor, n), data[n..]);
      assert data == data[..n] + data[n..];
    }
  }

  /** Each chunk starts where the previous one ended; the first at the cursor. */
  lemma {:induction false} ChunksContiguous(cursor: uint16, data: seq<byte>)
    ensures |data| > 0 ==> Chunks(cursor, data)[0].start == cursor
    ensures forall i :: 0 <= i < |Chunks(cursor, data)| - 1 ==>
      Chunks(cursor, data)[i + 1].start == Advance(Chunks(cursor, data)[i].start, |Chunks(cursor, data)[i].payload|)
    decreases |data|
  {
    if |data| > 0 {
      var n := ChunkLen(cursor, |data|);
      var rest := Chunks(Advance(cursor, n), data[n..]);
      ChunksContiguous(Advance(cursor, n), data[n..]);
      var cs := Chunks(cursor, data);
      assert cs == [Chunk(cursor, data[..n])] + rest;
      forall i | 0 <= i < |cs| - 1
        ensures cs[i + 1].start == Advance(cs[i].start, |cs[i].payload|)
      {
        if i > 0 {
          assert cs[i] == rest[i - 1] && cs[i + 1] == rest[i];
        }
      }
    }
  }

  /** The plan sends exactly the chunks' frames, in order. */
  lemma {:induction false} PlanFramesChunks(cursor: uint16, data: seq<byte>)
    ensures |SetDataPlan(cursor, data)| == |Chunks(cursor, data)|
    ensures forall i :: 0 <= i < |SetDataPlan(cursor, data)| ==>
      SetDataPlan(cursor, data)[i] == TxOp(AT24C32_I2C_ADDR, Frame(Chunks(cursor, data)[i]), true)
    decreases |data|
  {
    if |data| > 0 {
      var n := ChunkLen(cursor, |data|);
      PlanFramesChunks(Advance(cursor, n), data[n..]);
    }
  }

  /** The 16-bit cursor, advanced chunk by chunk, ends `len` bytes on (modulo 2^16). */
  lemma AdvanceTwice(cursor: uint16, m: nat, n: nat)
    ensures Advance(Advance(cursor, m), n) == Advance(cursor, m + n)
  {
  }

  /** Starting below the end address with room to spare, the cursor stays below it. */
  lemma CursorStaysInRange(cursor: uint16, len: nat)
    requires cursor < AT24C32_END_ADDR && cursor + len < 0x1_0000
    ensures NextCursor(cursor, len) < AT24C32_END_ADDR
    ensures len == 0 ==> NextCursor(cursor, len) == cursor
    ensures len == 0 ==> SetDataPlan(cursor, []) == []
  {
  }

  /** Cursor 20, 40 bytes: 12 bytes up to the page end at 32, then 28; the cursor ends at 60. */
  lemma ScenarioTwoPages(data: seq<byte>)
    requires |data| == 40
    ensures Chunks(20, data) == [Chunk(20, data[..12]), Chunk(32, data[12..])]
    ensures NextCursor(20, 40) == 60
  {
    var rest := data[12..];
    assert Chunks(20, data) == [Chunk(20, data[..12])] + Chunks(32, rest);
    assert rest[..28] == rest && rest[28..] == [];
    assert Chunks(32, rest) == [Chunk(32, rest)] + Chunks(60, []);
  }

  /** Near the end of the memory, the second chunk of one call is addressed at 0x1000, past the end address. */
  lemma ScenarioPastEnd(data: seq<byte>)
    requires |data| == 32
    ensures Chunks(0x0FF0, data) == [Chunk(0x0FF0, data[..16]), Chunk(0x1000, data[16..])]
    ensures NextCursor(0x0FF0, 32) == AT24C32_START_ADDR
  {
    var rest := data[16..];
    assert Chunks(0x0FF0, data) == [Chunk(0x0FF0, data[..16])] + Chunks(0x1000, rest);
    assert rest[..16] == rest && rest[16..] == [];
    assert Chunks(0x1000, rest) == [Chunk(0x1000, rest)] + Chunks(0x1010, []);
  }

  /** `get_data` of the register-level adapter: per byte, the pointer with a repeated start, then one byte. */
  function GetDataPlan(address: uint16, len: nat): (p: seq<Op>)
    ensures |p| == len + len
    decreases len
  {
    if len == 0 then []
    else ReadOps(address) + GetDataPlan(Advance(address, 1), len - 1)
  }

  /** The two transfers that read the byte at `address`. */
  function ReadOps(address: uint16): seq<Op>
  {
    [TxOp(AT24C32_I2C_ADDR, Pointer(address), false), RxOp(AT24C32_I2C_ADDR, 1)]
  }

  /** Byte `n` of a read is fetched from `address + n` (modulo 2^16), after the `n` before it. */
  lemma {:induction false} GetDataSnoc(address: uint16, n: nat)
    ensures GetDataPlan(address, n + 1) == GetDataPlan(address, n) + ReadOps(Advance(address, n))
    decreases n
  {
    var next := Advance(address, 1);
    assert GetDataPlan(address, n + 1) == ReadOps(address) + GetDataPlan(next, n);
    if n == 0 {
      assert Advance(address, 0) == address;
    } else {
      GetDataSnoc(next, n - 1);
      AdvanceTwice(address, 1, n - 1);
      assert GetDataPlan(address, n) == ReadOps(address) + GetDataPlan(next, n - 1);
      Seqs.Regroup2(ReadOps(address), GetDataPlan(next, n - 1), ReadOps(Advance(address, n)));
    }
  }

  /** The reads consume one reply byte each. */
  lemma {:induction false} GetDataReceives(address: uint16, len: nat)
    ensures Received(GetDataPlan(address, len)) == len
    decreases len
  {
    if len > 0 {
      var p := GetDataPlan(address, len);
      GetDataReceives(Advance(address, 1), len - 1);
      assert p[1..][1..] == GetDataPlan(Advance(address, 1), len - 1);
    }
  }

  /** The write-pointer state of `bsp/at24c32.c` and the bus it drives. */
  class Eeprom {
    /** `curr_addr`. */
    var currAddr: uint16
    const bus: Bus

    constructor (bus: Bus)
      ensures currAddr == AT24C32_START_ADDR && this.bus == bus
    {
      currAddr := AT24C32_START_ADDR;
      this.bus := bus;
    }

    /**
     * `at24c32_set_data(Tx, |data|)`: one framed transfer per chunk from the
     * cursor, which advances by each chunk and wraps only after the loop.
     */
    method SetData(data: seq<byte>)
      modifies this`currAddr, bus`log
      ensures bus.log == old(bus.log) + DriverRun(SetDataPlan(old(currAddr), data), old(bus.replies))
      ensures currAddr == NextCursor(old(currAddr), |data|)
    {
      var len: nat := |data|;
      var tx: nat := 0;
      ghost var done: seq<Op> := [];
      while len > 0
        invariant tx + len == |data|
        invariant currAddr == Advance(old(currAddr), tx)
        invariant SetDataPlan(old(currAddr), data) == done + SetDataPlan(currAddr, data[tx..])
        invariant bus.log == old(bus.log) + DriverRun(done, old(bus.replies))
        decreases len
      {
        var pageSpace: nat := PAGE_SIZE - currAddr % PAGE_SIZE;
        var currLen: nat := if len > pageSpace then pageSpace else len;
        var buf := [currAddr / 0x100, currAddr % 0x100] + data[tx..tx + currLen];
        assert currLen == ChunkLen(currAddr, |data| - tx);
        assert buf == Frame(Chunk(currAddr, data[tx..tx + currLen]));
        bus.Transmit(AT24C32_I2C_ADDR, buf, true);
        WriteStep(old(currAddr), data, done, tx, currAddr);
        WriteStepLog(done, buf, old(bus.replies), old(bus.log));
        done := done + [TxOp(AT24C32_I2C_ADDR, buf, true)];
        len := len - currLen;
        tx := tx + currLen;
        currAddr := Advance(currAddr, currLen);
      }
      WriteDone(old(currAddr), data, done, tx, currAddr);
      if currAddr >= AT24C32_END_ADDR {
        currAddr := AT24C32_START_ADDR;
      }
    }

    /**
     * `at24c32_get_data(Rx, address, len)`: byte by byte, the pointer with a
     * repeated start, then one byte with STOP; `curr_addr` is not involved.
     */
    method GetData(address: uint16, len: nat) returns (rx: seq<byte>)
      modifies bus`log, bus`replies
      ensures rx == Take(old(bus.replies), len) && bus.replies == Drop(old(bus.replies), len)
      ensures bus.log == old(bus.log) + DriverRun(GetDataPlan(address, len), old(bus.replies))
    {
      ghost var r0 := old(bus.replies);
      var remaining := len;
      var addr := address;
      rx := [];
      while remaining > 0
        invariant 0 <= remaining <= len
        invariant addr == Advance(address, len - remaining)
        invariant rx == Take(r0, len - remaining) && bus.replies == Drop(r0, len - remaining)
        invariant bus.log == old(bus.log) + DriverRun(GetDataPlan(address, len - remaining), r0)
        decreases remaining
      {
        ghost var k := len - remaining;
        bus.Transmit(AT24C32_I2C_ADDR, [addr / 0x100, addr % 0x100], false);
        var b := bus.Receive(AT24C32_I2C_ADDR, 1, true);
        ReadStepLog(address, k, r0, old(bus.log));
        ReadStepReplies(address, k, r0);
        rx := rx + b;
        remaining := remaining - 1;
        addr := Advance(addr, 1);
      }
    }
  }

  /** One more chunk written: the plan so far grows by its frame, the rest of the plan starts after it. */
  lemma WriteStep(c0: uint16, data: seq<byte>, done: seq<Op>, tx: nat, cursor: uint16)
    requires tx < |data| && cursor == Advance(c0, tx)
    requires SetDataPlan(c0, data) == done + SetDataPlan(cursor, data[tx..])
    ensures var n := ChunkLen(cursor, |data| - tx);
      SetDataPlan(c0, data)
        == (done + [TxOp(AT24C32_I2C_ADDR, Frame(Chunk(cursor, data[tx..tx + n])), true)])
          + SetDataPlan(Advance(cursor, n), data[tx + n..]) &&
      Advance(cursor, n) == Advance(c0, tx + n)
  {
    var n := ChunkLen(cursor, |data| - tx);
    var rest := data[tx..];
    var op := TxOp(AT24C32_I2C_ADDR, Frame(Chunk(cursor, data[tx..tx + n])), true);
    assert rest[..n] == data[tx..tx + n] && rest[n..] == data[tx + n..];
    assert SetDataPlan(cursor, rest) == [op] + SetDataPlan(Advance(cursor, n), rest[n..]);
    Seqs.Regroup2(done, [op], SetDataPlan(Advance(cursor, n), rest[n..]));
    AdvanceTwice(c0, tx, n);
  }

  /** One more frame sent: the log of the plan so far grows by its transfer. */
  lemma WriteStepLog(done: seq<Op>, frame: seq<byte>, r0: seq<byte>, log0: seq<Transfer>)
    ensures log0 + DriverRun(done, r0) + [Send(AT24C32_I2C_ADDR, frame, true)]
      == log0 + DriverRun(done + [TxOp(AT24C32_I2C_ADDR, frame, true)], r0)
  {
    DriverRunSnocTx(done, AT24C32_I2C_ADDR, frame, true, r0);
    Seqs.Regroup2(log0, DriverRun(done, r0), [Send(AT24C32_I2C_ADDR, frame, true)]);
  }

  /** With the whole data sent, the plan so far is the whole plan. */
  lemma WriteDone(c0: uint16, data: seq<byte>, done: seq<Op>, tx: nat, cursor: uint16)
    requires tx == |data| && SetDataPlan(c0, data) == done + SetDataPlan(cursor, data[tx..])
    ensures done == SetDataPlan(c0, data)
  {
    assert data[tx..] == [];
  }

  /** The two transfers of one byte read, as the driver runs them. */
  lemma ReadOpsRun(address: uint16, replies: seq<byte>)
    ensures DriverRun(ReadOps(address), replies)
      == [Send(AT24C32_I2C_ADDR, Pointer(address), false), Recv(AT24C32_I2C_ADDR, Take(replies, 1), true)]
  {
    var ops := ReadOps(address);
    assert ops[1..] == [RxOp(AT24C32_I2C_ADDR, 1)] && ops[1..][1..] == [];
    assert DriverRun(ops[1..][1..], Drop(replies, 1)) == [];
  }

  /** One more byte read: two more transfers. */
  lemma ReadStepLog(address: uint16, k: nat, r0: seq<byte>, log: seq<Transfer>)
    ensures log + DriverRun(GetDataPlan(address, k), r0)
        + [Send(AT24C32_I2C_ADDR, Pointer(Advance(address, k)), false), Recv(AT24C32_I2C_ADDR, Take(Drop(r0, k), 1), true)]
      == log + DriverRun(GetDataPlan(address, k + 1), r0)
  {
    var p, ops := GetDataPlan(address, k), ReadOps(Advance(address, k));
    GetDataSnoc(address, k);
    GetDataReceives(address, k);
    DriverRunConcat(p, ops, r0);
    ReadOpsRun(Advance(address, k), Drop(r0, k));
    Seqs.Regroup2(log, DriverRun(p, r0), DriverRun(ops, Drop(r0, k)));
  }

  /** One more byte read: one more reply consumed, the address one further on. */
  lemma ReadStepReplies(address: uint16, k: nat, r0: seq<byte>)
    ensures Take(r0, k) + Take(Drop(r0, k), 1) == Take(r0, k + 1)
    ensures Drop(Drop(r0, k), 1) == Drop(r0, k + 1)
    ensures Advance(Advance(address, k), 1) == Advance(address, k + 1)
  {
    TakeDrop(r0, k, 1);
    DropDrop(r0, k, 1);
    AdvanceTwice(address, k, 1);
  }
}
