/**
 The non-blocking write side of one server TCP connection: bytes wait in `writeBuf`, and
 `writeOff` counts those already handed to `send`.  The kernel is an arbitrary list of call
 results; calls beyond the list would block.
 */
module WriteBuffer {
  import opened Bytes

  /** The result of `send` that means "would block"; every other non-positive result is fatal. */
  const WOULD_BLOCK: int := -1

  /** What one flush did: how many bytes the kernel took, and whether the socket survived. */
  datatype Took = Took(n: nat, ok: bool)

  /** The result of the `i`-th call to `send`. */
  function Result(kernel: seq<int>, i: int): (n: int)
  {
    if 0 <= i < |kernel| then kernel[i] else WOULD_BLOCK
  }

  /** Flushing `len` waiting bytes against the results of calls `i`, `i + 1`, ... */
  function Flush(len: nat, kernel: seq<int>, i: nat): (t: Took)
    ensures t.n <= len
    ensures !t.ok ==> t.n < len
    decreases len
  {
    if len == 0 then Took(0, true)
    else if Result(kernel, i) > 0 then
      var n := Min(Result(kernel, i), len);
      var rest := Flush(len - n, kernel, i + 1);
      rest.(n := n + rest.n)
    else Took(0, Result(kernel, i) == WOULD_BLOCK)
  }

  /** The sum of the results of calls `i` to `k - 1`. */
  function Sum(kernel: seq<int>, i: nat, k: int): int
    requires i <= k
    decreases k - i
  {
    if i == k then 0 else Result(kernel, i) + Sum(kernel, i + 1, k)
  }

  /**
   Calls `i` to `k - 1` are made and each takes something; then everything was taken, or call `k`
   takes nothing: it would block, or the socket has failed.
   */
  predicate Stops(len: nat, kernel: seq<int>, i: nat, k: int, t: Took)
  {
    && i <= k && (forall j :: i <= j < k ==> Result(kernel, j) > 0)
    && (if Sum(kernel, i, k) >= len then t == Took(len, true)
        else Result(kernel, k) <= 0 && t.n == Sum(kernel, i, k) && (t.ok <==> Result(kernel, k) == WOULD_BLOCK))
  }

  /** A flush takes the sum of the kernel's results up to the first that is not positive, but no more than waits. */
  lemma {:induction false} FlushTakes(len: nat, kernel: seq<int>, i: nat) returns (k: nat)
    ensures Stops(len, kernel, i, k, Flush(len, kernel, i))
    decreases len
  {
    k := i;
    if len > 0 && Result(kernel, i) > 0 {
      var n := Min(Result(kernel, i), len);
      k := FlushTakes(len - n, kernel, i + 1);
      SumPositive(kernel, i + 1, k);
    }
  }

  lemma {:induction false} SumPositive(kernel: seq<int>, i: nat, k: nat)
    requires i <= k && forall j :: i <= j < k ==> Result(kernel, j) > 0
    ensures Sum(kernel, i, k) >= 0
    decreases k - i
  {
    if i < k { SumPositive(kernel, i + 1, k); }
  }

  /** The bytes still waiting: the part not taken, or nothing once the socket has failed. */
  function Left(pending: seq<Byte>, t: Took): (left: seq<Byte>)
    requires t.n <= |pending|
    ensures t.ok ==> pending[..t.n] + left == pending
  {
    if t.ok then pending[t.n..] else []
  }

  /** Call `send` until everything is taken, the kernel would block, or the socket fails. */
  method SendLoop(len: nat, kernel: seq<int>) returns (t: Took)
    ensures t == Flush(len, kernel, 0)
    ensures exists k :: Stops(len, kernel, 0, k, t)
    ensures kernel != [] && kernel[0] > 0 ==> t.n >= Min(kernel[0], len)
  {
    ghost var stop := FlushTakes(len, kernel, 0);
    var calls, taken := 0, 0;
    while taken < len && Result(kernel, calls) > 0
      invariant 0 <= calls && 0 <= taken <= len
      invariant Flush(len, kernel, 0) == Took(taken + Flush(len - taken, kernel, calls).n, Flush(len - taken, kernel, calls).ok)
      decreases len - taken
    {
      taken := taken + Min(Result(kernel, calls), len - taken);
      calls := calls + 1;
    }
    t := Took(taken, taken >= len || Result(kernel, calls) == WOULD_BLOCK);
  }

  class TcpConn {
    var writeBuf: seq<Byte>
    var writeOff: nat
    var writePending: bool

    ghost predicate Valid()
      reads this
    {
      writeOff <= |writeBuf|
    }

    ghost function Pending(): seq<Byte>
      requires Valid()
      reads this
    {
      writeBuf[writeOff..]
    }

    constructor ()
      ensures Valid() && Pending() == []
    {
      writeBuf, writeOff, writePending := [], 0, false;
    }

    /** The `flushTcpLocked` loop; `writePending` is the state reported to the IO backend. */
    method FlushLocked(kernel: seq<int>) returns (ok: bool, wire: seq<Byte>)
      requires Valid()
      modifies this
      ensures Valid()
      ensures var t := Flush(|old(Pending())|, kernel, 0);
              && ok == t.ok
              && wire == old(Pending())[..t.n]
              && Pending() == Left(old(Pending()), t)
      ensures writePending == (Pending() != [])
    {
      var t := SendLoop(|writeBuf| - writeOff, kernel);
      ok, wire := t.ok, writeBuf[writeOff..writeOff + t.n];
      if !ok {
        writeBuf, writeOff, writePending := [], 0, false;
        return;
      }
      writeOff := writeOff + t.n;
      var drained := writeOff >= |writeBuf|;
      if drained {
        writeBuf, writeOff := [], 0;
      }
      writePending := !drained;
    }

    /** `sendTcpRawLocked`: drop the sent prefix, append, and try to send. */
    method SendRawLocked(data: seq<Byte>, kernel: seq<int>) returns (ok: bool, wire: seq<Byte>)
      requires Valid()
      modifies this
      ensures Valid()
      ensures data == [] ==> ok && wire == [] && Pending() == old(Pending())
      ensures data != [] ==>
                var queued := old(Pending()) + data;
                var t := Flush(|queued|, kernel, 0);
                ok == t.ok && wire == queued[..t.n] && Pending() == Left(queued, t)
    {
      if data == [] {
        return true, [];
      }
      if writeOff > 0 {
        writeBuf := if writeOff >= |writeBuf| then [] else writeBuf[writeOff..];
        writeOff := 0;
      }
      writeBuf := writeBuf + data;
      assert Pending() == old(Pending()) + data;
      ok, wire := FlushLocked(kernel);
    }
  }
}
