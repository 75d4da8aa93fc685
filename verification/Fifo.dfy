/** quasar_fifo.c: the 4096-byte queue under the UART and I2C interrupt drivers. */
module Fifo {
  import opened Words
  import opened Ring

  datatype FifoStatus = Ok | InvalidByteCount

  /** What n pulls from a queue assemble, most significant byte first. A pull from an empty queue leaves the byte
      variable as it was, so the last byte pulled is used again. */
  function Assembled(queue: seq<byte>, n: nat, last: byte): int
    decreases n
  {
    if n == 0 then 0
    else
      var b := if queue == [] then last else queue[0];
      b as int * Weight(n - 1) + Assembled(Rest(queue, 1), n - 1, b)
  }

  /** The queue after n pulls. */
  function Rest(queue: seq<byte>, n: nat): seq<byte> {
    if n <= |queue| then queue[n..] else []
  }

  /** Eight pulls fit the 64-bit result, four pulls fit a register word. */
  lemma {:induction false} AssembledBound(queue: seq<byte>, n: nat, last: byte)
    ensures 0 <= Assembled(queue, n, last) < Weight(n)
    decreases n
  {
    if n > 0 {
      var b := if queue == [] then last else queue[0];
      AssembledBound(Rest(queue, 1), n - 1, b);
      DigitBound(b, Weight(n - 1));
    }
  }

  lemma {:induction false} AssembledIsBigEndian(queue: seq<byte>, n: nat, last: byte)
    requires n <= |queue|
    ensures Assembled(queue, n, last) == BigEndian(queue[..n])
    decreases n
  {
    if n > 0 {
      AssembledIsBigEndian(queue[1..], n - 1, queue[0]);
      assert queue[..n][1..] == queue[1..][..n - 1];
    }
  }

  /** Four pulls at the front of a queued word give the word back and leave what was queued behind it. */
  lemma WordRoundTrip(w: word, behind: seq<byte>, last: byte)
    ensures Assembled(Queued(w) + behind, 4, last) == w
    ensures Rest(Queued(w) + behind, 4) == behind
  {
    AssembledIsBigEndian(Queued(w) + behind, 4, last);
    assert (Queued(w) + behind)[..4] == Queued(w);
    QueuedValue(w);
  }

  /** With too few bytes the tail of the assembled value is copies of the last byte (zero on an empty queue). */
  lemma {:induction false} ShortPullRepeats(queue: seq<byte>, n: nat, last: byte)
    requires |queue| <= n
    ensures var fill := if queue == [] then last else queue[|queue| - 1];
            Assembled(queue, n, last) == BigEndian(queue + seq(n - |queue|, _ => fill))
    decreases n
  {
    var fill := if queue == [] then last else queue[|queue| - 1];
    var padded := queue + seq(n - |queue|, _ => fill);
    if n > 0 {
      var b := if queue == [] then last else queue[0];
      ShortPullRepeats(Rest(queue, 1), n - 1, b);
      assert padded[0] == b;
      assert padded[1..] == Rest(queue, 1) + seq(n - 1 - |Rest(queue, 1)|, _ => fill);
    }
  }

  class Fifo {
    const data: array<byte>
    var count: nat
    var indexIn: nat
    var indexOut: nat

    ghost predicate Valid()
      reads this, data
    {
      && data.Length == SIZE
      && count <= SIZE && indexIn < SIZE && indexOut < SIZE
      && indexIn == (indexOut + count) % SIZE
    }

    /** The queued bytes, oldest first. */
    ghost function Contents(): (s: seq<byte>)
      requires Valid()
      reads this, data
      ensures |s| == count
    {
      Window(data[..], indexOut, count)
    }

    constructor ()
      ensures Valid() && fresh(data) && Contents() == []
    {
      data := new byte[SIZE](_ => 0);
      count, indexIn, indexOut := 0, 0, 0;
    }

    method Init()
      requires data.Length == SIZE
      modifies this
      ensures Valid() && Contents() == []
    {
      count := 0;
      indexIn := 0;
      indexOut := 0;
    }

    method Push(newData: byte) returns (full: bool)
      requires Valid()
      modifies this, data
      ensures Valid()
      ensures full == (old(count) == SIZE)
      ensures Contents() == if full then old(Contents()) else old(Contents()) + [newData]
    {
      if count >= SIZE {
        return true;
      }
      WindowAppend(data[..], indexOut, count, newData);
      data[indexIn] := newData;
      indexIn := indexIn + 1;
      indexIn := indexIn % SIZE;
      count := count + 1;
      return false;
    }

    /** All or nothing; the bytes enter in reverse order, last array element first. The guard is `>=`, so a batch
        that would exactly fill the queue is refused. */
    method PushBytes(newData: seq<byte>, size: nat) returns (full: bool)
      requires Valid() && size <= |newData|
      modifies this, data
      ensures Valid()
      ensures full == (old(count) + size >= SIZE)
      ensures Contents() == if full then old(Contents()) else old(Contents()) + Reversed(newData[..size])
    {
      if count + size >= SIZE {
        return true;
      }
      ghost var r := Reversed(newData[..size]);
      var i: int := size - 1;
      while i >= 0
        invariant -1 <= i < size
        invariant Valid() && count == old(count) + (size - 1 - i)
        invariant Contents() == old(Contents()) + r[..size - 1 - i]
      {
        assert r[size - 1 - i] == newData[i];
        var _ := Push(newData[i]);
        assert r[..size - i] == r[..size - 1 - i] + [newData[i]];
        i := i - 1;
      }
      assert r[..size] == r;
      return false;
    }

    /** `pulled` is the caller's byte variable before the call; it is left alone when the queue is empty. */
    method Pull(pulled: byte) returns (empty: bool, b: byte)
      requires Valid()
      modifies this
      ensures Valid()
      ensures empty == (old(count) == 0)
      ensures b == if empty then pulled else old(Contents())[0]
      ensures Contents() == Rest(old(Contents()), 1)
    {
      if count <= 0 {
        return true, pulled;
      }
      WindowDrop(data[..], indexOut, count);
      b := data[indexOut];
      indexOut := indexOut + 1;
      indexOut := indexOut % SIZE;
      count := count - 1;
      empty := false;
    }

    method PullBytes(numberOfBytes: nat) returns (pulled: int, err: FifoStatus)
      requires Valid()
      modifies this
      ensures Valid()
      ensures err == if numberOfBytes > 8 then InvalidByteCount else Ok
      ensures err.InvalidByteCount? ==> pulled == 0 && Contents() == old(Contents())
      ensures err.Ok? ==> pulled == Assembled(old(Contents()), numberOfBytes, 0)
      ensures err.Ok? ==> Contents() == Rest(old(Contents()), numberOfBytes)
    {
      pulled := 0;
      err := Ok;
      if numberOfBytes > 8 {
        return 0, InvalidByteCount;
      }
      var pulledByte: byte := 0;
      var i: int := numberOfBytes - 1;
      while i >= 0
        invariant -1 <= i < numberOfBytes
        invariant Valid()
        invariant Contents() == Rest(old(Contents()), numberOfBytes - 1 - i)
        invariant pulled + Assembled(Contents(), i + 1, pulledByte) == Assembled(old(Contents()), numberOfBytes, 0)
      {
        var _, b := Pull(pulledByte);
        pulledByte := b;
        pulled := pulled + pulledByte as int * Weight(i);
        i := i - 1;
      }
    }

    method GetCount() returns (n: nat)
      requires Valid()
      ensures n == |Contents()|
    {
      n := count;
    }
  }
}
