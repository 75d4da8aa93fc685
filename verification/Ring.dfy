/** The arithmetic of a ring buffer: which bytes a data array with a read index and a count represents. */
module Ring {
  import opened Words

  const SIZE := 4096 // QUASAR_FIFO_BUFFER_SIZE

  /** The n bytes that start at read index `start`, wrapping at the end of the array. */
  function Window(data: seq<byte>, start: nat, n: nat): (w: seq<byte>)
    requires |data| == SIZE
    ensures |w| == n
  {
    seq(n, i requires 0 <= i => data[(start + i) % SIZE])
  }

  /** Storing at the write index does not disturb the queued bytes, and one more count makes the byte visible. */
  lemma WindowAppend(data: seq<byte>, start: nat, n: nat, b: byte)
    requires |data| == SIZE && start < SIZE && n < SIZE
    ensures Window(data[(start + n) % SIZE := b], start, n) == Window(data, start, n)
    ensures Window(data[(start + n) % SIZE := b], start, n + 1) == Window(data, start, n) + [b]
  {
  }

  lemma WindowDrop(data: seq<byte>, start: nat, n: nat)
    requires |data| == SIZE && start < SIZE && 0 < n <= SIZE
    ensures Window(data, start, n)[0] == data[start]
    ensures Window(data, (start + 1) % SIZE, n - 1) == Window(data, start, n)[1..]
  {
  }
}
