/** quasar_memory.c: reading, writing and erasing the internal flash through the HAL.

    The HAL calls are modelled by what they promise: programming succeeds only on an aligned, erased quadword inside the
    flash and then stores its 16 bytes; erasing succeeds only on an existing page and then sets it to 0xFF; a call that
    fails changes nothing. Whether a call fails is otherwise open. */
module Flash {
  import opened Words

  const BASE := 0x0800_0000  // FLASH_BASE
  const PAGE := 0x2000       // FLASH_PAGE_SIZE
  const QUAD := 16           // QUAD_WORD_SIZE

  datatype Hal = HalOk | HalError | HalBusy | HalTimeout

  datatype Err = Success | Fault | Busy | Timeout | Argument

  function Verified(status: Hal): Err {
    match status
    case HalOk => Success
    case HalError => Fault
    case HalBusy => Busy
    case HalTimeout => Timeout
  }

  /** What an operation reports when its HAL calls returned these statuses: the first failure, or success. */
  function Outcome(calls: seq<Hal>): Err {
    if calls == [] then Success else if calls[0] != HalOk then Verified(calls[0]) else Outcome(calls[1..])
  }

  /** n successful calls and one more. */
  lemma {:induction false} OutcomeAfter(before: nat, calls: seq<Hal>)
    requires before <= |calls| && forall i :: 0 <= i < before ==> calls[i] == HalOk
    ensures Outcome(calls) == Outcome(calls[before..])
    decreases before
  {
    if before > 0 {
      OutcomeAfter(before - 1, calls[1..]);
      assert calls[1..][before - 1..] == calls[before..];
    } else {
      assert calls[0..] == calls;
    }
  }

  lemma FirstFailure(calls: seq<Hal>, n: nat)
    requires n < |calls| && calls[n] != HalOk && forall i :: 0 <= i < n ==> calls[i] == HalOk
    ensures Outcome(calls) == Verified(calls[n]) != Success
  {
    OutcomeAfter(n, calls);
  }

  lemma AllOk(calls: seq<Hal>)
    requires forall i :: 0 <= i < |calls| ==> calls[i] == HalOk
    ensures Outcome(calls) == Success
  {
    OutcomeAfter(|calls|, calls);
  }

  /** How many quadwords a write of n bytes programs. */
  function Quads(n: nat): nat { (n + 15) / 16 }

  /** The flash after the first k quadwords of src have been programmed from offset o. */
  function Programmed(flash: seq<byte>, o: nat, src: seq<byte>, k: nat): (f: seq<byte>)
    requires o + QUAD * k <= |flash| && QUAD * k <= |src|
    ensures |f| == |flash|
  {
    flash[..o] + src[..QUAD * k] + flash[o + QUAD * k..]
  }

  /** A finished write: reading the range back gives the buffer, and nothing outside its quadwords has changed. */
  lemma WriteReadRoundTrip(flash: seq<byte>, o: nat, src: seq<byte>, n: nat)
    requires o + QUAD * Quads(n) <= |flash| && QUAD * Quads(n) <= |src|
    ensures var f := Programmed(flash, o, src, Quads(n));
            && f[o..o + n] == src[..n]
            && f[..o] == flash[..o] && f[o + QUAD * Quads(n)..] == flash[o + QUAD * Quads(n)..]
  {
  }

  /** The byte count is kept in 16 bits: the quadwords programmed cover the buffer exactly when it is shorter than
      64 KiB. A longer buffer is cut to its size modulo 64 KiB, and success is reported all the same. */
  lemma WholeBufferIff(size: word)
    ensures QUAD * Quads(size % 0x1_0000) >= size <==> size < 0x1_0000
  {
  }

  datatype Bank = Bank1 | Bank2

  datatype EraseInfo = EraseInfo(bank: Bank, page: nat)

  /** memory_get_erase_info; the subtraction is 32 bits wide. */
  function EraseInfoFor(address: word, bankSize: nat): EraseInfo {
    if address < BASE + bankSize then EraseInfo(Bank1, (address - BASE) % 0x1_0000_0000 / PAGE)
    else EraseInfo(Bank2, (address - (BASE + bankSize)) / PAGE)
  }

  /** Banks are whole pages, and both fit the address space above BASE. */
  predicate Geometry(bankSize: nat) { bankSize > 0 && bankSize % PAGE == 0 && BASE + 2 * bankSize < 0x8000_0000 }

  predicate Exists(info: EraseInfo, bankSize: nat) { info.page < bankSize / PAGE }

  /** Offset of the first byte of a page. */
  function PageStart(info: EraseInfo, bankSize: nat): nat {
    (if info.bank == Bank1 then 0 else bankSize) + info.page * PAGE
  }

  predicate InPage(o: nat, info: EraseInfo, bankSize: nat) {
    PageStart(info, bankSize) <= o < PageStart(info, bankSize) + PAGE
  }

  /** The computed page exists exactly for the addresses inside the flash, and then contains the address. */
  lemma ErasePageContains(address: word, bankSize: nat)
    requires Geometry(bankSize)
    ensures var info := EraseInfoFor(address, bankSize);
            && (Exists(info, bankSize) <==> BASE <= address < BASE + 2 * bankSize)
            && (BASE <= address < BASE + 2 * bankSize ==> InPage(address - BASE, info, bankSize))
  {
  }

  /** No two existing pages share an offset, so the computed page is the only one that contains the address. */
  lemma PagesDisjoint(o: nat, p: EraseInfo, q: EraseInfo, bankSize: nat)
    requires Geometry(bankSize) && Exists(p, bankSize) && Exists(q, bankSize)
    requires InPage(o, p, bankSize) && InPage(o, q, bankSize)
    ensures p == q
  {
  }

  lemma PageInside(p: EraseInfo, bankSize: nat)
    requires Geometry(bankSize) && Exists(p, bankSize)
    ensures PageStart(p, bankSize) + PAGE <= 2 * bankSize && PageStart(p, bankSize) % PAGE == 0
  {
  }

  /** The flash after one page has been erased. */
  function Erased(flash: seq<byte>, start: nat): (f: seq<byte>)
    requires start + PAGE <= |flash|
    ensures |f| == |flash|
    ensures forall i :: 0 <= i < |f| ==> f[i] == if start <= i < start + PAGE then 0xff else flash[i]
  {
    flash[..start] + seq(PAGE, _ => 0xff) + flash[start + PAGE..]
  }

  /** Erasing page after page of a range, the n-th page being the one computed for address + n * PAGE. */
  function ErasedRange(flash: seq<byte>, address: word, bankSize: nat, n: nat): (f: seq<byte>)
    requires Geometry(bankSize) && |flash| == 2 * bankSize
    requires BASE <= address && (n > 0 ==> address + (n - 1) * PAGE < BASE + 2 * bankSize)
    ensures |f| == |flash|
    decreases n
  {
    if n == 0 then flash
    else
      ErasePageContains(address + (n - 1) * PAGE, bankSize);
      var p := EraseInfoFor(address + (n - 1) * PAGE, bankSize);
      PageInside(p, bankSize);
      Erased(ErasedRange(flash, address, bankSize, n - 1), PageStart(p, bankSize))
  }

  /** The start of the page that contains offset o. */
  function Floor(o: nat): (start: nat)
    ensures start % PAGE == 0 && start <= o < start + PAGE
  {
    o / PAGE * PAGE
  }

  lemma PageStartIsFloor(address: word, bankSize: nat)
    requires Geometry(bankSize) && BASE <= address < BASE + 2 * bankSize
    ensures PageStart(EraseInfoFor(address, bankSize), bankSize) == Floor(address - BASE)
  {
    ErasePageContains(address, bankSize);
    PageInside(EraseInfoFor(address, bankSize), bankSize);
  }

  lemma FloorOfPages(o: nat, m: nat)
    ensures Floor(o + m * PAGE) == Floor(o) + m * PAGE
  {
  }

  /** f is the flash with exactly the bytes from..to erased. */
  ghost predicate ErasedBytes(flash: seq<byte>, f: seq<byte>, from: nat, to: nat) {
    |f| == |flash| && forall i :: 0 <= i < |f| ==> f[i] == if from <= i < to then 0xff else flash[i]
  }

  lemma NothingErased(flash: seq<byte>, from: nat)
    ensures ErasedBytes(flash, flash, from, from)
  {
  }

  lemma OnePageMore(flash: seq<byte>, g: seq<byte>, from: nat, to: nat)
    requires ErasedBytes(flash, g, from, to) && from <= to && to + PAGE <= |g|
    ensures ErasedBytes(flash, Erased(g, to), from, to + PAGE)
  {
  }

  /** Erasing n consecutive pages from an address sets exactly the bytes from the start of its page for n pages, across
      the bank boundary too. */
  lemma {:induction false} EraseRangeCovers(flash: seq<byte>, address: word, bankSize: nat, n: nat)
    requires Geometry(bankSize) && |flash| == 2 * bankSize
    requires BASE <= address && (n > 0 ==> address + (n - 1) * PAGE < BASE + 2 * bankSize)
    ensures var from := Floor(address - BASE);
            ErasedBytes(flash, ErasedRange(flash, address, bankSize, n), from, from + n * PAGE)
    decreases n
  {
    hide Erased, EraseInfoFor, PageStart, Floor, ErasedBytes;
    if n == 0 {
      NothingErased(flash, Floor(address - BASE));
    } else {
      var last := address + (n - 1) * PAGE;
      EraseRangeCovers(flash, address, bankSize, n - 1);
      PageStartIsFloor(last, bankSize);
      FloorOfPages(address - BASE, n - 1);
      assert last - BASE == address - BASE + (n - 1) * PAGE;
      ErasePageContains(last, bankSize);
      PageInside(EraseInfoFor(last, bankSize), bankSize);
      var from := Floor(address - BASE);
      OnePageMore(flash, ErasedRange(flash, address, bankSize, n - 1), from, from + (n - 1) * PAGE);
    }
  }

  /** After the pages of a range have been erased, the quadwords of the range lie in the flash and are erased. */
  lemma RangeIsProgrammable(flash: seq<byte>, address: word, bankSize: nat, n: nat, size: nat)
    requires Geometry(bankSize) && |flash| == 2 * bankSize
    requires BASE <= address && (n > 0 ==> address + (n - 1) * PAGE < BASE + 2 * bankSize)
    requires address % QUAD == 0 && address - BASE + size <= Floor(address - BASE) + n * PAGE <= |flash|
    ensures var f, o := ErasedRange(flash, address, bankSize, n), address - BASE;
            && o + QUAD * Quads(size) <= |f|
            && forall k :: 0 <= k < Quads(size) ==> ErasedQuad(f, o + QUAD * k)
  {
    hide *;
    var o := address - BASE;
    EraseRangeCovers(flash, address, bankSize, n);
    OffsetsAreAligned(address, n);
    QuadsErased(flash, ErasedRange(flash, address, bankSize, n), Floor(o), Floor(o) + n * PAGE, o, size);
  }

  /** Every quadword of a range whose pages have been erased can be programmed, so erasing the pages of a range, writing
      the range and reading it back returns what was written. */
  lemma EraseWriteRead(flash: seq<byte>, address: word, bankSize: nat, n: nat, src: seq<byte>, size: nat)
    requires Geometry(bankSize) && |flash| == 2 * bankSize
    requires BASE <= address && (n > 0 ==> address + (n - 1) * PAGE < BASE + 2 * bankSize)
    requires address % QUAD == 0 && address - BASE + size <= Floor(address - BASE) + n * PAGE <= |flash|
    requires QUAD * Quads(size) <= |src|
    ensures var f, o := ErasedRange(flash, address, bankSize, n), address - BASE;
            && o + QUAD * Quads(size) <= |f|
            && (forall k :: 0 <= k < Quads(size) ==> ErasedQuad(f, o + QUAD * k))
            && Programmed(f, o, src, Quads(size))[o..o + size] == src[..size]
  {
    hide *;
    RangeIsProgrammable(flash, address, bankSize, n, size);
    WriteReadRoundTrip(ErasedRange(flash, address, bankSize, n), address - BASE, src, size);
  }

  lemma OffsetsAreAligned(address: word, n: nat)
    requires BASE <= address && address % QUAD == 0
    ensures (address - BASE) % QUAD == 0 && (Floor(address - BASE) + n * PAGE) % QUAD == 0
  {
    var page := (address - BASE) / PAGE;
    assert Floor(address - BASE) + n * PAGE == QUAD * (512 * (page + n));
  }

  lemma QuadsErased(flash: seq<byte>, f: seq<byte>, from: nat, to: nat, o: nat, size: nat)
    requires ErasedBytes(flash, f, from, to) && from <= o && o + size <= to <= |f|
    requires o % QUAD == 0 && to % QUAD == 0
    ensures o + QUAD * Quads(size) <= to
    ensures forall k :: 0 <= k < Quads(size) ==> ErasedQuad(f, o + QUAD * k)
  {
  }

  predicate ErasedQuad(flash: seq<byte>, o: nat) {
    o + QUAD <= |flash| && forall i :: o <= i < o + QUAD ==> flash[i] == 0xff
  }

  /** k quadwords of src have been programmed one after the other from an address. */
  ghost predicate Progress(was: seq<byte>, address: nat, src: seq<byte>, k: nat, now: seq<byte>) {
    && QUAD * k <= |src| && |now| == |was|
    && (k == 0 ==> now == was)
    && (k > 0 ==> && BASE <= address && address - BASE + QUAD * k <= |was| && address % QUAD == 0
                  && now == Programmed(was, address - BASE, src, k))
  }

  lemma NoProgress(was: seq<byte>, address: nat, src: seq<byte>)
    ensures Progress(was, address, src, 0, was)
  {
  }

  lemma ProgramStep(was: seq<byte>, address: nat, src: seq<byte>, k: nat, before: seq<byte>, now: seq<byte>)
    requires Progress(was, address, src, k, before) && QUAD * (k + 1) <= |src|
    requires var at := address + QUAD * k - BASE;
             && at >= 0 && (address + QUAD * k) % QUAD == 0 && at + QUAD <= |was|
             && now == before[..at] + src[QUAD * k..QUAD * k + QUAD] + before[at + QUAD..]
    ensures Progress(was, address, src, k + 1, now)
  {
  }

  /** r bytes of n are left after k quadwords. */
  ghost predicate Left(n: nat, k: nat, r: nat) {
    && r == (if n >= QUAD * k then n - QUAD * k else 0)
    && k <= Quads(n) && (r == 0 <==> k == Quads(n))
  }

  lemma NothingLeft(n: nat)
    ensures Left(n, 0, n)
  {
  }

  lemma OneLess(n: nat, k: nat, r: nat)
    requires Left(n, k, r) && r > 0
    ensures Left(n, k + 1, if r >= QUAD then r - QUAD else 0)
    ensures k < Quads(n) && QUAD * (k + 1) <= QUAD * Quads(n)
  {
  }

  class Memory {
    const bankSize: nat
    var flash: seq<byte>
    var unlocked: bool
    /** HAL_FLASH_Lock has been called in this operation. */
    var lockRequested: bool
    /** What the HAL calls so far returned. */
    ghost var calls: seq<Hal>

    ghost predicate Valid()
      reads this
    {
      Geometry(bankSize) && |flash| == 2 * bankSize
    }

    constructor (bankSize: nat)
      requires Geometry(bankSize)
      ensures Valid() && this.bankSize == bankSize
    {
      this.bankSize := bankSize;
      flash := seq(2 * bankSize, _ => 0xff);
      unlocked, lockRequested, calls := false, false, [];
    }

    method HalUnlock() returns (status: Hal)
      modifies this`unlocked, this`calls
      ensures calls == old(calls) + [status]
      ensures unlocked == (status == HalOk || old(unlocked))
    {
      status := *;
      unlocked, calls := unlocked || status == HalOk, calls + [status];
    }

    method HalLock() returns (status: Hal)
      modifies this`unlocked, this`lockRequested, this`calls
      ensures calls == old(calls) + [status]
      ensures lockRequested && unlocked == (status != HalOk && old(unlocked))
    {
      status := *;
      lockRequested := true;
      unlocked, calls := unlocked && status != HalOk, calls + [status];
    }

    method HalProgram(address: nat, quad: seq<byte>) returns (status: Hal)
      requires Valid() && |quad| == QUAD
      modifies this`flash, this`calls
      ensures Valid() && calls == old(calls) + [status]
      ensures status != HalOk ==> flash == old(flash)
      ensures status == HalOk ==>
                && BASE <= address && address % QUAD == 0 && ErasedQuad(old(flash), address - BASE)
                && flash == old(flash)[..address - BASE] + quad + old(flash)[address - BASE + QUAD..]
    {
      status := *;
      if status == HalOk {
        if address < BASE || address % QUAD != 0 || address - BASE + QUAD > |flash| {
          status := HalError;
        } else {
          var o := address - BASE;
          if forall i :: o <= i < o + QUAD ==> flash[i] == 0xff {
            flash := flash[..o] + quad + flash[o + QUAD..];
          } else {
            status := HalError;
          }
        }
      }
      calls := calls + [status];
    }

    method HalErase(info: EraseInfo) returns (status: Hal)
      requires Valid()
      modifies this`flash, this`calls
      ensures Valid() && calls == old(calls) + [status]
      ensures status != HalOk ==> flash == old(flash)
      ensures status == HalOk ==>
                && Exists(info, bankSize) && PageStart(info, bankSize) + PAGE <= |flash|
                && flash == Erased(old(flash), PageStart(info, bankSize))
    {
      status := *;
      if status == HalOk {
        if !Exists(info, bankSize) {
          status := HalError;
        } else {
          PageInside(info, bankSize);
          flash := Erased(flash, PageStart(info, bankSize));
        }
      }
      calls := calls + [status];
    }

    /** quasar_memory_read from any address into a destination of at least `size` bytes, or None for a null pointer:
        what lies in the flash is copied, what lies elsewhere is whatever the bus returns. */
    method Read(address: nat, destination: Option<array<byte>>, size: nat) returns (err: Err)
      requires Valid()
      requires destination.Some? ==> size <= destination.value.Length
      modifies if destination.Some? then {destination.value} else {}
      ensures err == (if destination.Some? then Success else Argument)
      ensures destination.Some? ==>
                && (forall i :: 0 <= i < size && BASE <= address + i < BASE + |flash| ==>
                      destination.value[i] == flash[address + i - BASE])
                && destination.value[size..] == old(destination.value[size..])
      ensures destination.Some? && BASE <= address && address - BASE + size <= |flash| ==>
                destination.value[..size] == flash[address - BASE..address - BASE + size]
    {
      if destination.None? {
        return Argument;
      }
      var buffer := destination.value;
      for i := 0 to size
        invariant forall j :: 0 <= j < i && BASE <= address + j < BASE + |flash| ==>
                                buffer[j] == flash[address + j - BASE]
        invariant forall j :: i <= j < buffer.Length ==> buffer[j] == old(buffer[j])
      {
        if BASE <= address + i < BASE + |flash| {
          buffer[i] := flash[address + i - BASE];
        } else {
          var outside: byte := *;
          buffer[i] := outside;
        }
      }
      return Success;
    }

    /** quasar_memory_write; `source` is the memory from the buffer pointer on, readable to the next multiple of 16, or
        None for a null pointer. `begun` says that the flash could be unlocked, `k` is the number of quadwords
        programmed: a failing call leaves those before it. Once the flash was unlocked the lock is always requested. */
    method Write(address: nat, source: Option<seq<byte>>, size: word)
      returns (err: Err, ghost begun: bool, ghost k: nat)
      requires Valid()
      requires source.Some? ==> QUAD * Quads(size % 0x1_0000) <= |source.value|
      modifies this
      ensures Valid()
      ensures source.None? ==> err == Argument && flash == old(flash) && !begun && calls == old(calls)
      ensures source.Some? ==>
                && |old(calls)| < |calls| && err == Outcome(calls[|old(calls)|..])
                && k <= Quads(size % 0x1_0000) && Progress(old(flash), address, source.value, k, flash)
      ensures err == Success ==>
                begun && k == Quads(size % 0x1_0000) && !unlocked && |calls| == |old(calls)| + k + 2
      ensures source.Some? && !begun ==> k == 0 && unlocked == old(unlocked) && |calls| == |old(calls)| + 1
      ensures begun ==> lockRequested && |calls| == |old(calls)| + k + (if k < Quads(size % 0x1_0000) then 3 else 2)
    {
      hide Progress, Quads, Outcome;
      if source.None? {
        return Argument, false, 0;
      }
      ghost var was, first := flash, |calls|;
      k := 0;
      NoProgress(flash, address, source.value);
      lockRequested := false;
      var pdata := 0;
      var remainingSize := size % 0x1_0000;
      var currentAddress := address;
      var status := HalUnlock();
      begun := status == HalOk;
      if status != HalOk {
        FirstFailure(calls[first..], 0);
        return Verified(status), begun, k;
      }
      NothingLeft(remainingSize);
      while remainingSize > 0
        invariant Valid() && 0 <= remainingSize && begun && unlocked && !lockRequested
        invariant |calls| == first + 1 + k && forall i :: first <= i < |calls| ==> calls[i] == HalOk
        invariant Left(size % 0x1_0000, k, remainingSize)
        invariant remainingSize > 0 ==> currentAddress == address + QUAD * k && pdata == QUAD * k
        invariant Progress(was, address, source.value, k, flash)
        decreases remainingSize
      {
        OneLess(size % 0x1_0000, k, remainingSize);
        ghost var before := flash;
        status := HalProgram(currentAddress, source.value[pdata..pdata + QUAD]);
        if status != HalOk {
          var _ := HalLock();
          FirstFailure(calls[first..], k + 1);
          return Verified(status), begun, k;
        }
        ProgramStep(was, address, source.value, k, before, flash);
        k := k + 1;
        if remainingSize >= QUAD {
          currentAddress := currentAddress + QUAD;
          remainingSize := remainingSize - QUAD;
          pdata := pdata + QUAD;
        } else {
          remainingSize := 0;
        }
      }
      status := HalLock();
      if status != HalOk {
        FirstFailure(calls[first..], k + 1);
        return Verified(status), begun, k;
      }
      AllOk(calls[first..]);
      err := Success;
    }

    /** quasar_memory_erase. */
    method Erase(address: word) returns (err: Err)
      requires Valid()
      modifies this
      ensures Valid()
      ensures |old(calls)| < |calls| && err == Outcome(calls[|old(calls)|..])
      ensures err == Success ==> BASE <= address < BASE + 2 * bankSize && !unlocked && |calls| == |old(calls)| + 3
      ensures |calls| > |old(calls)| + 1 ==> lockRequested
      ensures if |calls| > |old(calls)| + 1 && calls[|old(calls)| + 1] == HalOk
              then && BASE <= address < BASE + 2 * bankSize && Floor(address - BASE) + PAGE <= |flash|
                   && flash == Erased(old(flash), Floor(address - BASE))
              else flash == old(flash)
    {
      hide Outcome;
      ghost var first := |calls|;
      var eraseInit := EraseInfoFor(address, bankSize);
      ErasePageContains(address, bankSize);
      lockRequested := false;
      var status := HalUnlock();
      if status != HalOk {
        FirstFailure(calls[first..], 0);
        return Verified(status);
      }
      status := HalErase(eraseInit);
      if status != HalOk {
        var _ := HalLock();
        FirstFailure(calls[first..], 1);
        return Verified(status);
      }
      PageStartIsFloor(address, bankSize);
      status := HalLock();
      if status != HalOk {
        FirstFailure(calls[first..], 2);
        return Verified(status);
      }
      AllOk(calls[first..]);
      err := Success;
    }
  }
}
