/** The COM1 transmit ring: what happens to every byte of an admitted write. */
module SerialRing {
  import opened Common
  import opened RingWindow

  const CAPACITY: nat := 8192
  const FIFO: nat := 16
  const WORDS: nat := 0x1_0000_0000_0000_0000

  /** The last n elements. */
  function Newest<T>(s: seq<T>, n: nat): (r: seq<T>)
    ensures |r| == if |s| < n then |s| else n
  {
    if |s| <= n then s else s[|s| - n..]
  }

  function Min(a: nat, b: nat): nat { if a < b then a else b }

  /** The ring and the UART's output after one look at the UART. */
  function Drained(pending: seq<Byte>, sent: seq<Byte>, ready: bool): (seq<Byte>, seq<Byte>) {
    if pending == [] || !ready then (pending, sent)
    else (pending[Min(|pending|, FIFO)..], sent + pending[..Min(|pending|, FIFO)])
  }

  /** A buffered write: make room by draining when needed, keep the newest bytes, drain once. */
  function Buffered(pending: seq<Byte>, sent: seq<Byte>, data: seq<Byte>, ready: bool): (seq<Byte>, seq<Byte>) {
    if |pending| + |data| > CAPACITY then
      var d := Drained(pending, sent, ready);
      (Newest(d.0 + data, CAPACITY), d.1)
    else Drained(pending + data, sent, ready)
  }

  /** What a buffered write does, whatever fits: the oldest bytes go out in order, at most one FIFO of
      them, at least one when the port is ready and had something pending; the newest ones stay; and
      bytes are lost only when the ring is full afterwards. */
  lemma BufferedLaw(pending: seq<Byte>, sent: seq<Byte>, data: seq<Byte>, ready: bool) returns (out: nat, lost: nat)
    requires |pending| <= CAPACITY
    ensures out <= FIFO && out <= |pending| + |data| && out + lost <= |pending| + |data|
    ensures Buffered(pending, sent, data, ready) ==
      ((pending + data)[out + lost..], sent + (pending + data)[..out])
    ensures ready && pending != [] ==> out > 0
    ensures !ready ==> out == 0
    ensures lost > 0 ==> |Buffered(pending, sent, data, ready).0| == CAPACITY
    ensures ready && |pending| + |data| <= CAPACITY ==> out == Min(|pending| + |data|, FIFO)
  {
    var all := pending + data;
    if |all| > CAPACITY {
      out := if ready then Min(|pending|, FIFO) else 0;
      assert all[..out] == pending[..out] && pending[out..] + data == all[out..];
      lost := if |all| - out <= CAPACITY then 0 else |all| - out - CAPACITY;
      NewestIs(all[out..], CAPACITY, lost);
      assert all[out..][lost..] == all[out + lost..];
      assert sent + [] == sent;
    } else {
      out, lost := if ready then Min(|all|, FIFO) else 0, 0;
      assert sent + [] == sent;
    }
  }

  /** What the port did with the bytes of all admitted writes: byte sentAt[k] was the k-th one
      transmitted, in order; the pending bytes are the newest ones; the rest is counted as dropped. */
  predicate Accounts(input: seq<Byte>, sent: seq<Byte>, sentAt: seq<nat>, pending: seq<Byte>, dropped: nat) {
    && |sentAt| == |sent| && |pending| <= |input|
    && (forall k :: 0 <= k < |sent| ==> sentAt[k] < |input| - |pending| && sent[k] == input[sentAt[k]])
    && (forall j, k :: 0 <= j < k < |sentAt| ==> sentAt[j] < sentAt[k])
    && pending == input[|input| - |pending|..]
    && |sent| + |pending| + dropped == |input|
  }

  /** Indices from..from+n. */
  function Indices(from: nat, n: nat): (r: seq<nat>)
    ensures |r| == n && forall k :: 0 <= k < n ==> r[k] == from + k
  {
    seq(n, k requires 0 <= k < n => from + k)
  }

  /** Transmitting the oldest pending bytes. */
  lemma SendAccounts(input: seq<Byte>, sent: seq<Byte>, sentAt: seq<nat>, pending: seq<Byte>, dropped: nat, n: nat)
    requires Accounts(input, sent, sentAt, pending, dropped) && n <= |pending|
    ensures |pending| <= |input|
    ensures Accounts(input, sent + pending[..n], sentAt + Indices(|input| - |pending|, n), pending[n..], dropped)
  {
  }

  /** Losing the oldest pending bytes. */
  lemma DropAccounts(input: seq<Byte>, sent: seq<Byte>, sentAt: seq<nat>, pending: seq<Byte>, dropped: nat, n: nat)
    requires Accounts(input, sent, sentAt, pending, dropped) && n <= |pending|
    ensures Accounts(input, sent, sentAt, pending[n..], dropped + n)
  {
  }

  /** A write with room for its newest `keep` bytes. */
  lemma AddAccounts(input: seq<Byte>, sent: seq<Byte>, sentAt: seq<nat>, pending: seq<Byte>, dropped: nat,
      data: seq<Byte>)
    requires Accounts(input, sent, sentAt, pending, dropped)
    ensures Accounts(input + data, sent, sentAt, pending + data, dropped)
  {
  }

  /** One byte of a synchronous write, transmitted or dropped. */
  lemma SyncAccounts(input: seq<Byte>, sent: seq<Byte>, sentAt: seq<nat>, dropped: nat, b: Byte)
    requires Accounts(input, sent, sentAt, [], dropped)
    ensures Accounts(input + [b], sent + [b], sentAt + [|input|], [], dropped)
    ensures Accounts(input + [b], sent, sentAt, [], dropped + 1)
  {
  }

  /** How many of the first n polls were answered before the UART went silent. */
  function Answered(n: nat, ready: nat -> bool, available: bool): (r: nat)
    ensures r <= n
  {
    if !available || n == 0 then 0
    else
      var k := Answered(n - 1, ready, available);
      if k == n - 1 && ready(n - 1) then n else k
  }

  /** They are the polls before the first one without an answer. */
  lemma {:induction false} AnsweredIs(n: nat, ready: nat -> bool, available: bool)
    ensures var k := Answered(n, ready, available);
      && (forall j: nat :: j < k ==> ready(j)) && (k < n ==> !available || !ready(k)) && (!available ==> k == 0)
  {
    if available && n > 0 { AnsweredIs(n - 1, ready, available); }
  }

  /** How many of the pending bytes a flush sends, one FIFO per answered poll. */
  function FlushCount(pending: nat, ready: nat -> bool, polls: nat, available: bool): (r: nat)
    ensures r <= pending
    decreases pending
  {
    if pending == 0 || !available || !ready(polls) then 0
    else Min(pending, FIFO) + FlushCount(pending - Min(pending, FIFO), ready, polls + 1, true)
  }

  /** A flush sends one FIFO for each poll that is answered, until nothing is left or the first poll
      without an answer. */
  lemma {:induction false} FlushCountIs(pending: nat, ready: nat -> bool, polls: nat, available: bool)
      returns (answered: nat)
    ensures FlushCount(pending, ready, polls, available) == Min(pending, FIFO * answered)
    ensures (answered > 0 ==> available) && forall p: nat :: polls <= p < polls + answered ==> ready(p)
    ensures FlushCount(pending, ready, polls, available) < pending ==> !available || !ready(polls + answered)
    decreases pending
  {
    if pending == 0 || !available || !ready(polls) {
      answered := 0;
    } else {
      answered := FlushCountIs(pending - Min(pending, FIFO), ready, polls + 1, true);
      answered := answered + 1;
    }
  }

  lemma FlushMore(pending: nat, ready: nat -> bool, polls: nat, available: bool)
    ensures FlushCount(pending, ready, polls, available) ==
      if pending == 0 || !available || !ready(polls) then 0
      else Min(pending, FIFO) + FlushCount(pending - Min(pending, FIFO), ready, polls + 1, true)
  {
  }

  lemma SliceOn<T>(s: seq<T>, at: nat, n: nat)
    requires at + n <= |s|
    ensures s[at..][n..] == s[at + n..] && s[..at] + s[at..][..n] == s[..at + n]
  {
  }

  lemma NewestIs<T>(s: seq<T>, n: nat, drop: nat)
    requires drop == (if |s| < n then 0 else |s| - n)
    ensures Newest(s, n) == s[drop..]
  {
  }

  lemma NewestAll<T>(s: seq<T>, n: nat)
    requires |s| <= n
    ensures Newest(s, n) == s
  {
  }

  /** Pending bytes between two wrapping counters. */
  function Between(head: nat, tail: nat): (n: nat)
    requires head < WORDS && tail < WORDS
    ensures n == if head >= tail then head - tail else head - tail + WORDS
  {
    (head - tail) % WORDS
  }

  function Plus(counter: nat, n: nat): (r: nat)
    requires counter < WORDS && n <= CAPACITY
    ensures r < WORDS && r == if counter + n < WORDS then counter + n else counter + n - WORDS
  {
    (counter + n) % WORDS
  }

  /** The ring slot of a counter survives its wrap-around. */
  lemma PlusSlot(counter: nat, n: nat)
    requires counter < WORDS && n <= CAPACITY
    ensures Plus(counter, n) % CAPACITY == Cell(counter % CAPACITY, n, CAPACITY)
  {
    hide Plus;
    var q, c := counter / CAPACITY, counter % CAPACITY;
    assert counter == q * 8192 + c && c < 8192;
    var r := Plus(counter, n);
    var e := if c + n < CAPACITY then c + n else c + n - CAPACITY;
    assert Cell(c, n, CAPACITY) == e;
    assert r % 8192 == e;
  }

  class SerialPort {
    const ring: array<Byte>
    var head: nat
    var tail: nat
    var syncMode: bool
    var uartAvailable: bool
    var active: bool
    var dropped: nat
    var failures: nat
    /** The bytes the UART received. */
    var sent: seq<Byte>
    /** The bytes of all admitted writes, and which of them were sent. */
    ghost var input: seq<Byte>
    ghost var sentAt: seq<nat>

    function Pending(): nat
      requires head < WORDS && tail < WORDS
      reads this
    {
      Between(head, tail)
    }

    ghost predicate Shape()
      reads this
    {
      ring.Length == CAPACITY && head < WORDS && tail < WORDS && Pending() <= CAPACITY
    }

    ghost function Contents(): seq<Byte>
      requires Shape()
      reads this, ring
    {
      Window(ring[..], tail % CAPACITY, Pending())
    }

    ghost predicate Kept()
      reads this, ring
    {
      Shape() && Accounts(input, sent, sentAt, Contents(), dropped)
    }

    /** Between calls, an active port in synchronous mode has nothing buffered. */
    ghost predicate Valid()
      reads this, ring
    {
      Kept() && (syncMode && active ==> Contents() == [])
    }

    constructor ()
      ensures Valid() && fresh(ring) && active && !syncMode && input == [] && Contents() == []
    {
      ring := new Byte[CAPACITY](_ => 0);
      head, tail, dropped, failures := 0, 0, 0, 0;
      syncMode, uartAvailable, active := false, true, true;
      sent, input, sentAt := [], [], [];
    }

    /** Writes the oldest bytes to the UART. */
    method Transmit(count: nat) returns (next: nat)
      requires Shape() && count <= Pending()
      modifies this`sent
      ensures next == Plus(tail, count) && sent == old(sent) + Contents()[..count]
    {
      hide Plus, Between;
      next := tail;
      for k := 0 to count
        invariant next == Plus(tail, k)
        invariant sent == old(sent) + Contents()[..k]
      {
        PlusSlot(tail, k);
        sent := sent + [ring[next % CAPACITY]];
        next := Plus(next, 1);
      }
    }

    /** Transmits the oldest pending bytes. */
    method Burst(count: nat)
      requires Kept() && count <= Pending()
      modifies this`tail, this`sent, this`sentAt
      ensures Kept() && Contents() == old(Contents())[count..] && sent == old(sent) + old(Contents())[..count]
    {
      hide Accounts;
      SendAccounts(input, sent, sentAt, Contents(), dropped, count);
      sentAt := sentAt + Indices(|input| - Pending(), count);
      PlusSlot(tail, count);
      Skips(ring[..], tail % CAPACITY, Pending(), count);
      var next := Transmit(count);
      tail := next;
    }

    method Drain(ready: bool)
      requires Kept()
      modifies this`tail, this`sent, this`sentAt
      ensures Kept() && (Contents(), sent) == Drained(old(Contents()), old(sent), ready)
    {
      if Pending() == 0 || !ready { return; }
      Burst(Min(Pending(), FIFO));
    }

    /** Waits for the UART; after one timeout it is never waited for again. */
    method ReadySync(ready: bool) returns (ok: bool)
      modifies this`uartAvailable, this`failures
      ensures ok == (old(uartAvailable) && ready)
      ensures uartAvailable == ok && failures == old(failures) + (if old(uartAvailable) && !ready then 1 else 0)
    {
      if !uartAvailable { return false; }
      if !ready {
        uartAvailable := false;
        failures := failures + 1;
        return false;
      }
      return true;
    }

    /** The oldest bytes make way. */
    method Forget(count: nat)
      requires Kept() && count <= Pending()
      modifies this`tail
      ensures Shape() && Contents() == old(Contents())[count..]
    {
      PlusSlot(tail, count);
      Skips(ring[..], tail % CAPACITY, Pending(), count);
      tail := Plus(tail, count);
    }

    /** Appends bytes that fit. */
    method Store(data: seq<Byte>)
      requires Shape() && Pending() + |data| <= CAPACITY
      modifies this`head, ring
      ensures Shape() && Contents() == old(Contents()) + data
    {
      for k := 0 to |data|
        invariant Shape() && Pending() == old(Pending()) + k
        invariant Contents() == old(Contents()) + data[..k]
      {
        StoreOne(data[k]);
      }
    }

    method StoreOne(b: Byte)
      requires Shape() && Pending() < CAPACITY
      modifies this`head, ring
      ensures Shape() && Contents() == old(Contents()) + [b] && Pending() == old(Pending()) + 1
    {
      PlusSlot(tail, Pending());
      assert head == Plus(tail, Pending());
      Appends(ring[..], tail % CAPACITY, Pending(), b);
      ring[head % CAPACITY] := b;
      head := Plus(head, 1);
    }

    /** Appends a write; the oldest bytes make way, and are counted. */
    method Enqueue(data: seq<Byte>)
      requires Kept()
      modifies this`head, this`tail, this`dropped, this`input, ring
      ensures Kept() && Contents() == Newest(old(Contents()) + data, CAPACITY) && input == old(input) + data
    {
      hide Accounts, Window, Between, Newest;
      var retained := Pending();
      var overflow := if retained + |data| > CAPACITY then retained + |data| - CAPACITY else 0;
      var dropExisting := Min(retained, overflow);
      var skip := overflow - dropExisting;
      ghost var pending := Contents();
      AddAccounts(input, sent, sentAt, pending, dropped, data);
      DropAccounts(input + data, sent, sentAt, pending + data, dropped, overflow);
      NewestIs(pending + data, CAPACITY, overflow);
      Forget(dropExisting);
      Store(data[skip..]);
      assert Contents() == (pending + data)[overflow..];
      dropped := dropped + overflow;
      input := input + data;
    }

    /** A write into the ring. */
    method WriteBuffered(data: seq<Byte>, ready: bool)
      requires Kept()
      modifies this`head, this`tail, this`dropped, this`sent, this`sentAt, this`input, ring
      ensures Kept() && (Contents(), sent) == Buffered(old(Contents()), old(sent), data, ready)
      ensures input == old(input) + data
    {
      hide Accounts, Window, Between, Newest;
      var first := |data| > CAPACITY - Pending();
      if first { Drain(ready); } else { NewestAll(Contents() + data, CAPACITY); }
      Enqueue(data);
      if !first { Drain(ready); }
    }

    /** A write in synchronous mode: bytes go out one by one until the UART stops answering. */
    method WriteSync(data: seq<Byte>, ready: nat -> bool)
      requires Kept() && Contents() == []
      modifies this`sent, this`sentAt, this`dropped, this`failures, this`uartAvailable, this`input
      ensures Kept() && Contents() == [] && input == old(input) + data
      ensures sent == old(sent) + data[..Answered(|data|, ready, old(uartAvailable))]
    {
      hide Accounts, Between, Window;
      for i := 0 to |data|
        invariant Kept() && Contents() == [] && input == old(input) + data[..i]
        invariant uartAvailable == (old(uartAvailable) && Answered(i, ready, old(uartAvailable)) == i)
        invariant sent == old(sent) + data[..Answered(i, ready, old(uartAvailable))]
      {
        WriteByte(data[i], ready(i));
      }
    }

    method WriteByte(b: Byte, ready: bool)
      requires Kept() && Contents() == []
      modifies this`sent, this`sentAt, this`dropped, this`failures, this`uartAvailable, this`input
      ensures Kept() && Contents() == [] && input == old(input) + [b]
      ensures uartAvailable == (old(uartAvailable) && ready)
      ensures sent == if uartAvailable then old(sent) + [b] else old(sent)
    {
      hide Accounts;
      SyncAccounts(input, sent, sentAt, dropped, b);
      var ok := ReadySync(ready);
      if ok {
        sent := sent + [b];
        sentAt := sentAt + [|input|];
      } else {
        dropped := dropped + 1;
      }
      input := input + [b];
    }

    method Write(data: seq<Byte>, ready: nat -> bool)
      requires Valid()
      modifies this, ring
      ensures Valid() && syncMode == old(syncMode) && active == old(active)
      ensures input == if old(active) then old(input) + data else old(input)
      ensures active && !syncMode && data != [] ==>
        (Contents(), sent) == Buffered(old(Contents()), old(sent), data, ready(0))
      ensures !active || data == [] ==> Contents() == old(Contents()) && sent == old(sent)
      ensures active && syncMode ==>
        Contents() == [] && sent == old(sent) + data[..Answered(|data|, ready, old(uartAvailable))]
    {
      if |data| == 0 || !active { return; }
      if syncMode {
        WriteSync(data, ready);
      } else {
        WriteBuffered(data, ready(0));
      }
    }

    /** Drops everything that is pending. */
    method DropAll()
      requires Kept()
      modifies this`tail, this`dropped
      ensures Kept() && Contents() == []
    {
      hide Accounts;
      DropAccounts(input, sent, sentAt, Contents(), dropped, Pending());
      dropped := dropped + Pending();
      tail := head;
    }

    /** Sends or drops everything that is pending. */
    method FlushAll(ready: nat -> bool)
      requires Kept()
      modifies this`tail, this`dropped, this`sent, this`sentAt, this`uartAvailable, this`failures
      ensures Kept() && Contents() == []
      ensures sent == old(sent) + old(Contents())[..FlushCount(|old(Contents())|, ready, 0, old(uartAvailable))]
    {
      hide Accounts, Window, Between, FlushCount;
      var polls := 0;
      ghost var pending, count: nat := Contents(), 0;
      ghost var total := FlushCount(|pending|, ready, 0, uartAvailable);
      while Pending() != 0
        invariant Kept() && count <= |pending| && Contents() == pending[count..] && sent == old(sent) + pending[..count]
        invariant total == count + FlushCount(Pending(), ready, polls, uartAvailable)
        decreases Pending()
      {
        FlushMore(Pending(), ready, polls, uartAvailable);
        var ok := ReadySync(ready(polls));
        if !ok {
          DropAll();
          return;
        }
        polls := polls + 1;
        SliceOn(pending, count, Min(Pending(), FIFO));
        count := count + Min(Pending(), FIFO);
        Burst(Min(Pending(), FIFO));
      }
      FlushMore(0, ready, polls, uartAvailable);
    }

    method Flush(ready: nat -> bool)
      requires Valid()
      modifies this
      ensures Valid() && input == old(input) && active == old(active) && syncMode == old(syncMode)
      ensures active ==>
        && Contents() == []
        && sent == old(sent) + old(Contents())[..FlushCount(|old(Contents())|, ready, 0, old(uartAvailable))]
      ensures !active ==> Contents() == old(Contents()) && sent == old(sent)
    {
      if !active { return; }
      FlushAll(ready);
    }

    /** The switch to synchronous mode.  The nested flush does nothing when admission is closed
        meanwhile, which then is for good. */
    method Sync(stillActive: bool, ready: nat -> bool)
      requires Valid()
      modifies this
      ensures Valid() && input == old(input)
      ensures old(active) ==> syncMode && active == stillActive
      ensures !old(active) ==> syncMode == old(syncMode) && !active
      ensures active ==>
        && Contents() == []
        && sent == old(sent) + old(Contents())[..FlushCount(|old(Contents())|, ready, 0, old(uartAvailable))]
      ensures !active ==> Contents() == old(Contents()) && sent == old(sent)
    {
      if !active { return; }
      syncMode := true;
      active := stillActive;
      if active { FlushAll(ready); }
    }
  }
}
