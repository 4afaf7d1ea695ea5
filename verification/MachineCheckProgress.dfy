/** When a sample of the machine-check record succeeds, why it fails, and that a publisher which is not
    interrupted completes its publication. */
module MachineCheckProgress {
  import opened MachineCheckStore

  // ----- readers

  /** n steps of a reader while the cells do not change. */
  function ReaderSolo(f: Fields, c: Cells, q: Query, pc: ReaderPc, n: nat): ReaderPc
    decreases n
  {
    if n == 0 then pc else ReaderSolo(f, c, q, ReaderNext(f, c, q, pc), n - 1)
  }

  lemma {:induction false} ReaderJoin(f: Fields, c: Cells, q: Query, pc: ReaderPc, m: nat, n: nat)
    ensures ReaderSolo(f, c, q, pc, m + n) == ReaderSolo(f, c, q, ReaderSolo(f, c, q, pc, m), n)
    decreases m
  {
    hide ReaderNext;
    if m > 0 { ReaderJoin(f, c, q, ReaderNext(f, c, q, pc), m - 1, n); }
  }

  lemma {:induction false} ReadsInfo(f: Fields, c: Cells, q: Query, before: nat, words: seq<nat>)
    requires |c.info| == INFO_WORDS && |words| <= INFO_WORDS && words == c.info[..|words|]
    ensures ReaderSolo(f, c, q, Words(before, words), INFO_WORDS - |words| + 1) == Recheck(before, c.info)
    decreases INFO_WORDS - |words|
  {
    if |words| < INFO_WORDS {
      assert words + [c.info[|words|]] == c.info[..|words| + 1];
      ReadsInfo(f, c, q, before, words + [c.info[|words|]]);
    } else {
      assert words == c.info;
      assert ReaderSolo(f, c, q, Recheck(before, words), 0) == Recheck(before, words);
    }
  }

  /** A sample of a completed publication that nobody replaces meanwhile returns the whole record. */
  lemma InfoSucceeds(f: Fields, c: Cells, q: Query)
    requires |c.info| == INFO_WORDS && c.sequence != 0 && c.sequence % 2 == 0
    ensures ReaderSolo(f, c, q, Start, 21) == Checked(c.sequence, c.info)
    ensures !q.bank ==> ReaderSolo(f, c, q, Start, 22) == GotInfo(c.sequence, c.info)
  {
    hide ReaderSolo;
    OneRead(f, c, q, Start);
    ReadsInfo(f, c, q, c.sequence, []);
    ReaderJoin(f, c, q, Start, 1, 19);
    OneRead(f, c, q, Recheck(c.sequence, c.info));
    ReaderJoin(f, c, q, Start, 20, 1);
    OneRead(f, c, q, Checked(c.sequence, c.info));
    ReaderJoin(f, c, q, Start, 21, 1);
  }

  lemma OneRead(f: Fields, c: Cells, q: Query, pc: ReaderPc)
    ensures ReaderSolo(f, c, q, pc, 1) == ReaderNext(f, c, q, pc)
  {
  }

  lemma {:induction false} ReadsRow(f: Fields, c: Cells, q: Query, before: nat, info: seq<nat>, words: seq<nat>)
    requires q.index < |c.banks| && |c.banks[q.index]| == BANK_WORDS
    requires |words| <= BANK_WORDS && words == c.banks[q.index][..|words|]
    ensures ReaderSolo(f, c, q, Row(before, info, words), BANK_WORDS - |words| + 1) ==
      RowRecheck(before, info, c.banks[q.index])
    decreases BANK_WORDS - |words|
  {
    var row := c.banks[q.index];
    if |words| < BANK_WORDS {
      assert words + [row[|words|]] == row[..|words| + 1];
      ReadsRow(f, c, q, before, info, words + [row[|words|]]);
    } else {
      assert words == row;
      assert ReaderSolo(f, c, q, RowRecheck(before, info, words), 0) == RowRecheck(before, info, words);
    }
  }

  /** A bank that the record has is returned to a query that names the record; any other query fails. */
  lemma BankIff(f: Fields, c: Cells, q: Query)
    requires Shape(c) && c.sequence != 0 && c.sequence % 2 == 0 && q.bank
    requires f.sequence(c.info) == c.sequence && f.stored(c.info) <= LIMIT
    ensures var asked := q.epoch != 0 && q.epoch == f.epoch(c.info) && q.sequence == c.sequence
        && q.index < f.stored(c.info);
      && (asked ==> ReaderSolo(f, c, q, Start, 38) == GotRow(c.sequence, c.info, c.banks[q.index]))
      && (!asked ==> ReaderSolo(f, c, q, Start, 22) == Failed)
  {
    hide ReaderSolo;
    InfoSucceeds(f, c, q);
    OneRead(f, c, q, Checked(c.sequence, c.info));
    ReaderJoin(f, c, q, Start, 21, 1);
    if q.epoch != 0 && q.epoch == f.epoch(c.info) && q.sequence == c.sequence && q.index < f.stored(c.info) {
      ReadsRow(f, c, q, c.sequence, c.info, []);
      ReaderJoin(f, c, q, Start, 22, 15);
      OneRead(f, c, q, RowRecheck(c.sequence, c.info, c.banks[q.index]));
      ReaderJoin(f, c, q, Start, 37, 1);
    }
  }

  /** A reader is turned away only by an empty or unfinished record, by a publication that began since
      its first look, or because its query does not name the record and one of its rows. */
  lemma FailsOnlyFor(f: Fields, c: Cells, q: Query, pc: ReaderPc)
    requires pc != Failed && ReaderNext(f, c, q, pc) == Failed
    ensures match pc
      case Start => c.sequence == 0 || c.sequence % 2 == 1
      case Recheck(before, _) => c.sequence != before
      case Checked(_, words) => q.bank &&
        !(q.epoch != 0 && f.epoch(words) == q.epoch && q.sequence == f.sequence(words) != 0
          && q.index < f.stored(words) && q.index < LIMIT)
      case RowRecheck(_, _, _) => c.sequence != q.sequence
      case _ => false
  {
  }

  // ----- publishers

  /** n steps of a publisher, from the load of the sequence number on. */
  function WriterSolo(f: Fields, s: State, pc: WriterPc, terminal: bool, p: Publication, n: nat): (State, WriterPc)
    decreases n
  {
    if n == 0 then (s, pc)
    else
      var r := WriterNext(f, s, pc, terminal, p);
      WriterSolo(f, r.0, r.1, terminal, p, n - 1)
  }

  lemma {:induction false} WriterJoin(
    f: Fields, s: State, pc: WriterPc, terminal: bool, p: Publication, m: nat, n: nat)
    ensures var r := WriterSolo(f, s, pc, terminal, p, m);
      WriterSolo(f, s, pc, terminal, p, m + n) == WriterSolo(f, r.0, r.1, terminal, p, n)
    decreases m
  {
    hide WriterNext;
    if m > 0 {
      var r := WriterNext(f, s, pc, terminal, p);
      WriterJoin(f, r.0, r.1, terminal, p, m - 1, n);
    }
  }

  /** The words of one row. */
  lemma {:induction false} StoresRow(
    f: Fields, s: State, terminal: bool, p: Publication, next: nat, q: Publication, row: nat, word: nat)
    requires Shape(s.c) && row < |q.rows| <= LIMIT && |q.rows[row]| == BANK_WORDS && word <= BANK_WORDS
    requires s.c.banks[row][..word] == q.rows[row][..word]
    ensures WriterSolo(f, s, Rows(next, q, row, word), terminal, p, BANK_WORDS - word + 1) ==
      (s.(c := s.c.(banks := s.c.banks[row := q.rows[row]])), Rows(next, q, row + 1, 0))
    decreases BANK_WORDS - word
  {
    if word < BANK_WORDS {
      var t := s.(c := s.c.(banks := s.c.banks[row := s.c.banks[row][word := q.rows[row][word]]]));
      assert t.c.banks[row][..word + 1] == q.rows[row][..word + 1];
      StoresRow(f, t, terminal, p, next, q, row, word + 1);
      assert t.c.banks[row := q.rows[row]] == s.c.banks[row := q.rows[row]];
    } else {
      assert s.c.banks[row] == q.rows[row];
      assert s.c.banks[row := q.rows[row]] == s.c.banks;
      assert WriterSolo(f, s, Rows(next, q, row + 1, 0), terminal, p, 0) == (s, Rows(next, q, row + 1, 0));
    }
  }

  /** The first rows replaced by those of the publication. */
  function Replaced(banks: seq<seq<nat>>, rows: seq<seq<nat>>, from: nat): seq<seq<nat>>
    requires from <= |rows| <= |banks|
  {
    banks[..from] + rows[from..] + banks[|rows|..]
  }

  /** All rows from `row` on. */
  lemma {:induction false} StoresRows(
    f: Fields, s: State, terminal: bool, p: Publication, next: nat, q: Publication, row: nat)
    requires Shape(s.c) && row <= |q.rows| <= LIMIT && (forall r :: 0 <= r < |q.rows| ==> |q.rows[r]| == BANK_WORDS)
    ensures WriterSolo(f, s, Rows(next, q, row, 0), terminal, p, 15 * (|q.rows| - row) + 1) ==
      (s.(c := s.c.(banks := Replaced(s.c.banks, q.rows, row))), Infos(next, q, 0))
    decreases |q.rows| - row
  {
    hide WriterSolo, Replaced;
    ReplacedMore(s.c.banks, q.rows, row);
    if row < |q.rows| {
      StoresRow(f, s, terminal, p, next, q, row, 0);
      var t := s.(c := s.c.(banks := s.c.banks[row := q.rows[row]]));
      StoresRows(f, t, terminal, p, next, q, row + 1);
      WriterJoin(f, s, Rows(next, q, row, 0), terminal, p, 15, 15 * (|q.rows| - row - 1) + 1);
      assert 15 * (|q.rows| - row) + 1 == 15 + (15 * (|q.rows| - row - 1) + 1);
    } else {
      RowsEnd(f, s, terminal, p, next, q);
    }
  }

  lemma ReplacedMore(banks: seq<seq<nat>>, rows: seq<seq<nat>>, from: nat)
    requires from <= |rows| <= |banks|
    ensures from < |rows| ==> Replaced(banks[from := rows[from]], rows, from + 1) == Replaced(banks, rows, from)
    ensures from == |rows| ==> Replaced(banks, rows, from) == banks
  {
  }

  lemma RowsEnd(f: Fields, s: State, terminal: bool, p: Publication, next: nat, q: Publication)
    ensures WriterSolo(f, s, Rows(next, q, |q.rows|, 0), terminal, p, 1) == (s, Infos(next, q, 0))
  {
  }

  lemma {:induction false} StoresInfo(
    f: Fields, s: State, terminal: bool, p: Publication, next: nat, q: Publication, word: nat)
    requires Shape(s.c) && |q.info| == INFO_WORDS && word <= INFO_WORDS && s.c.info[..word] == q.info[..word]
    ensures WriterSolo(f, s, Infos(next, q, word), terminal, p, INFO_WORDS - word + 1) ==
      (s.(c := s.c.(info := q.info)), Commit(next, q))
    decreases INFO_WORDS - word
  {
    if word < INFO_WORDS {
      var t := s.(c := s.c.(info := s.c.info[word := q.info[word]]));
      assert t.c.info[..word + 1] == q.info[..word + 1];
      StoresInfo(f, t, terminal, p, next, q, word + 1);
    } else {
      assert s.c.info == q.info;
      assert WriterSolo(f, s, Commit(next, q), terminal, p, 0) == (s, Commit(next, q));
    }
  }

  /** A publisher that is not interrupted completes: the cells hold the publication under the next even
      sequence number, and it is logged.  Only the boot publisher minds an unfinished record. */
  lemma Publishes(f: Fields, s: State, terminal: bool, p: Publication)
    requires Shape(s.c) && Publishable(f, p, NextEven(s.c.sequence)) && (terminal || s.c.sequence % 2 == 0)
    ensures var r := WriterSolo(f, s, LoadSequence, terminal, p, 15 * |p.rows| + 23);
      && r.1 == Done && Shape(r.0.c) && Holds(r.0.c, p) && r.0.c.sequence == NextEven(s.c.sequence)
      && r.0.log == s.log[NextEven(s.c.sequence) := p]
      && r.0 == s.(c := s.c.(sequence := r.0.c.sequence, info := p.info, banks := r.0.c.banks), log := r.0.log)
  {
    hide WriterSolo;
    var next := NextEven(s.c.sequence);
    var t := s.(c := s.c.(sequence := next - 1));
    BeginsWrite(f, s, terminal, p);
    StoresRows(f, t, terminal, p, next, p, 0);
    WriterJoin(f, s, LoadSequence, terminal, p, 2, 15 * |p.rows| + 1);
    var u := t.(c := t.c.(banks := Replaced(t.c.banks, p.rows, 0)));
    StoresInfo(f, u, terminal, p, next, p, 0);
    WriterJoin(f, s, LoadSequence, terminal, p, 15 * |p.rows| + 3, 19);
    CommitsWrite(f, u.(c := u.c.(info := p.info)), terminal, p, next);
    WriterJoin(f, s, LoadSequence, terminal, p, 15 * |p.rows| + 22, 1);
  }

  lemma BeginsWrite(f: Fields, s: State, terminal: bool, p: Publication)
    requires Publishable(f, p, NextEven(s.c.sequence)) && (terminal || s.c.sequence % 2 == 0)
    ensures WriterSolo(f, s, LoadSequence, terminal, p, 2) ==
      (s.(c := s.c.(sequence := NextEven(s.c.sequence) - 1)), Rows(NextEven(s.c.sequence), p, 0, 0))
  {
  }

  lemma CommitsWrite(f: Fields, s: State, terminal: bool, p: Publication, next: nat)
    requires f.sequence(p.info) == next
    ensures WriterSolo(f, s, Commit(next, p), terminal, p, 1) ==
      (s.(c := s.c.(sequence := next), log := s.log[next := p]), Done)
  {
  }

  /** The next even number is even and later than every number so far. */
  lemma NextEvenLater(current: nat)
    ensures NextEven(current) % 2 == 0 && current < NextEven(current) <= current + 2
  {
  }

  /** An unfinished record stops the boot publisher; a later terminal claim is only counted. */
  lemma TurnedAway(f: Fields, s: State, p: Publication, i: nat)
    ensures s.boot == LoadSequence && s.c.sequence % 2 == 1 ==> BootNext(f, s, p) == s.(boot := Quiet)
    ensures i < |s.claims| && s.claims[i] == Quiet && s.c.terminal ==>
      ClaimNext(f, s, i, p) == s.(c := s.c.(nested := s.c.nested + 1), claims := s.claims[i := Gone])
    ensures i < |s.claims| && s.claims[i] == Quiet && !s.c.terminal ==>
      ClaimNext(f, s, i, p) == s.(c := s.c.(terminal := true), claims := s.claims[i := LoadSequence])
  {
  }

  // ----- a machine check is recorded and can be read

  lemma {:induction false} RunJoin(f: Fields, s: State, a: seq<Step>, b: seq<Step>)
    ensures Run(f, s, a + b) == Run(f, Run(f, s, a), b)
    decreases |a|
  {
    hide Next;
    if a == [] {
      assert a + b == b;
    } else {
      assert (a + b)[1..] == a[1..] + b;
      RunJoin(f, Next(f, s, a[0]), a[1..], b);
    }
  }

  function ClaimRun(i: nat, p: Publication, n: nat): seq<Step> {
    seq(n, _ => ClaimStep(i, p))
  }

  /** A program point of a claim that won. */
  predicate Claims(pc: WriterPc) {
    !pc.Quiet? && !pc.Claim? && !pc.Gone?
  }

  lemma ClaimMoves(f: Fields, s: State, i: nat, p: Publication)
    requires i < |s.claims| && Claims(s.claims[i])
    ensures var r := WriterNext(f, s, s.claims[i], true, p);
      && ClaimNext(f, s, i, p) == r.0.(claims := s.claims[i := r.1]) && Claims(r.1) && r.0.claims == s.claims
      && forall claims :: WriterNext(f, s.(claims := claims), s.claims[i], true, p) == (r.0.(claims := claims), r.1)
  {
    assert s.claims[i := s.claims[i]] == s.claims;
  }

  lemma {:induction false} ClaimLift(f: Fields, s: State, i: nat, p: Publication, n: nat)
    requires i < |s.claims| && Claims(s.claims[i])
    ensures var r := WriterSolo(f, s, s.claims[i], true, p, n);
      Run(f, s, ClaimRun(i, p, n)) == r.0.(claims := s.claims[i := r.1])
    decreases n
  {
    hide WriterNext, ClaimNext;
    if n == 0 {
      assert s.claims[i := s.claims[i]] == s.claims;
    } else {
      ClaimMoves(f, s, i, p);
      var r := WriterNext(f, s, s.claims[i], true, p);
      var t := Next(f, s, ClaimStep(i, p));
      assert ClaimRun(i, p, n)[0] == ClaimStep(i, p) && ClaimRun(i, p, n)[1..] == ClaimRun(i, p, n - 1);
      ClaimLift(f, t, i, p, n - 1);
      ClaimsApart(f, r.0, r.1, p, t.claims, n - 1);
      var e := WriterSolo(f, s, s.claims[i], true, p, n);
      assert t.claims[i := e.1] == s.claims[i := e.1];
    }
  }

  /** A publisher does not look at the program points of the claims. */
  lemma {:induction false} ClaimsApart(f: Fields, s: State, pc: WriterPc, p: Publication, claims: seq<WriterPc>, n: nat)
    ensures var r := WriterSolo(f, s, pc, true, p, n);
      WriterSolo(f, s.(claims := claims), pc, true, p, n) == (r.0.(claims := claims), r.1)
    decreases n
  {
    if n > 0 {
      var r := WriterNext(f, s, pc, true, p);
      assert WriterNext(f, s.(claims := claims), pc, true, p) == (r.0.(claims := claims), r.1);
      ClaimsApart(f, r.0, r.1, p, claims, n - 1);
    }
  }

  function ReadRun(i: nat, n: nat): seq<Step> {
    seq(n, _ => ReaderStep(i))
  }

  lemma {:induction false} ReadLift(f: Fields, s: State, i: nat, n: nat)
    requires i < |s.readers|
    ensures var reader := s.readers[i];
      Run(f, s, ReadRun(i, n)) ==
        s.(readers := s.readers[i := reader.(pc := ReaderSolo(f, s.c, reader.query, reader.pc, n))])
    decreases n
  {
    hide ReaderNext;
    if n == 0 {
      assert s.readers[i := s.readers[i]] == s.readers;
    } else {
      var t := Next(f, s, ReaderStep(i));
      assert ReadRun(i, n)[0] == ReaderStep(i) && ReadRun(i, n)[1..] == ReadRun(i, n - 1);
      ReadLift(f, t, i, n - 1);
      var e := ReaderSolo(f, s.c, s.readers[i].query, s.readers[i].pc, n);
      assert t.readers[i := s.readers[i].(pc := e)] == s.readers[i := s.readers[i].(pc := e)];
    }
  }

  /** From every state before the terminal claim, wherever the boot publisher was interrupted, a
      machine check records its publication, and a reader then gets all of it. */
  lemma TerminalRecorded(f: Fields, s: State, i: nat, p: Publication, j: nat) returns (steps: seq<Step>)
    requires Shape(s.c) && !s.c.terminal && i < |s.claims| && s.claims[i] == Quiet
    requires Publishable(f, p, NextEven(s.c.sequence))
    requires j < |s.readers| && s.readers[j].pc == Start && !s.readers[j].query.bank
    ensures var t := Run(f, s, steps);
      && t.c.terminal && Shape(t.c) && Holds(t.c, p) && t.c.sequence == NextEven(s.c.sequence)
      && |t.readers| == |s.readers| && t.readers[j].pc == GotInfo(t.c.sequence, p.info)
  {
    var a := Next(f, s, ClaimStep(i, p));
    assert a == s.(c := s.c.(terminal := true), claims := s.claims[i := LoadSequence]);
    hide WriterSolo, ReaderSolo, Next;
    var n := 15 * |p.rows| + 23;
    Publishes(f, a, true, p);
    ClaimLift(f, a, i, p, n);
    var b := Run(f, a, ClaimRun(i, p, n));
    NextEvenLater(s.c.sequence);
    InfoSucceeds(f, b.c, b.readers[j].query);
    ReadLift(f, b, j, 22);
    RunJoin(f, a, ClaimRun(i, p, n), ReadRun(j, 22));
    steps := [ClaimStep(i, p)] + (ClaimRun(i, p, n) + ReadRun(j, 22));
    assert steps[1..] == ClaimRun(i, p, n) + ReadRun(j, 22);
  }
}
