/** The machine-check record of one CPU: published word by word, read without locks.

    A boot publisher and any number of terminal claims write; any number of readers sample.  One
    step is one access to a cell.  A delivered machine check interrupts the boot publisher for
    good, so the boot publisher takes no step once the terminal claim is made. */
module MachineCheckStore {

  const INFO_WORDS: nat := 18
  const BANK_WORDS: nat := 14
  const LIMIT: nat := 64

  /** How the fixed record is read: the epoch, the sequence number and the number of stored banks
      are functions of its words. */
  datatype Fields = Fields(epoch: seq<nat> -> nat, sequence: seq<nat> -> nat, stored: seq<nat> -> nat)

  /** What one publication means to say. */
  datatype Publication = Publication(info: seq<nat>, rows: seq<seq<nat>>)

  predicate Publishable(f: Fields, p: Publication, sequence: nat) {
    && |p.info| == INFO_WORDS && |p.rows| <= LIMIT
    && (forall r :: 0 <= r < |p.rows| ==> |p.rows[r]| == BANK_WORDS)
    && f.sequence(p.info) == sequence && f.stored(p.info) == |p.rows|
  }

  datatype WriterPc =
    | Quiet
    | Claim                                                    // boot: looks for a terminal claim
    | LoadSequence
    | Mark(next: nat)
    | Rows(next: nat, p: Publication, row: nat, word: nat)
    | Infos(next: nat, p: Publication, word: nat)
    | Commit(next: nat, p: Publication)
    | Done                                                     // published
    | Gone                                                     // lost the terminal claim

  /** A reader of the info record, and of one bank when `bank` is set. */
  datatype Query = Query(bank: bool, epoch: nat, sequence: nat, index: nat)

  datatype ReaderPc =
    | Start
    | Words(before: nat, words: seq<nat>)
    | Recheck(before: nat, words: seq<nat>)
    | Checked(before: nat, words: seq<nat>)
    | Row(before: nat, info: seq<nat>, words: seq<nat>)
    | RowRecheck(before: nat, info: seq<nat>, words: seq<nat>)
    | GotInfo(before: nat, info: seq<nat>)
    | GotRow(before: nat, info: seq<nat>, row: seq<nat>)
    | Failed

  datatype Reader = Reader(query: Query, pc: ReaderPc)

  datatype Cells = Cells(sequence: nat, terminal: bool, nested: nat, info: seq<nat>, banks: seq<seq<nat>>)

  /** `log` remembers the completed publication of each sequence number. */
  datatype State = State(
    c: Cells, boot: WriterPc, claims: seq<WriterPc>, readers: seq<Reader>, log: map<nat, Publication>)

  datatype Step =
    | BootStep(p: Publication)
    | ClaimStep(i: nat, p: Publication)
    | ReaderStep(i: nat)

  /** The even number after the current one, as both publishers compute it. */
  function NextEven(current: nat): nat {
    (if current % 2 == 0 then current + 1 else current) + 1
  }

  /** The common part of both publishers, from the load of the sequence number on. */
  function WriterNext(f: Fields, s: State, pc: WriterPc, terminal: bool, p: Publication): (State, WriterPc) {
    var c := s.c;
    match pc
    case LoadSequence => if !terminal && c.sequence % 2 == 1 then (s, Quiet) else (s, Mark(NextEven(c.sequence)))
    case Mark(next) =>
      if next > 0 && Publishable(f, p, next) then (s.(c := c.(sequence := next - 1)), Rows(next, p, 0, 0)) else (s, pc)
    case Rows(next, q, row, word) =>
      if row >= |q.rows| || row >= |c.banks| then (s, Infos(next, q, 0))
      else if word >= BANK_WORDS || word >= |q.rows[row]| || word >= |c.banks[row]| then (s, Rows(next, q, row + 1, 0))
      else (s.(c := c.(banks := c.banks[row := c.banks[row][word := q.rows[row][word]]])), Rows(next, q, row, word + 1))
    case Infos(next, q, word) =>
      if word >= INFO_WORDS || word >= |q.info| || word >= |c.info| then (s, Commit(next, q))
      else (s.(c := c.(info := c.info[word := q.info[word]])), Infos(next, q, word + 1))
    case Commit(next, q) => (s.(c := c.(sequence := f.sequence(q.info)), log := s.log[next := q]), Done)
    case _ => (s, pc)
  }

  function BootNext(f: Fields, s: State, p: Publication): State {
    match s.boot
    case Quiet => s.(boot := Claim)
    case Claim => s.(boot := LoadSequence)
    case Done => s.(boot := Quiet)
    case _ => var r := WriterNext(f, s, s.boot, false, p); r.0.(boot := r.1)
  }

  function ClaimNext(f: Fields, s: State, i: nat, p: Publication): State
    requires i < |s.claims|
  {
    match s.claims[i]
    case Quiet =>
      if s.c.terminal then s.(c := s.c.(nested := s.c.nested + 1), claims := s.claims[i := Gone])
      else s.(c := s.c.(terminal := true), claims := s.claims[i := LoadSequence])
    case Claim => s
    case Done => s
    case Gone => s
    case _ =>
      var r := WriterNext(f, s, s.claims[i], true, p);
      r.0.(claims := s.claims[i := r.1])
  }

  function ReaderNext(f: Fields, c: Cells, q: Query, pc: ReaderPc): ReaderPc {
    match pc
    case Start => if c.sequence == 0 || c.sequence % 2 == 1 then Failed else Words(c.sequence, [])
    case Words(before, words) =>
      if |words| < INFO_WORDS && |words| < |c.info| then Words(before, words + [c.info[|words|]])
      else Recheck(before, words)
    case Recheck(before, words) => if c.sequence != before then Failed else Checked(before, words)
    case Checked(before, words) =>
      if !q.bank then GotInfo(before, words)
      else if q.epoch == 0 || f.epoch(words) != q.epoch || q.sequence == 0 || q.sequence != f.sequence(words)
              || q.index >= f.stored(words) || q.index >= LIMIT then Failed
      else Row(before, words, [])
    case Row(before, info, words) =>
      if |words| < BANK_WORDS && q.index < |c.banks| && |words| < |c.banks[q.index]|
      then Row(before, info, words + [c.banks[q.index][|words|]]) else RowRecheck(before, info, words)
    case RowRecheck(before, info, words) => if c.sequence != q.sequence then Failed else GotRow(before, info, words)
    case _ => pc
  }

  function Next(f: Fields, s: State, step: Step): State {
    match step
    case BootStep(p) => if s.c.terminal then s else BootNext(f, s, p)
    case ClaimStep(i, p) => if i < |s.claims| then ClaimNext(f, s, i, p) else s
    case ReaderStep(i) =>
      if i < |s.readers| then
        s.(readers := s.readers[i := s.readers[i].(pc := ReaderNext(f, s.c, s.readers[i].query, s.readers[i].pc))])
      else s
  }

  function Run(f: Fields, s: State, steps: seq<Step>): State
    decreases |steps|
  {
    if steps == [] then s else Run(f, Next(f, s, steps[0]), steps[1..])
  }

  predicate Init(s: State) {
    && s.c.sequence == 0 && !s.c.terminal && |s.c.info| == INFO_WORDS && |s.c.banks| == LIMIT
    && (forall r :: 0 <= r < LIMIT ==> |s.c.banks[r]| == BANK_WORDS)
    && s.boot == Quiet && (forall i :: 0 <= i < |s.claims| ==> s.claims[i] == Quiet)
    && (forall i :: 0 <= i < |s.readers| ==> s.readers[i].pc == Start) && s.log == map[]
  }

  // ----- the invariant

  predicate Shape(c: Cells) {
    |c.info| == INFO_WORDS && |c.banks| == LIMIT && forall r :: 0 <= r < LIMIT ==> |c.banks[r]| == BANK_WORDS
  }

  /** The cells hold exactly this publication. */
  predicate Holds(c: Cells, p: Publication)
    requires Shape(c)
  {
    c.info == p.info && |p.rows| <= LIMIT && forall r :: 0 <= r < |p.rows| ==> c.banks[r] == p.rows[r]
  }

  predicate LogInv(f: Fields, s: State)
    requires Shape(s.c)
  {
    && (forall k :: k in s.log ==> 0 < k <= s.c.sequence && k % 2 == 0 && Publishable(f, s.log[k], k))
    && (s.c.sequence % 2 == 0 && s.c.sequence != 0 ==> s.c.sequence in s.log && Holds(s.c, s.log[s.c.sequence]))
  }

  /** A publisher that may still write, and how far it has come. */
  predicate WriterInv(f: Fields, s: State, pc: WriterPc, terminal: bool)
    requires Shape(s.c)
  {
    match pc
    case Mark(next) => next == NextEven(s.c.sequence) && (!terminal ==> s.c.sequence % 2 == 0)
    case Rows(next, p, row, word) =>
      && next % 2 == 0 && s.c.sequence == next - 1 && Publishable(f, p, next)
      && (forall r :: 0 <= r < row && r < |p.rows| ==> s.c.banks[r] == p.rows[r])
      && (row < |p.rows| ==> word <= BANK_WORDS && s.c.banks[row][..word] == p.rows[row][..word])
    case Infos(next, p, word) =>
      && next % 2 == 0 && s.c.sequence == next - 1 && Publishable(f, p, next)
      && (forall r :: 0 <= r < |p.rows| ==> s.c.banks[r] == p.rows[r])
      && word <= INFO_WORDS && s.c.info[..word] == p.info[..word]
    case Commit(next, p) =>
      && next % 2 == 0 && s.c.sequence == next - 1 && Publishable(f, p, next) && Holds(s.c, p)
    case _ => true
  }

  predicate Writing(pc: WriterPc) {
    !pc.Quiet? && !pc.Done? && !pc.Gone?
  }

  /** This claim won: it publishes or has published. */
  predicate Winner(pc: WriterPc) {
    !pc.Quiet? && !pc.Gone?
  }

  /** Before the terminal claim only the boot publisher writes, after it only the one claimant. */
  predicate WritersInv(f: Fields, s: State)
    requires Shape(s.c)
  {
    && (!s.c.terminal ==> WriterInv(f, s, s.boot, false) && forall i :: 0 <= i < |s.claims| ==> s.claims[i].Quiet?)
    && (s.c.terminal ==> forall i :: 0 <= i < |s.claims| ==> WriterInv(f, s, s.claims[i], true))
    && (forall i, j :: 0 <= i < |s.claims| && 0 <= j < |s.claims| && Winner(s.claims[i]) && Winner(s.claims[j]) ==>
         i == j)
  }

  /** While the sequence number has not moved, a reader has collected the words of its publication. */
  predicate ReaderInv(f: Fields, s: State, q: Query, pc: ReaderPc) {
    match pc
    case Words(before, words) => Sampling(s, before) && |words| <= INFO_WORDS &&
      (s.c.sequence == before ==> words == s.log[before].info[..|words|])
    case Recheck(before, words) => Sampling(s, before) && (s.c.sequence == before ==> words == s.log[before].info)
    case Checked(before, words) => Sampling(s, before) && words == s.log[before].info
    case Row(before, info, words) =>
      && Sampling(s, before) && info == s.log[before].info && Asks(f, q, s.log[before], before)
      && |words| <= BANK_WORDS && (s.c.sequence == before ==> words == s.log[before].rows[q.index][..|words|])
    case RowRecheck(before, info, words) =>
      && Sampling(s, before) && info == s.log[before].info && Asks(f, q, s.log[before], before)
      && (s.c.sequence == before ==> words == s.log[before].rows[q.index])
    case GotInfo(before, info) => Sampling(s, before) && info == s.log[before].info
    case GotRow(before, info, row) =>
      && Sampling(s, before) && info == s.log[before].info && Asks(f, q, s.log[before], before)
      && row == s.log[before].rows[q.index]
    case _ => true
  }

  predicate Sampling(s: State, before: nat) {
    before in s.log && before <= s.c.sequence && |s.log[before].info| == INFO_WORDS && before % 2 == 0
    && forall r :: 0 <= r < |s.log[before].rows| ==> |s.log[before].rows[r]| == BANK_WORDS
  }

  /** The query names this publication and one of its rows. */
  predicate Asks(f: Fields, q: Query, p: Publication, before: nat) {
    q.sequence == before && q.epoch == f.epoch(p.info) && q.epoch != 0 && q.index < |p.rows|
  }

  predicate Inv(f: Fields, s: State) {
    && Shape(s.c) && LogInv(f, s) && WritersInv(f, s)
    && forall i :: 0 <= i < |s.readers| ==> ReaderInv(f, s, s.readers[i].query, s.readers[i].pc)
  }

  lemma InitInv(f: Fields, s: State)
    requires Init(s)
    ensures Inv(f, s)
  {
  }

  /** What a step of a publisher keeps. */
  predicate Written(f: Fields, s: State, pc: WriterPc, terminal: bool, t: State) {
    && Shape(t.c) && LogInv(f, t) && WriterInv(f, t, pc, terminal)
    && s.c.sequence <= t.c.sequence && t.c.terminal == s.c.terminal
    && t.boot == s.boot && t.claims == s.claims && t.readers == s.readers
    && (forall k :: k in s.log ==> k in t.log && t.log[k] == s.log[k])
    && (t.c.sequence == s.c.sequence ==> t.c == s.c || t.c.sequence % 2 == 1)
  }

  lemma MarkStep(f: Fields, s: State, pc: WriterPc, terminal: bool, p: Publication)
    requires Shape(s.c) && LogInv(f, s) && WriterInv(f, s, pc, terminal) && (pc.LoadSequence? || pc.Mark?)
    ensures var r := WriterNext(f, s, pc, terminal, p); Written(f, s, r.1, terminal, r.0)
  {
  }

  lemma RowStep(f: Fields, s: State, pc: WriterPc, terminal: bool, p: Publication)
    requires Shape(s.c) && LogInv(f, s) && WriterInv(f, s, pc, terminal) && pc.Rows?
    ensures var r := WriterNext(f, s, pc, terminal, p); Written(f, s, r.1, terminal, r.0)
  {
    var t := WriterNext(f, s, pc, terminal, p).0;
    if pc.row < |pc.p.rows| {
      var row, word := pc.row, pc.word;
      if word < BANK_WORDS {
        assert t.c.banks[row][..word + 1] == s.c.banks[row][..word] + [pc.p.rows[row][word]];
        assert pc.p.rows[row][..word + 1] == pc.p.rows[row][..word] + [pc.p.rows[row][word]];
      } else {
        assert s.c.banks[row][..BANK_WORDS] == s.c.banks[row] && pc.p.rows[row][..BANK_WORDS] == pc.p.rows[row];
      }
    }
  }

  lemma InfoStep(f: Fields, s: State, pc: WriterPc, terminal: bool, p: Publication)
    requires Shape(s.c) && LogInv(f, s) && WriterInv(f, s, pc, terminal) && pc.Infos?
    ensures var r := WriterNext(f, s, pc, terminal, p); Written(f, s, r.1, terminal, r.0)
  {
    var t := WriterNext(f, s, pc, terminal, p).0;
    var word := pc.word;
    if word < INFO_WORDS {
      assert t.c.info[..word + 1] == s.c.info[..word] + [pc.p.info[word]];
      assert pc.p.info[..word + 1] == pc.p.info[..word] + [pc.p.info[word]];
    } else {
      assert s.c.info[..INFO_WORDS] == s.c.info && pc.p.info[..INFO_WORDS] == pc.p.info;
    }
  }

  lemma CommitStep(f: Fields, s: State, pc: WriterPc, terminal: bool, p: Publication)
    requires Shape(s.c) && LogInv(f, s) && WriterInv(f, s, pc, terminal) && pc.Commit?
    ensures var r := WriterNext(f, s, pc, terminal, p); Written(f, s, r.1, terminal, r.0)
  {
  }

  lemma WriterStep(f: Fields, s: State, pc: WriterPc, terminal: bool, p: Publication)
    requires Shape(s.c) && LogInv(f, s) && WriterInv(f, s, pc, terminal) && Writing(pc) && !pc.Claim?
    ensures var r := WriterNext(f, s, pc, terminal, p); Written(f, s, r.1, terminal, r.0)
  {
    hide Shape, LogInv, WriterInv, Written, WriterNext;
    if pc.Rows? {
      RowStep(f, s, pc, terminal, p);
    } else if pc.Infos? {
      InfoStep(f, s, pc, terminal, p);
    } else if pc.Commit? {
      CommitStep(f, s, pc, terminal, p);
    } else {
      MarkStep(f, s, pc, terminal, p);
    }
  }

  /** Readers survive every step of a publisher. */
  lemma ReaderSurvives(f: Fields, s: State, t: State, q: Query, pc: ReaderPc)
    requires ReaderInv(f, s, q, pc)
    requires s.c.sequence <= t.c.sequence && forall k :: k in s.log ==> k in t.log && t.log[k] == s.log[k]
    ensures ReaderInv(f, t, q, pc)
  {
  }

  lemma BootKeeps(f: Fields, s: State, p: Publication)
    requires Inv(f, s) && !s.c.terminal
    ensures Inv(f, BootNext(f, s, p))
  {
    var t := BootNext(f, s, p);
    if Writing(s.boot) && !s.boot.Claim? {
      WriterStep(f, s, s.boot, false, p);
      hide WriterNext, WriterInv, ReaderInv;
      var r := WriterNext(f, s, s.boot, false, p);
      assert t == r.0.(boot := r.1);
      SameWriter(f, r.0, t, r.1, false);
      forall i | 0 <= i < |t.readers| ensures ReaderInv(f, t, t.readers[i].query, t.readers[i].pc) {
        ReaderSurvives(f, s, t, s.readers[i].query, s.readers[i].pc);
      }
    } else {
      hide WriterNext;
      forall i | 0 <= i < |t.readers| ensures ReaderInv(f, t, t.readers[i].query, t.readers[i].pc) {
        ReaderSurvives(f, s, t, s.readers[i].query, s.readers[i].pc);
      }
    }
  }

  lemma SameWriter(f: Fields, s: State, t: State, pc: WriterPc, terminal: bool)
    requires Shape(s.c) && t.c == s.c && WriterInv(f, s, pc, terminal)
    ensures WriterInv(f, t, pc, terminal)
  {
  }

  lemma ClaimKeeps(f: Fields, s: State, i: nat, p: Publication)
    requires Inv(f, s) && i < |s.claims|
    ensures Inv(f, ClaimNext(f, s, i, p))
  {
    var t := ClaimNext(f, s, i, p);
    if Writing(s.claims[i]) && !s.claims[i].Claim? {
      WriterStep(f, s, s.claims[i], true, p);
      hide WriterNext, WriterInv, ReaderInv;
      var r := WriterNext(f, s, s.claims[i], true, p);
      SameWriter(f, r.0, t, r.1, true);
      forall j | 0 <= j < |t.claims| && j != i ensures WriterInv(f, t, t.claims[j], true) {
        assert !Writing(s.claims[j]);
        RestingWriter(f, t, s.claims[j], true);
      }
      forall j | 0 <= j < |t.readers| ensures ReaderInv(f, t, t.readers[j].query, t.readers[j].pc) {
        ReaderSurvives(f, s, t, s.readers[j].query, s.readers[j].pc);
      }
    } else {
      hide WriterNext;
      forall j | 0 <= j < |t.readers| ensures ReaderInv(f, t, t.readers[j].query, t.readers[j].pc) {
        ReaderSurvives(f, s, t, s.readers[j].query, s.readers[j].pc);
      }
    }
  }

  lemma RestingWriter(f: Fields, s: State, pc: WriterPc, terminal: bool)
    requires Shape(s.c) && !Writing(pc)
    ensures WriterInv(f, s, pc, terminal)
  {
  }

  lemma ReaderMoves(f: Fields, s: State, q: Query, pc: ReaderPc)
    requires Shape(s.c) && LogInv(f, s) && ReaderInv(f, s, q, pc)
    ensures ReaderInv(f, s, q, ReaderNext(f, s.c, q, pc))
  {
    var next := ReaderNext(f, s.c, q, pc);
    if pc.Words? {
      assert s.c.sequence == pc.before && next.Words? ==>
        s.log[pc.before].info[..|pc.words| + 1] == s.log[pc.before].info[..|pc.words|] + [s.c.info[|pc.words|]];
      assert s.log[pc.before].info[..INFO_WORDS] == s.log[pc.before].info;
    } else if pc.Row? {
      var row := s.log[pc.before].rows[q.index];
      assert s.c.sequence == pc.before && next.Row? ==>
        row[..|pc.words| + 1] == row[..|pc.words|] + [s.c.banks[q.index][|pc.words|]];
      assert row[..BANK_WORDS] == row;
    }
  }

  lemma ReaderKeeps(f: Fields, s: State, i: nat)
    requires Inv(f, s) && i < |s.readers|
    ensures Inv(f, Next(f, s, ReaderStep(i)))
  {
    var t := Next(f, s, ReaderStep(i));
    ReaderMoves(f, s, s.readers[i].query, s.readers[i].pc);
    hide ReaderNext, WriterInv, ReaderInv, LogInv;
    SameLog(f, s, t);
    forall j | 0 <= j < |t.readers| ensures ReaderInv(f, t, t.readers[j].query, t.readers[j].pc) {
      ReaderSurvives(f, s, t, t.readers[j].query, t.readers[j].pc);
    }
    if !s.c.terminal { SameWriter(f, s, t, s.boot, false); }
    forall j | 0 <= j < |t.claims| && s.c.terminal ensures WriterInv(f, t, t.claims[j], true) {
      SameWriter(f, s, t, s.claims[j], true);
    }
  }

  lemma SameLog(f: Fields, s: State, t: State)
    requires Shape(s.c) && LogInv(f, s) && t.c == s.c && t.log == s.log
    ensures LogInv(f, t)
  {
  }

  lemma StepKeeps(f: Fields, s: State, step: Step)
    requires Inv(f, s)
    ensures Inv(f, Next(f, s, step))
  {
    match step
    case BootStep(p) => if !s.c.terminal { BootKeeps(f, s, p); }
    case ClaimStep(i, p) => if i < |s.claims| { ClaimKeeps(f, s, i, p); }
    case ReaderStep(i) => if i < |s.readers| { ReaderKeeps(f, s, i); }
    hide Inv, BootNext, ClaimNext;
  }

  lemma {:induction false} RunKeeps(f: Fields, s: State, steps: seq<Step>)
    requires Inv(f, s)
    ensures Inv(f, Run(f, s, steps))
    decreases |steps|
  {
    hide Inv, Next;
    if steps != [] {
      StepKeeps(f, s, steps[0]);
      RunKeeps(f, Next(f, s, steps[0]), steps[1..]);
    }
  }

  // ----- what readers get, in every interleaving

  /** A successful info read returns all words of one completed publication. */
  lemma InfoAtomic(f: Fields, s: State, steps: seq<Step>, i: nat)
    requires Init(s) && i < |Run(f, s, steps).readers| && Run(f, s, steps).readers[i].pc.GotInfo?
    ensures var t := Run(f, s, steps);
      var got := t.readers[i].pc;
      got.before in t.log && got.info == t.log[got.before].info && f.sequence(got.info) == got.before
  {
    InitInv(f, s);
    RunKeeps(f, s, steps);
    hide Run, WriterInv;
  }

  /** A successful bank read returns a row of the publication it named, by epoch and sequence. */
  lemma BankAtomic(f: Fields, s: State, steps: seq<Step>, i: nat)
    requires Init(s) && i < |Run(f, s, steps).readers| && Run(f, s, steps).readers[i].pc.GotRow?
    ensures var t := Run(f, s, steps);
      var got, q := t.readers[i].pc, t.readers[i].query;
      && q.sequence in t.log && q.epoch == f.epoch(t.log[q.sequence].info)
      && q.index < |t.log[q.sequence].rows| && got.row == t.log[q.sequence].rows[q.index]
  {
    InitInv(f, s);
    RunKeeps(f, s, steps);
    hide Run, WriterInv;
  }

  /** Only one terminal claim ever wins. */
  lemma OneTerminalWinner(f: Fields, s: State, steps: seq<Step>, i: nat, j: nat)
    requires Init(s) && i < |Run(f, s, steps).claims| && j < |Run(f, s, steps).claims|
    requires Winner(Run(f, s, steps).claims[i]) && Winner(Run(f, s, steps).claims[j])
    ensures i == j
  {
    InitInv(f, s);
    RunKeeps(f, s, steps);
    hide Run, WriterInv;
  }
}
