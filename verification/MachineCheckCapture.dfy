/** The read-only scan of the machine-check banks: which rows it stores, which registers it reads and
    what it says of them. */
module MachineCheckCapture {
  import opened Common

  const LIMIT: nat := 64
  const VAL: nat := 0x8000_0000_0000_0000
  const MISCV: nat := 0x0800_0000_0000_0000
  const ADDRV: nat := 0x0400_0000_0000_0000
  const SYNDV: nat := 0x0020_0000_0000_0000
  const MCG_CAP: nat := 0x179
  const MCG_STATUS: nat := 0x17a

  predicate Has(value: nat, bit: nat)
    requires bit > 0
  {
    value / bit % 2 == 1
  }

  /** What the processor advertises, and what the scan found. */
  datatype Flags = Flags(mce: bool, mca: bool, msr: bool)
  datatype Notes = Notes(unsupported: bool, truncated: bool, readFault: bool)
  datatype Counts = Counts(stored: nat, valid: nat, faults: nat)

  datatype Info = Info(
    cpu: nat, epoch: nat, sequence: nat, profile: nat, flags: Flags,
    mcgCap: Option<nat>, mcgStatus: Option<nat>, bankCount: nat, notes: Notes, counts: Counts)

  /** One row; its status register is base + 1. */
  datatype Bank = Bank(
    cpu: nat, index: nat, epoch: nat, sequence: nat, smca: bool, base: nat,
    status: Option<nat>, address: Option<nat>, misc: Option<nat>, config: Option<nat>, ipid: Option<nat>,
    syndrome: Option<nat>, statusAfter: Option<nat>, valid: bool, unstable: bool, readFault: bool)

  /** What the n-th register read of a scan returns; none is a fault. */
  type Msr = (nat, nat) -> Option<nat>

  function RegisterBase(profile: nat, index: nat): nat {
    if profile == 3 then 0xc000_2000 + 16 * index else 0x400 + 4 * index
  }

  /** Banks beyond the documented register window are never read. */
  function Window(profile: nat): nat {
    if profile == 2 then 32 else LIMIT
  }

  predicate Qualified(info: Info) {
    info.flags.mce && info.flags.mca && info.flags.msr
  }

  /** The address and miscellaneous registers a valid status names. */
  function PlainRegisters(base: nat, status: nat): seq<nat> {
    (if Has(status, ADDRV) then [base + 2] else []) + (if Has(status, MISCV) then [base + 3] else [])
  }

  /** The extension registers of a scalable bank, gated by its configuration. */
  function ExtendedRegisters(base: nat, status: nat, config: Option<nat>): seq<nat> {
    if config.None? || !Has(config.value, 1) then [base + 4]
    else if Has(status, SYNDV) then [base + 4, base + 5, base + 6]
    else [base + 4, base + 5]
  }

  /** The registers one bank needed, as a function of what was found in them. */
  function Registers(b: Bank): seq<nat> {
    var base := b.base;
    if !b.valid || b.status.None? then [base + 1]
    else
      [base + 1] + PlainRegisters(base, b.status.value)
      + (if b.smca then ExtendedRegisters(base, b.status.value, b.config) else []) + [base + 1]
  }

  /** The address and miscellaneous values are what their registers held, from read `at` on. */
  predicate PlainAs(address: Option<nat>, misc: Option<nat>, msr: Msr, at: nat, base: nat, status: nat) {
    && address == (if Has(status, ADDRV) then msr(at, base + 2) else None)
    && misc == (if Has(status, MISCV) then msr(if Has(status, ADDRV) then at + 1 else at, base + 3) else None)
  }

  predicate Extends(config: Option<nat>) {
    config.Some? && Has(config.value, 1)
  }

  predicate ExtendedAs(config: Option<nat>, ipid: Option<nat>, syndrome: Option<nat>, msr: Msr, at: nat, base: nat,
      status: nat) {
    && config == msr(at, base + 4)
    && ipid == (if Extends(config) then msr(at + 1, base + 5) else None)
    && syndrome == (if Extends(config) && Has(status, SYNDV) then msr(at + 2, base + 6) else None)
  }

  /** The values of a row are what its registers held, when its reads begin with read `at`. */
  predicate HeldAs(b: Bank, msr: Msr, at: nat) {
    && b.status == msr(at, b.base + 1)
    && (b.valid <==> b.status.Some? && Has(b.status.value, VAL))
    && (if b.valid then
          var plain := at + 1 + |PlainRegisters(b.base, b.status.value)|;
          && PlainAs(b.address, b.misc, msr, at + 1, b.base, b.status.value)
          && (if b.smca then ExtendedAs(b.config, b.ipid, b.syndrome, msr, plain, b.base, b.status.value)
              else b.config == b.ipid == b.syndrome == None)
          && b.statusAfter == msr(at + |Registers(b)| - 1, b.base + 1)
        else b.address == b.misc == b.config == b.ipid == b.syndrome == b.statusAfter == None)
    && (b.unstable <==> b.valid && b.statusAfter != b.status)
  }

  /** A row says what its registers held, and whether one of them faulted. */
  predicate ReadAs(b: Bank, msr: Msr, at: nat) {
    HeldAs(b, msr, at) && (b.readFault <==> AnyFault(msr, at, Registers(b)))
  }

  /** Some register of a run of reads faulted. */
  predicate AnyFault(msr: Msr, at: nat, registers: seq<nat>) {
    exists k :: 0 <= k < |registers| && msr(at + k, registers[k]).None?
  }

  /** A scan in progress: the registers read so far and how many of them faulted. */
  datatype Scan = Scan(trace: seq<nat>, faults: nat)

  function Faults(msr: Msr, trace: seq<nat>): nat
    decreases |trace|
  {
    if trace == [] then 0
    else Faults(msr, trace[..|trace| - 1]) + (if msr(|trace| - 1, trace[|trace| - 1]).None? then 1 else 0)
  }

  /** The count of faults grows exactly when one of the reads faults. */
  lemma {:induction false} FaultsGrow(msr: Msr, trace: seq<nat>, registers: seq<nat>)
    ensures Faults(msr, trace) <= Faults(msr, trace + registers)
    ensures Faults(msr, trace + registers) != Faults(msr, trace) <==> AnyFault(msr, |trace|, registers)
    decreases |registers|
  {
    if registers == [] {
      assert trace + registers == trace;
    } else {
      var n := |registers| - 1;
      var init, all := registers[..n], trace + registers;
      FaultsGrow(msr, trace, init);
      assert all[..|all| - 1] == trace + init && all[|all| - 1] == registers[n];
      assert forall k :: 0 <= k < n ==> init[k] == registers[k];
      if AnyFault(msr, |trace|, init) {
        var k :| 0 <= k < n && msr(|trace| + k, init[k]).None?;
        assert msr(|trace| + k, registers[k]).None?;
      }
    }
  }

  method Read(msr: Msr, scan: Scan, register: nat) returns (value: Option<nat>, next: Scan)
    requires scan.faults == Faults(msr, scan.trace)
    ensures value == msr(|scan.trace|, register)
    ensures next.trace == scan.trace + [register] && next.faults == Faults(msr, next.trace)
    ensures next.faults == scan.faults + (if value.None? then 1 else 0)
  {
    value := msr(|scan.trace|, register);
    next := Scan(scan.trace + [register], if value.None? then scan.faults + 1 else scan.faults);
    assert next.trace[..|scan.trace|] == scan.trace;
  }

  /** The registers a valid status names. */
  method ReadPlain(msr: Msr, scan: Scan, base: nat, status: nat)
      returns (address: Option<nat>, misc: Option<nat>, next: Scan)
    requires scan.faults == Faults(msr, scan.trace)
    ensures next.trace == scan.trace + PlainRegisters(base, status) &&
      next.faults == Faults(msr, next.trace) >= scan.faults
    ensures PlainAs(address, misc, msr, |scan.trace|, base, status)
  {
    hide Has;
    address, misc, next := None, None, scan;
    if Has(status, ADDRV) { address, next := Read(msr, next, base + 2); }
    if Has(status, MISCV) { misc, next := Read(msr, next, base + 3); }
  }

  /** The registers a scalable bank adds. */
  method ReadExtended(msr: Msr, scan: Scan, base: nat, status: nat)
    returns (config: Option<nat>, ipid: Option<nat>, syndrome: Option<nat>, next: Scan)
    requires scan.faults == Faults(msr, scan.trace)
    ensures next.trace == scan.trace + ExtendedRegisters(base, status, config) &&
      next.faults == Faults(msr, next.trace) >= scan.faults
    ensures ExtendedAs(config, ipid, syndrome, msr, |scan.trace|, base, status)
  {
    hide Has;
    ipid, syndrome := None, None;
    config, next := Read(msr, scan, base + 4);
    if config.Some? && Has(config.value, 1) {
      ipid, next := Read(msr, next, base + 5);
      if Has(status, SYNDV) { syndrome, next := Read(msr, next, base + 6); }
    }
  }

  /** The values of one bank: its auxiliary registers are read only when its valid status names them. */
  method ReadValues(info: Info, msr: Msr, scan: Scan, index: nat) returns (b: Bank, next: Scan)
    requires scan.faults == Faults(msr, scan.trace)
    ensures b.index == index && b.cpu == info.cpu && b.epoch == info.epoch && b.sequence == info.sequence
    ensures b.smca == (info.profile == 3) && b.base == RegisterBase(info.profile, index)
    ensures HeldAs(b, msr, |scan.trace|)
    ensures next.trace == scan.trace + Registers(b) && next.faults == Faults(msr, next.trace)
  {
    hide Has, Faults, PlainRegisters, ExtendedRegisters, PlainAs, ExtendedAs, HeldAs, Registers, RegisterBase;
    var smca, base := info.profile == 3, RegisterBase(info.profile, index);
    var status;
    status, next := Read(msr, scan, base + 1);
    b := Bank(info.cpu, index, info.epoch, info.sequence, smca, base, status, None, None, None, None, None, None, false,
        false, false);
    if status.Some? && Has(status.value, VAL) {
      var address, misc, config, ipid, syndrome, after := None, None, None, None, None, None;
      address, misc, next := ReadPlain(msr, next, base, status.value);
      ghost var plain, extended: seq<nat> := PlainRegisters(base, status.value), [];
      if smca {
        config, ipid, syndrome, next := ReadExtended(msr, next, base, status.value);
        extended := ExtendedRegisters(base, status.value, config);
      }
      after, next := Read(msr, next, base + 1);
      b := b.(valid := true, address := address, misc := misc, config := config, ipid := ipid, syndrome := syndrome,
              statusAfter := after, unstable := after != status);
      Joined(scan.trace, base + 1, plain, extended);
      HeldNamed(b, msr, |scan.trace|, plain, extended);
    } else {
      HeldAlone(b, msr, |scan.trace|);
    }
  }

  lemma HeldAlone(b: Bank, msr: Msr, at: nat)
    requires b.status == msr(at, b.base + 1) && !(b.status.Some? && Has(b.status.value, VAL))
    requires !b.valid && !b.unstable && b.address == b.misc == b.config == b.ipid == b.syndrome == b.statusAfter == None
    ensures HeldAs(b, msr, at) && Registers(b) == [b.base + 1]
  {
  }

  lemma HeldNamed(b: Bank, msr: Msr, at: nat, plain: seq<nat>, extended: seq<nat>)
    requires b.valid && b.status.Some? && Has(b.status.value, VAL) && b.status == msr(at, b.base + 1)
    requires plain == PlainRegisters(b.base, b.status.value) &&
      PlainAs(b.address, b.misc, msr, at + 1, b.base, b.status.value)
    requires extended == if b.smca then ExtendedRegisters(b.base, b.status.value, b.config) else []
    requires if b.smca then ExtendedAs(b.config, b.ipid, b.syndrome, msr, at + 1 + |plain|, b.base, b.status.value)
             else b.config == b.ipid == b.syndrome == None
    requires b.statusAfter == msr(at + 1 + |plain| + |extended|, b.base + 1) &&
      b.unstable == (b.statusAfter != b.status)
    ensures HeldAs(b, msr, at) && Registers(b) == [b.base + 1] + plain + extended + [b.base + 1]
  {
    hide Has, PlainRegisters, ExtendedRegisters, PlainAs, ExtendedAs;
  }

  lemma Joined(trace: seq<nat>, status: nat, plain: seq<nat>, extended: seq<nat>)
    ensures trace + [status] + plain + extended + [status] == trace + ([status] + plain + extended + [status])
    ensures trace + [status] + plain + [] == trace + [status] + plain
  {
  }

  lemma NotedFault(b: Bank, fault: bool, msr: Msr, at: nat)
    requires HeldAs(b, msr, at)
    ensures HeldAs(b.(readFault := fault), msr, at) && Registers(b.(readFault := fault)) == Registers(b)
  {
  }

  /** One bank. */
  method ReadBank(info: Info, msr: Msr, scan: Scan, index: nat) returns (b: Bank, next: Scan)
    requires scan.faults == Faults(msr, scan.trace)
    ensures b.index == index && b.cpu == info.cpu && b.epoch == info.epoch && b.sequence == info.sequence
    ensures b.smca == (info.profile == 3) && b.base == RegisterBase(info.profile, index)
    ensures ReadAs(b, msr, |scan.trace|)
    ensures next.trace == scan.trace + Registers(b) && next.faults == Faults(msr, next.trace)
  {
    hide HeldAs, Registers, AnyFault, Faults;
    var row;
    row, next := ReadValues(info, msr, scan, index);
    var fault := next.faults != scan.faults;
    FaultsGrow(msr, scan.trace, Registers(row));
    NotedFault(row, fault, msr, |scan.trace|);
    b := row.(readFault := fault);
  }

  /** The banks of a scan are numbered from 0 and carry the identity of their publication. */
  predicate InOrder(info: Info, banks: seq<Bank>) {
    forall i :: 0 <= i < |banks| ==>
      && banks[i].index == i && banks[i].cpu == info.cpu
      && banks[i].epoch == info.epoch && banks[i].sequence == info.sequence
      && banks[i].base == RegisterBase(info.profile, i) && banks[i].smca == (info.profile == 3)
  }

  function ValidCount(banks: seq<Bank>): nat {
    if banks == [] then 0 else ValidCount(banks[..|banks| - 1]) + (if banks[|banks| - 1].valid then 1 else 0)
  }

  /** All registers of a scan after the two global ones. */
  function BankTrace(banks: seq<Bank>): seq<nat> {
    if banks == [] then [] else BankTrace(banks[..|banks| - 1]) + Registers(banks[|banks| - 1])
  }

  /** Every row says what its own reads found, when the reads of the banks begin with read `from`. */
  predicate Truthful(banks: seq<Bank>, msr: Msr, from: nat)
    decreases |banks|
  {
    banks == [] ||
    (var init := banks[..|banks| - 1];
     Truthful(init, msr, from) && ReadAs(banks[|banks| - 1], msr, from + |BankTrace(init)|))
  }

  /** How many rows a scan stores. */
  function Rows(out: Info): nat {
    if out.profile == 0 || out.mcgCap.None? then 0
    else if out.bankCount < Window(out.profile) then out.bankCount else Window(out.profile)
  }

  /** The info record after the two global registers. */
  function WithGlobals(info: Info, msr: Msr): Info {
    var cap, status := msr(0, MCG_CAP), msr(1, MCG_STATUS);
    info.(mcgCap := if cap.Some? then cap else info.mcgCap,
          bankCount := if cap.Some? then cap.value % 256 else info.bankCount,
          mcgStatus := if status.Some? then status else info.mcgStatus)
  }

  method ReadGlobals(info: Info, msr: Msr) returns (out: Info, scan: Scan)
    ensures out == WithGlobals(info, msr) && scan.trace == [MCG_CAP, MCG_STATUS] &&
      scan.faults == Faults(msr, scan.trace)
  {
    out, scan := info, Scan([], 0);
    var value;
    value, scan := Read(msr, scan, MCG_CAP);
    if value.Some? { out := out.(mcgCap := value, bankCount := value.value % 256); }
    value, scan := Read(msr, scan, MCG_STATUS);
    if value.Some? { out := out.(mcgStatus := value); }
  }

  /** What a scan of a qualified processor returns: no banks without a profile and a bank count, and
      never more than the register window. */
  predicate Scanned(info: Info, msr: Msr, out: Info, banks: seq<Bank>, trace: seq<nat>) {
    var g := WithGlobals(info, msr);
    && |banks| == Rows(g) && InOrder(info, banks) && trace == [MCG_CAP, MCG_STATUS] + BankTrace(banks)
    && Truthful(banks, msr, 2)
    && Completed(g, out, |banks|, ValidCount(banks), Faults(msr, trace))
  }

  /** The finished info record: notes, bank counts and faults; the rest is as the globals left it. */
  predicate Completed(g: Info, out: Info, stored: nat, valid: nat, faults: nat) {
    && (out.notes.unsupported <==> g.notes.unsupported || g.profile == 0)
    && (out.notes.truncated <==>
         g.notes.truncated || (g.profile != 0 && g.mcgCap.Some? && g.bankCount > Window(g.profile)))
    && (out.notes.readFault <==> g.notes.readFault || faults > 0)
    && out.counts == Counts(g.counts.stored + stored, g.counts.valid + valid, g.counts.faults + faults)
    && out == g.(notes := out.notes, counts := out.counts)
  }

  method Collect(info: Info, msr: Msr) returns (out: Info, banks: seq<Bank>, trace: seq<nat>)
    ensures !Qualified(info) ==> banks == [] && trace == [] && out == info.(notes := info.notes.(unsupported := true))
    ensures Qualified(info) ==> Scanned(info, msr, out, banks, trace)
  {
    out, banks, trace := info, [], [];
    if !Qualified(info) {
      out := out.(notes := out.notes.(unsupported := true));
      return;
    }
    var scan;
    out, scan := ReadGlobals(info, msr);
    hide InOrder, BankTrace, ValidCount, Faults, WithGlobals, Completed, Truthful;
    out, banks, scan := ScanBanks(info, out, msr, scan);
    trace := scan.trace;
  }

  /** The part of the scan that depends on the profile and the bank count. */
  method ScanBanks(info: Info, g: Info, msr: Msr, scan: Scan) returns (out: Info, banks: seq<Bank>, next: Scan)
    requires scan.faults == Faults(msr, scan.trace)
    ensures |banks| == Rows(g) && InOrder(info, banks) && next.trace == scan.trace + BankTrace(banks)
    ensures Truthful(banks, msr, |scan.trace|)
    ensures Completed(g, out, |banks|, ValidCount(banks), Faults(msr, next.trace))
  {
    hide InOrder, BankTrace, ValidCount, Faults, Truthful;
    var valid;
    var notes := NotesOf(g);
    banks, valid, next := ReadBanks(info, msr, scan, Rows(g));
    if next.faults > 0 { notes := notes.(readFault := true); }
    out := g.(notes := notes, counts := Counts(g.counts.stored + |banks|, g.counts.valid + valid,
        g.counts.faults + next.faults));
  }

  /** An unknown profile reads no banks, and banks beyond the window are noted as left out. */
  function NotesOf(g: Info): Notes {
    if g.profile == 0 then g.notes.(unsupported := true)
    else if g.mcgCap.Some? && g.bankCount > Window(g.profile) then g.notes.(truncated := true)
    else g.notes
  }

  /** All banks of the window, in order. */
  method ReadBanks(info: Info, msr: Msr, scan: Scan, count: nat) returns (banks: seq<Bank>, valid: nat, next: Scan)
    requires scan.faults == Faults(msr, scan.trace)
    ensures |banks| == count && InOrder(info, banks) && valid == ValidCount(banks)
    ensures next.trace == scan.trace + BankTrace(banks) && next.faults == Faults(msr, next.trace)
    ensures Truthful(banks, msr, |scan.trace|)
  {
    hide Has, Registers, Faults, ReadAs, InOrder, ValidCount, BankTrace, Truthful;
    banks, valid, next := [], 0, scan;
    NoBanks(info, msr, |scan.trace|);
    for index := 0 to count
      invariant |banks| == index && InOrder(info, banks) && valid == ValidCount(banks)
      invariant next.trace == scan.trace + BankTrace(banks) && next.faults == Faults(msr, next.trace)
      invariant Truthful(banks, msr, |scan.trace|)
    {
      var b;
      b, next := ReadBank(info, msr, next, index);
      NextBank(info, banks, b, msr, |scan.trace|);
      banks := banks + [b];
      if b.valid { valid := valid + 1; }
    }
  }

  lemma NoBanks(info: Info, msr: Msr, from: nat)
    ensures InOrder(info, []) && Truthful([], msr, from) && ValidCount([]) == 0 && BankTrace([]) == []
  {
  }

  lemma NextBank(info: Info, banks: seq<Bank>, b: Bank, msr: Msr, from: nat)
    requires InOrder(info, banks) && Truthful(banks, msr, from) && ReadAs(b, msr, from + |BankTrace(banks)|)
    requires b.index == |banks| && b.cpu == info.cpu && b.epoch == info.epoch && b.sequence == info.sequence
    requires b.smca == (info.profile == 3) && b.base == RegisterBase(info.profile, |banks|)
    ensures InOrder(info, banks + [b]) && Truthful(banks + [b], msr, from)
    ensures ValidCount(banks + [b]) == ValidCount(banks) + (if b.valid then 1 else 0)
    ensures BankTrace(banks + [b]) == BankTrace(banks) + Registers(b)
  {
    hide ReadAs, Registers, RegisterBase;
    assert (banks + [b])[..|banks|] == banks;
  }

  /** What readers of the record rely on: as many rows as the record says, at most 64, each with its
      own number and the identity of the record. */
  lemma RowsMatchRecord(info: Info, msr: Msr, out: Info, banks: seq<Bank>, trace: seq<nat>)
    requires info.counts.stored == 0 && Scanned(info, msr, out, banks, trace)
    ensures out.counts.stored == |banks| <= LIMIT && out.epoch == info.epoch && out.sequence == info.sequence
    ensures forall i :: 0 <= i < |banks| ==>
      banks[i].index == i && banks[i].epoch == out.epoch && banks[i].sequence == out.sequence
  {
    hide BankTrace, ValidCount, Faults, Truthful;
  }
}
