/** What a scan collects is what the store can publish. */
module MachineCheckPublish {
  import opened MachineCheckCapture
  import Store = MachineCheckStore

  /** How records and rows are laid out in words. */
  datatype Layout = Layout(info: Info -> seq<nat>, bank: Bank -> seq<nat>)

  /** The store reads the epoch, the sequence number and the number of rows where the layout put them. */
  ghost predicate Reads(f: Store.Fields, layout: Layout) {
    && (forall x :: |layout.info(x)| == Store.INFO_WORDS && f.epoch(layout.info(x)) == x.epoch
                    && f.sequence(layout.info(x)) == x.sequence && f.stored(layout.info(x)) == x.counts.stored)
    && (forall b :: |layout.bank(b)| == Store.BANK_WORDS)
  }

  function Words(layout: Layout, banks: seq<Bank>): (r: seq<seq<nat>>)
    ensures |r| == |banks| && forall i :: 0 <= i < |r| ==> r[i] == layout.bank(banks[i])
  {
    seq(|banks|, i requires 0 <= i < |banks| => layout.bank(banks[i]))
  }

  /** Scans a processor and lays the result out for publication under the sequence number the store
      handed out: every publication of the kernel satisfies what the store relies on. */
  method Publish(f: Store.Fields, layout: Layout, info: Info, msr: Msr)
      returns (p: Store.Publication, ghost banks: seq<Bank>)
    requires Reads(f, layout) && info.counts.stored == 0
    ensures Store.Publishable(f, p, info.sequence) && f.epoch(p.info) == info.epoch
    ensures |p.rows| == |banks| && forall i :: 0 <= i < |banks| ==>
      && p.rows[i] == layout.bank(banks[i]) && banks[i].index == i
      && banks[i].epoch == info.epoch && banks[i].sequence == info.sequence
  {
    var out, rows, trace := Collect(info, msr);
    if Qualified(info) { RowsMatchRecord(info, msr, out, rows, trace); }
    hide Scanned;
    p := Store.Publication(layout.info(out), Words(layout, rows));
    banks := rows;
  }
}
