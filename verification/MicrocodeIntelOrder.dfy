/** The verdict on an Intel file in terms of its records, and when their order does not matter. */
module MicrocodeIntelOrder {
  import opened Common
  import opened MicrocodeSelect
  import opened MicrocodeIntel
  import opened MicrocodeOrder

  /** The data of a record, behind its header. */
  function Data(rec: seq<Byte>): seq<Byte>
    requires WellFormed(rec)
  {
    rec[HEADER..HEADER + DataSize(rec)]
  }

  /** The matching records of a tiling, in order. */
  function Matching(recs: seq<seq<Byte>>, signature: nat, platform: nat): seq<Item>
    requires AllWellFormed(recs) && platform > 0
  {
    if recs == [] then []
    else
      var last := recs[|recs| - 1];
      Matching(recs[..|recs| - 1], signature, platform)
      + if Matches(last, signature, platform) then [Item(Revision(last), Data(last))] else []
  }

  lemma DataHeld(rec: seq<Byte>, file: seq<Byte>, at: nat)
    requires WellFormed(rec) && Holds(file, at, rec)
    ensures |rec| >= HEADER && |Data(rec)| == DataSize(rec) && Holds(file, at + HEADER, Data(rec))
  {
    hide U32, Sum, ExtendedOk, Zeros;
    var data, tail := Data(rec), rec[HEADER + DataSize(rec)..];
    assert rec == rec[..HEADER] + (data + tail);
    HoldsParts(file, at, rec[..HEADER], data + tail);
    HoldsParts(file, at + HEADER, data, tail);
  }

  /** The matching patches of a tiled file are the data of its matching records. */
  lemma {:induction false} FileContents(recs: seq<seq<Byte>>, signature: nat, platform: nat, file: seq<Byte>)
    requires AllWellFormed(recs) && platform > 0 && Holds(file, 0, Flatten(recs))
    ensures AllInFile(Patches(recs, signature, platform), file)
    ensures ItemsOf(Patches(recs, signature, platform), file) == Matching(recs, signature, platform)
    decreases |recs|
  {
    hide WellFormed, Matches, ItemsOf, Holds, Revision, DataSize, Data;
    if recs == [] {
      NoItems(file);
    } else {
      var init, last := recs[..|recs| - 1], recs[|recs| - 1];
      var start := |Flatten(init)|;
      HoldsParts(file, 0, Flatten(init), last);
      FileContents(init, signature, platform, file);
      if Matches(last, signature, platform) {
        DataHeld(last, file, start);
        var p := Patch(start + HEADER, DataSize(last), Revision(last));
        OneItem(p, file, Data(last));
        ItemsAppend(Patches(init, signature, platform), [p], file);
      }
    }
  }

  /** Records that make a file the parser may read to its end. */
  predicate Readable(recs: seq<seq<Byte>>) {
    AllWellFormed(recs) && 0 < |Flatten(recs)| <= MAX_FILE && |recs| <= MAX_RECORDS
  }

  lemma Holding(file: seq<Byte>)
    ensures Holds(file, 0, file)
  {
  }

  /** The answer to a file is the verdict on its matching records. */
  lemma AnswerIsVerdict(recs: seq<seq<Byte>>, signature: nat, platform: nat, r: Result<Option<Patch>>)
    requires Readable(recs) && OneHot(platform) && Answers(Flatten(recs), signature, platform, r)
    ensures var file, ps := Flatten(recs), Patches(recs, signature, platform);
      && AllInFile(ps, file) && ItemsOf(ps, file) == Matching(recs, signature, platform)
      && (r.Ok? <==> SelectAll(ps, file).Ok?) && (r.Ok? ==> r == SelectAll(ps, file))
  {
    hide WellFormed, Matches, ItemsOf, Holds, Cut, Flatten, Patches, SelectAll, Matching;
    TilingIsCut(Flatten(recs), recs);
    Holding(Flatten(recs));
    FileContents(recs, signature, platform, Flatten(recs));
  }

  /** Two files whose matching records have the same revisions and data, in any order, get the same
      verdict when those are settled. */
  lemma FilesAgree(recs: seq<seq<Byte>>, others: seq<seq<Byte>>, signature: nat, platform: nat,
                   r: Result<Option<Patch>>, q: Result<Option<Patch>>)
    requires platform > 0
    requires Readable(recs) && Answers(Flatten(recs), signature, platform, r)
    requires Readable(others) && Answers(Flatten(others), signature, platform, q)
    requires multiset(Matching(recs, signature, platform)) == multiset(Matching(others, signature, platform))
    requires Settled(Matching(recs, signature, platform))
    ensures r.Ok? && r.value.Some? ==> InFile(r.value.value, Flatten(recs))
    ensures q.Ok? && q.value.Some? ==> InFile(q.value.value, Flatten(others))
    ensures VerdictOf(r, Flatten(recs)) == VerdictOf(q, Flatten(others))
  {
    if OneHot(platform) {
      hide Patches, SelectAll, Flatten, WellFormed, Matching, ItemsOf, Answers, Settled, Content;
      AnswerIsVerdict(recs, signature, platform, r);
      AnswerIsVerdict(others, signature, platform, q);
      SettledSame(Patches(recs, signature, platform), Flatten(recs),
                  Patches(others, signature, platform), Flatten(others));
    }
  }
}
