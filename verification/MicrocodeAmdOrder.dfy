/** The verdict on an AMD file in terms of its sections, and how it depends on their order. */
module MicrocodeAmdOrder {
  import opened Common
  import opened MicrocodeSelect
  import opened MicrocodeAmd
  import opened MicrocodeOrder

  // ----- the matching patches of a file are its fitting sections

  function SectionItems(ps: seq<seq<Byte>>, equivalent: Option<nat>, signature: nat): seq<Item>
    requires AllSections(ps)
  {
    if ps == [] then []
    else
      var last := ps[|ps| - 1];
      SectionItems(ps[..|ps| - 1], equivalent, signature)
      + if Fits(last, equivalent, signature) then [Item(Revision(last), last)] else []
  }

  /** The fitting sections of all containers, in order. */
  function Matching(cs: seq<Container>, signature: nat): seq<Item>
    requires AllContainers(cs, signature)
  {
    if cs == [] then []
    else
      var last := cs[|cs| - 1];
      Matching(cs[..|cs| - 1], signature)
      + SectionItems(last.patches, Equivalent(last.table, signature), signature)
  }

  lemma {:induction false} SectionContents(
    ps: seq<seq<Byte>>, file: seq<Byte>, at: nat, equivalent: Option<nat>, signature: nat)
    requires AllSections(ps) && Holds(file, at, EncodeSections(ps))
    ensures AllInFile(SectionPatches(ps, at, equivalent, signature), file)
    ensures ItemsOf(SectionPatches(ps, at, equivalent, signature), file) == SectionItems(ps, equivalent, signature)
    decreases |ps|
  {
    hide Fits, SectionOk, Le32, ItemsOf, Holds, Revision;
    if ps == [] {
      NoItems(file);
    } else {
      var init, last := ps[..|ps| - 1], ps[|ps| - 1];
      var start := at + |EncodeSections(init)|;
      HoldsParts(file, at, EncodeSections(init), EncodeSection(last));
      SectionContents(init, file, at, equivalent, signature);
      SectionWidth(last);
      if Fits(last, equivalent, signature) {
        HoldsParts(file, start, Le32(1) + Le32(|last|), last);
        var p := Patch(start + 8, |last|, Revision(last));
        OneItem(p, file, last);
        ItemsAppend(SectionPatches(init, at, equivalent, signature), [p], file);
      }
    }
  }

  lemma {:induction false} FileContents(cs: seq<Container>, signature: nat, file: seq<Byte>)
    requires AllContainers(cs, signature) && Holds(file, 0, Encode(cs, signature))
    ensures AllInFile(Patches(cs, signature), file) && ItemsOf(Patches(cs, signature), file) == Matching(cs, signature)
    decreases |cs|
  {
    hide TableOk, AllSections, SectionPatches, EncodeSections, Le32, ItemsOf, Holds, SectionItems;
    if cs == [] {
      NoItems(file);
    } else {
      var init, last := cs[..|cs| - 1], cs[|cs| - 1];
      var start := |Encode(init, signature)|;
      TableWidth(last.table, signature);
      HoldsParts(file, 0, Encode(init, signature), EncodeContainer(last));
      FileContents(init, signature, file);
      HoldsParts(file, start, Le32(MAGIC) + Le32(0) + Le32(|last.table|) + last.table, EncodeSections(last.patches));
      var equivalent := Equivalent(last.table, signature);
      SectionContents(last.patches, file, start + 12 + |last.table|, equivalent, signature);
      ItemsAppend(Patches(init, signature),
                  SectionPatches(last.patches, start + 12 + |last.table|, equivalent, signature), file);
    }
  }

  // ----- the verdict on a file

  /** Containers that make a file the parser may read to its end. */
  predicate Readable(cs: seq<Container>, signature: nat) {
    AllContainers(cs, signature) && 0 < |Encode(cs, signature)| <= MAX_FILE && SectionCount(cs) <= MAX_SECTIONS
  }

  /** The answer to a file is the verdict on its matching sections. */
  lemma AnswerIsVerdict(cs: seq<Container>, signature: nat, r: Result<Option<Patch>>)
    requires Readable(cs, signature) && Answers(Encode(cs, signature), signature, r)
    ensures var file := Encode(cs, signature);
      && AllInFile(Patches(cs, signature), file) && ItemsOf(Patches(cs, signature), file) == Matching(cs, signature)
      && (r.Ok? <==> SelectAll(Patches(cs, signature), file).Ok?)
      && (r.Ok? ==> r == SelectAll(Patches(cs, signature), file))
  {
    hide ParseContainers, Patches, SelectAll, Encode, ContainerOk, SectionCount, Matching, ItemsOf;
    EncodedParses(cs, signature);
    FileContents(cs, signature, Encode(cs, signature));
  }

  /** Two files with the same matching sections, in any order and containers, get the same verdict
      when the sections are settled. */
  lemma FilesAgree(
    cs: seq<Container>, ds: seq<Container>, signature: nat, r: Result<Option<Patch>>, q: Result<Option<Patch>>)
    requires Readable(cs, signature) && Answers(Encode(cs, signature), signature, r)
    requires Readable(ds, signature) && Answers(Encode(ds, signature), signature, q)
    requires multiset(Matching(cs, signature)) == multiset(Matching(ds, signature)) && Settled(Matching(cs, signature))
    ensures r.Ok? && r.value.Some? ==> InFile(r.value.value, Encode(cs, signature))
    ensures q.Ok? && q.value.Some? ==> InFile(q.value.value, Encode(ds, signature))
    ensures VerdictOf(r, Encode(cs, signature)) == VerdictOf(q, Encode(ds, signature))
  {
    hide Patches, SelectAll, Encode, ContainerOk, SectionCount, Matching, ItemsOf, Answers, Settled, Content;
    AnswerIsVerdict(cs, signature, r);
    AnswerIsVerdict(ds, signature, q);
    SettledSame(Patches(cs, signature), Encode(cs, signature), Patches(ds, signature), Encode(ds, signature));
  }

  // ----- the order matters

  lemma ThreeItems(a: seq<Byte>, b: seq<Byte>, c: seq<Byte>, equivalent: Option<nat>, signature: nat)
    requires SectionOk(a) && SectionOk(b) && SectionOk(c)
    requires Fits(a, equivalent, signature) && Fits(b, equivalent, signature) && Fits(c, equivalent, signature)
    ensures SectionItems([a, b, c], equivalent, signature) ==
      [Item(Revision(a), a), Item(Revision(b), b), Item(Revision(c), c)]
  {
    hide Fits, SectionOk, Revision;
    assert [a, b, c][..2] == [a, b] && [a, b][..1] == [a] && [a][..0] == [];
    SectionWidth(a);
    SectionWidth(b);
    SectionWidth(c);
    assert SectionItems([], equivalent, signature) == [];
    assert SectionItems([a], equivalent, signature) == [Item(Revision(a), a)];
    assert SectionItems([a, b], equivalent, signature) == [Item(Revision(a), a), Item(Revision(b), b)];
  }

  /** Three fitting sections in one container make a readable file. */
  lemma ThreeReadable(table: seq<Byte>, a: seq<Byte>, b: seq<Byte>, c: seq<Byte>, signature: nat)
    requires TableOk(table, signature) && SectionOk(a) && SectionOk(b) && SectionOk(c)
    requires var e := Equivalent(table, signature);
      Fits(a, e, signature) && Fits(b, e, signature) && Fits(c, e, signature)
    ensures var cs := [Container(table, [a, b, c])];
      && Readable(cs, signature)
      && Matching(cs, signature) == [Item(Revision(a), a), Item(Revision(b), b), Item(Revision(c), c)]
  {
    hide TableOk, SectionOk, Fits, Le32, Revision, SectionItems, Equivalent;
    var ps, e := [a, b, c], Equivalent(table, signature);
    var only := Container(table, ps);
    var cs := [only];
    assert AllSections(ps) && ContainerOk(only, signature);
    assert cs[..0] == [] && cs[0] == only;
    ThreeItems(a, b, c, e, signature);
    ThreeLength(a, b, c);
    TableWidth(table, signature);
    OneMatching(only, signature);
    OneEncoded(only, signature);
  }

  lemma OneMatching(c: Container, signature: nat)
    requires ContainerOk(c, signature)
    ensures AllContainers([c], signature) && SectionCount([c]) == |c.patches|
    ensures Matching([c], signature) == SectionItems(c.patches, Equivalent(c.table, signature), signature)
  {
    hide SectionItems, Equivalent, ContainerOk;
    var cs := [c];
    assert cs[..|cs| - 1] == [] && cs[|cs| - 1] == c;
    assert Matching([], signature) == [] && SectionCount([]) == 0;
    assert ContainerOk(c, signature);
  }

  lemma OneEncoded(c: Container, signature: nat)
    requires ContainerOk(c, signature) && AllContainers([c], signature)
    ensures |Encode([c], signature)| == 12 + |c.table| + |EncodeSections(c.patches)|
  {
    hide TableOk, EncodeSections, AllSections, Le32;
    var cs := [c];
    assert cs[..|cs| - 1] == [] && cs[|cs| - 1] == c;
    assert Encode([], signature) == [];
  }

  lemma ThreeLength(a: seq<Byte>, b: seq<Byte>, c: seq<Byte>)
    requires AllSections([a, b, c])
    ensures |EncodeSections([a, b, c])| <= 3 * 32776
  {
    hide SectionOk, Le32;
    assert [a, b, c][..2] == [a, b] && [a, b][..1] == [a] && [a][..0] == [];
    assert SectionOk([a, b, c][0]) && SectionOk([a, b, c][1]) && SectionOk([a, b, c][2]);
    SectionWidth(a);
    SectionWidth(b);
    SectionWidth(c);
    assert |EncodeSections([])| == 0;
    assert |EncodeSections([a])| == 8 + |a|;
    assert |EncodeSections([a, b])| == 16 + |a| + |b|;
  }

  /** A newer section after two different ones of one revision comes too late: the file is refused.
      Before them it is chosen, and the file is accepted. */
  lemma OrderMatters(table: seq<Byte>, a: seq<Byte>, b: seq<Byte>, c: seq<Byte>, signature: nat,
                     r: Result<Option<Patch>>, q: Result<Option<Patch>>)
    requires TableOk(table, signature) && SectionOk(a) && SectionOk(b) && SectionOk(c)
    requires var e := Equivalent(table, signature);
      Fits(a, e, signature) && Fits(b, e, signature) && Fits(c, e, signature)
    requires a != b && Revision(a) == Revision(b) < Revision(c)
    ensures var late, early := [Container(table, [a, b, c])], [Container(table, [c, a, b])];
      && AllContainers(late, signature) && AllContainers(early, signature)
      && (Answers(Encode(late, signature), signature, r) ==> r.Err?)
      && (Answers(Encode(early, signature), signature, q) ==>
            && q.Ok? && q.value.Some? && InFile(q.value.value, Encode(early, signature))
            && Content(q.value.value, Encode(early, signature)) == c)
  {
    hide TableOk, SectionOk, Fits, Revision, Answers, Encode, Patches, SelectAll, Matching, ItemsOf, Equivalent;
    ThreeReadable(table, a, b, c, signature);
    ThreeReadable(table, c, a, b, signature);
    var late, early := [Container(table, [a, b, c])], [Container(table, [c, a, b])];
    if Answers(Encode(late, signature), signature, r) {
      AnswerIsVerdict(late, signature, r);
      VerdictFails(Patches(late, signature), Encode(late, signature));
      assert ItemClash(Matching(late, signature), 0, 1);
    }
    if Answers(Encode(early, signature), signature, q) {
      AnswerIsVerdict(early, signature, q);
      var ps, file := Patches(early, signature), Encode(early, signature);
      VerdictFails(ps, file);
      EarlySettles(Matching(early, signature));
      VerdictTops(ps, file);
      TopsAgree(Matching(early, signature), Verdict(ps, file).value.value, Matching(early, signature),
          Matching(early, signature)[0]);
    }
  }

  lemma EarlySettles(items: seq<Item>)
    requires |items| == 3 && items[0].revision > items[1].revision && items[0].revision > items[2].revision
    ensures Top(items, items[0]) && forall i: nat, j: nat :: !ItemClash(items, i, j)
  {
  }

  // ----- one such pair of files

  const SIGNATURE: nat := 0x0010_0f22
  const EQUIVALENT: nat := 0x1022

  /** One row that names the processor, and the zero row. */
  function SampleTable(): seq<Byte> {
    seq(32, i => if i == 0 || i == 12 then 0x22 else if i == 1 then 0x0f else if i == 2 || i == 13 then 0x10 else 0)
  }

  function SamplePatch(revision: Byte, tag: Byte): (r: seq<Byte>)
    ensures |r| == 64
  {
    seq(64, i => if i == 4 then revision else if i == 24 then 0x22 else if i == 25 then 0x10 else if i == 63 then tag
        else 0)
  }

  lemma OneRow(table: seq<Byte>, signature: nat)
    requires |table| == 32 && Zeros(table[16..]) && RowOk(table, 0, signature) && U32(table, 0) == signature
    ensures TableOk(table, signature) && Equivalent(table, signature) == Some(U16(table, 12))
  {
    hide U32, U16, RowOk;
    assert Rows(table) == 1;
    assert ScanTable(table, signature, 0) == Ok(None);
  }

  lemma SampleWords()
    ensures var t := SampleTable();
      && |t| == 32 && Zeros(t[16..])
      && U32(t, 0) == SIGNATURE && U32(t, 4) == 0 && U32(t, 8) == 0 && U16(t, 12) == EQUIVALENT && U16(t, 14) == 0
  {
  }

  lemma SampleTableOk()
    ensures TableOk(SampleTable(), SIGNATURE) && Equivalent(SampleTable(), SIGNATURE) == Some(EQUIVALENT)
  {
    hide ScanTable, TableOk, Equivalent, SampleTable, U32, U16, Zeros;
    SampleWords();
    OneRow(SampleTable(), SIGNATURE);
  }

  lemma SamplePatchOk(revision: Byte, tag: Byte)
    requires revision > 0
    ensures SectionOk(SamplePatch(revision, tag)) && Revision(SamplePatch(revision, tag)) == revision
    ensures Fits(SamplePatch(revision, tag), Some(EQUIVALENT), SIGNATURE)
  {
    var p := SamplePatch(revision, tag);
    assert U32(p, 4) == revision && U32(p, 16) == 0 && U32(p, 20) == 0 && U16(p, 24) == EQUIVALENT;
  }

  /** Files of the family 10h with revisions 5, 5 and 6. */
  lemma OrderMattersHere(r: Result<Option<Patch>>, q: Result<Option<Patch>>)
    ensures var table, a, b, c := SampleTable(), SamplePatch(5, 1), SamplePatch(5, 2), SamplePatch(6, 0);
      var late, early := [Container(table, [a, b, c])], [Container(table, [c, a, b])];
      && AllContainers(late, SIGNATURE) && AllContainers(early, SIGNATURE)
      && (Answers(Encode(late, SIGNATURE), SIGNATURE, r) ==> r.Err?)
      && (Answers(Encode(early, SIGNATURE), SIGNATURE, q) ==>
            && q.Ok? && q.value.Some? && InFile(q.value.value, Encode(early, SIGNATURE))
            && Content(q.value.value, Encode(early, SIGNATURE)) == c)
  {
    hide TableOk, SectionOk, Fits, Revision, Answers, Encode, SampleTable, Equivalent;
    var table, a, b, c := SampleTable(), SamplePatch(5, 1), SamplePatch(5, 2), SamplePatch(6, 0);
    SampleTableOk();
    SamplePatchOk(5, 1);
    SamplePatchOk(5, 2);
    SamplePatchOk(6, 0);
    assert a[63] != b[63];
    OrderMatters(table, a, b, c, SIGNATURE, r, q);
  }
}
