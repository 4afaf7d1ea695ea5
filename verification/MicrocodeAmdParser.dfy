/** The AMD parser as the kernel runs it: one pass over the file, table by table, section by section. */
module MicrocodeAmdParser {
  import opened Common
  import opened MicrocodeSelect
  import opened MicrocodeAmd

  function Join(cs: seq<Container>, rest: Option<seq<Container>>): Option<seq<Container>> {
    if rest.None? then None else Some(cs + rest.value)
  }

  function JoinSections(ps: seq<seq<Byte>>, rest: Option<(seq<seq<Byte>>, seq<Byte>)>)
    : Option<(seq<seq<Byte>>, seq<Byte>)>
  {
    if rest.None? then None else Some((ps + rest.value.0, rest.value.1))
  }

  /** Between two containers: `cs` end at `at`. */
  ghost predicate Progress(file: seq<Byte>, signature: nat, cs: seq<Container>, at: nat, best: Option<Patch>) {
    && at <= |file| && AllContainers(cs, signature) && Encode(cs, signature) == file[..at]
    && ParseContainers(file, signature) == Join(cs, ParseContainers(file[at..], signature))
    && AllInFile(Patches(cs, signature), file) && SelectAll(Patches(cs, signature), file) == Ok(best)
  }

  /** The table of the container that starts at `con`, and where its sections start. */
  predicate Opened(file: seq<Byte>, signature: nat, con: nat, table: seq<Byte>) {
    && con < |file| && TableFront(file[con..], signature)
    && table == file[con..][12..12 + U32(file[con..], 8)] && TableOk(table, signature) && con + 12 + |table| <= |file|
  }

  /** The matching patches so far, within a container. */
  function Found(cs: seq<Container>, signature: nat, con: nat, table: seq<Byte>, ps: seq<seq<Byte>>): seq<Patch>
    requires AllContainers(cs, signature) && TableOk(table, signature) && AllSections(ps)
  {
    Patches(cs, signature) + SectionPatches(ps, con + 12 + |table|, Equivalent(table, signature), signature)
  }

  /** Within a container: `ps` are its sections up to `at`. */
  ghost predicate Cutting(file: seq<Byte>, signature: nat, cs: seq<Container>, con: nat, table: seq<Byte>,
      ps: seq<seq<Byte>>, at: nat) {
    && AllContainers(cs, signature) && con <= |file| && Encode(cs, signature) == file[..con]
    && ParseContainers(file, signature) == Join(cs, ParseContainers(file[con..], signature))
    && Opened(file, signature, con, table) && AllSections(ps)
    && con + 12 + |table| <= at <= |file| && EncodeSections(ps) == file[con + 12 + |table|..at]
    && ParseSections(file[con + 12 + |table|..]) == JoinSections(ps, ParseSections(file[at..]))
    && AllInFile(Found(cs, signature, con, table, ps), file)
  }

  lemma BadRequest(file: seq<Byte>, signature: nat, e: Error)
    requires file == [] || |file| > MAX_FILE
    ensures Answers(file, signature, Err(e))
  {
  }

  lemma Start(file: seq<Byte>, signature: nat)
    ensures Progress(file, signature, [], 0, None)
  {
    hide ParseContainers;
    assert file[0..] == file && file[..0] == [];
    if ParseContainers(file, signature).Some? {
      assert [] + ParseContainers(file, signature).value == ParseContainers(file, signature).value;
    }
  }

  lemma NoParse(file: seq<Byte>, signature: nat, e: Error)
    requires ParseContainers(file, signature).None?
    ensures Answers(file, signature, Err(e))
  {
  }

  lemma ParseTable(b: seq<Byte>, signature: nat)
    ensures b != [] && !TableFront(b, signature) ==> ParseContainers(b, signature).None?
    ensures b != [] && TableFront(b, signature) ==>
      var end := 12 + U32(b, 8);
      var s := ParseSections(b[end..]);
      if s.None? || s.value.0 == [] then ParseContainers(b, signature).None?
      else ParseContainers(b, signature) == Join([Container(b[12..end], s.value.0)],
        ParseContainers(s.value.1, signature))
  {
  }

  lemma BadTable(file: seq<Byte>, signature: nat, cs: seq<Container>, at: nat, best: Option<Patch>, e: Error)
    requires Progress(file, signature, cs, at, best) && at < |file| && !TableFront(file[at..], signature)
    ensures Answers(file, signature, Err(e))
  {
    hide ParseContainers, TableFront, Answers, Patches, SelectAll, Encode;
    ParseTable(file[at..], signature);
    NoParse(file, signature, e);
  }

  lemma NoSections(at: nat, equivalent: Option<nat>, signature: nat)
    ensures EncodeSections([]) == [] && SectionPatches([], at, equivalent, signature) == []
  {
  }

  lemma Opens(file: seq<Byte>, signature: nat, con: nat, table: seq<Byte>)
    requires con < |file| && TableFront(file[con..], signature)
    requires table == file[con..][12..12 + U32(file[con..], 8)]
    ensures Opened(file, signature, con, table) && TableOk(table, signature) && con + 12 + |table| <= |file|
  {
    hide TableOk, U32;
  }

  lemma FoundNothing(cs: seq<Container>, signature: nat, con: nat, table: seq<Byte>)
    requires AllContainers(cs, signature) && TableOk(table, signature)
    ensures Found(cs, signature, con, table, []) == Patches(cs, signature)
  {
    hide TableOk, Patches, SectionPatches, Equivalent;
    NoSections(con + 12 + |table|, Equivalent(table, signature), signature);
    assert Patches(cs, signature) + [] == Patches(cs, signature);
  }

  lemma JoinNothing(rest: Option<(seq<seq<Byte>>, seq<Byte>)>)
    ensures JoinSections([], rest) == rest
  {
    if rest.Some? { assert [] + rest.value.0 == rest.value.0; }
  }

  /** A table was read. */
  lemma Open(file: seq<Byte>, signature: nat, cs: seq<Container>, con: nat, best: Option<Patch>, table: seq<Byte>)
    requires Progress(file, signature, cs, con, best) && con < |file| && TableFront(file[con..], signature)
    requires table == file[con..][12..12 + U32(file[con..], 8)]
    ensures Cutting(file, signature, cs, con, table, [], con + 12 + |table|)
    ensures SelectAll(Found(cs, signature, con, table, []), file) == Ok(best)
  {
    hide *;
    Opens(file, signature, con, table);
    Underway(file, signature, cs, con, best);
    FoundNothing(cs, signature, con, table);
    StartCutting(file, signature, cs, con, table);
  }

  lemma Underway(file: seq<Byte>, signature: nat, cs: seq<Container>, at: nat, best: Option<Patch>)
    requires Progress(file, signature, cs, at, best)
    ensures at <= |file| && AllContainers(cs, signature) && Encode(cs, signature) == file[..at]
    ensures ParseContainers(file, signature) == Join(cs, ParseContainers(file[at..], signature))
    ensures AllInFile(Patches(cs, signature), file) && SelectAll(Patches(cs, signature), file) == Ok(best)
  {
    hide ParseContainers, Patches, SelectAll, Encode, ContainerOk;
  }

  lemma StartCutting(file: seq<Byte>, signature: nat, cs: seq<Container>, con: nat, table: seq<Byte>)
    requires con <= |file| && AllContainers(cs, signature) && Encode(cs, signature) == file[..con]
    requires ParseContainers(file, signature) == Join(cs, ParseContainers(file[con..], signature))
    requires Opened(file, signature, con, table) && TableOk(table, signature) && con + 12 + |table| <= |file|
    requires AllInFile(Patches(cs, signature), file)
    requires Found(cs, signature, con, table, []) == Patches(cs, signature)
    ensures Cutting(file, signature, cs, con, table, [], con + 12 + |table|)
  {
    hide ParseContainers, ParseSections, Patches, Encode, EncodeSections, TableOk, Opened, Found, JoinSections,
      ContainerOk, Join, SectionPatches;
    var at := con + 12 + |table|;
    NoSections(at, None, signature);
    assert file[at..at] == [];
    JoinNothing(ParseSections(file[at..]));
  }

  lemma ParseSectionFront(b: seq<Byte>)
    ensures AtBoundary(b) ==> ParseSections(b) == Some(([], b))
    ensures !AtBoundary(b) && !SectionFront(b) ==> ParseSections(b).None?
    ensures !AtBoundary(b) && SectionFront(b) ==>
      var end := 8 + U32(b, 4);
      ParseSections(b) == JoinSections([b[8..end]], ParseSections(b[end..]))
  {
  }

  /** Without its sections the container is not parsed. */
  lemma SectionsFail(file: seq<Byte>, signature: nat, cs: seq<Container>, con: nat, table: seq<Byte>,
      ps: seq<seq<Byte>>, at: nat, e: Error)
    requires Cutting(file, signature, cs, con, table, ps, at)
    requires ParseSections(file[at..]).None? || (ps == [] && AtBoundary(file[at..]))
    ensures Answers(file, signature, Err(e))
  {
    hide ParseContainers, ParseSections, Answers, Encode, EncodeSections, TableOk, U32, Found;
    ParseTable(file[con..], signature);
    ParseSectionFront(file[at..]);
    assert file[con..][12 + U32(file[con..], 8)..] == file[con + 12 + |table|..];
    NoParse(file, signature, e);
  }

  lemma SectionsJoin(a: seq<seq<Byte>>, b: seq<seq<Byte>>, rest: Option<(seq<seq<Byte>>, seq<Byte>)>)
    ensures JoinSections(a, JoinSections(b, rest)) == JoinSections(a + b, rest)
  {
    if rest.Some? { assert a + (b + rest.value.0) == (a + b) + rest.value.0; }
  }

  lemma SectionsLast(ps: seq<seq<Byte>>, p: seq<Byte>, at: nat, equivalent: Option<nat>, signature: nat)
    requires AllSections(ps) && SectionOk(p)
    ensures AllSections(ps + [p]) && |p| >= 64 && EncodeSections(ps + [p]) == EncodeSections(ps) + EncodeSection(p)
    ensures SectionPatches(ps + [p], at, equivalent, signature) == SectionPatches(ps, at, equivalent, signature)
      + (if Fits(p, equivalent, signature) then [Patch(at + |EncodeSections(ps)| + 8, |p|, Revision(p))] else [])
  {
    hide SectionOk, Fits;
    SectionWidth(p);
    assert (ps + [p])[..|ps|] == ps && (ps + [p])[|ps|] == p;
  }

  lemma SectionSlices(file: seq<Byte>, start: nat, at: nat, size: nat)
    requires start <= at && at + 8 + size <= |file|
    ensures file[start..at] + file[at..][..8 + size] == file[start..at + 8 + size]
    ensures file[at..][8 + size..] == file[at + 8 + size..] && file[at..][8..8 + size] == file[at + 8..at + 8 + size]
  {
  }

  /** One more section. */
  lemma NextSection(file: seq<Byte>, signature: nat, cs: seq<Container>, con: nat, table: seq<Byte>, ps: seq<seq<Byte>>,
      at: nat, p: seq<Byte>)
    requires Cutting(file, signature, cs, con, table, ps, at) && !AtBoundary(file[at..]) && SectionFront(file[at..])
    requires p == file[at..][8..8 + U32(file[at..], 4)]
    ensures at + 8 + |p| <= |file| && |p| >= 64
    ensures Cutting(file, signature, cs, con, table, ps + [p], at + 8 + |p|)
    ensures Found(cs, signature, con, table, ps + [p]) == Found(cs, signature, con, table, ps)
      + (if Fits(p, Equivalent(table, signature), signature) then [Patch(at + 8, |p|, Revision(p))] else [])
  {
    hide ParseContainers, ParseSections, Encode, EncodeSections, TableOk, U32, SectionOk, EncodeSection, Fits, Patches,
      SectionPatches;
    var start, equivalent := con + 12 + |table|, Equivalent(table, signature);
    SectionFrontEncodes(file[at..]);
    SectionWidth(p);
    SectionSlices(file, start, at, |p|);
    ParseSectionFront(file[at..]);
    SectionsJoin(ps, [p], ParseSections(file[at + 8 + |p|..]));
    SectionsLast(ps, p, start, equivalent, signature);
    var more := if Fits(p, equivalent, signature) then [Patch(at + 8, |p|, Revision(p))] else [];
    assert |EncodeSections(ps)| == at - start;
    assert Found(cs, signature, con, table, ps + [p]) == Found(cs, signature, con, table, ps) + more;
  }

  // ----- patches of a longer file

  lemma {:induction false} SectionPatchesPrefix(ps: seq<seq<Byte>>, more: seq<seq<Byte>>, at: nat,
      equivalent: Option<nat>, signature: nat)
    returns (extra: seq<Patch>)
    requires AllSections(ps) && AllSections(more)
    ensures AllSections(ps + more)
    ensures SectionPatches(ps + more, at, equivalent, signature) == SectionPatches(ps, at, equivalent, signature)
      + extra
    decreases |more|
  {
    hide SectionOk, Fits, SectionPatches, EncodeSections;
    extra := [];
    if more == [] {
      assert ps + more == ps;
    } else {
      var init, last := more[..|more| - 1], more[|more| - 1];
      assert ps + more == (ps + init) + [last];
      extra := SectionPatchesPrefix(ps, init, at, equivalent, signature);
      SectionsLast(ps + init, last, at, equivalent, signature);
      if Fits(last, equivalent, signature) {
        extra := extra + [Patch(at + |EncodeSections(ps + init)| + 8, |last|, Revision(last))];
      }
    }
  }

  lemma ContainersLast(cs: seq<Container>, c: Container, signature: nat)
    requires AllContainers(cs, signature) && ContainerOk(c, signature)
    ensures AllContainers(cs + [c], signature) && Encode(cs + [c], signature) == Encode(cs, signature)
      + EncodeContainer(c)
    ensures Patches(cs + [c], signature) == Patches(cs, signature)
      + SectionPatches(c.patches, |Encode(cs, signature)| + 12 + |c.table|, Equivalent(c.table, signature), signature)
    ensures SectionCount(cs + [c]) == SectionCount(cs) + |c.patches|
  {
    hide ContainerOk, EncodeContainer, Encode, Patches, SectionPatches, Equivalent, SectionCount, AllSections, TableOk;
    Parts(c, signature);
    var all := cs + [c];
    assert all[..|all| - 1] == cs && all[|all| - 1] == c;
    LastContainer(all, signature);
    LastCount(all);
  }

  lemma LastContainer(cs: seq<Container>, signature: nat)
    requires cs != [] && AllContainers(cs, signature)
    ensures var init, last := cs[..|cs| - 1], cs[|cs| - 1];
      && AllContainers(init, signature)
      && Encode(cs, signature) == Encode(init, signature) + EncodeContainer(last)
      && Patches(cs, signature) == Patches(init, signature)
        + SectionPatches(last.patches, |Encode(init, signature)| + 12 + |last.table|, Equivalent(last.table, signature),
            signature)
  {
    hide EncodeContainer, SectionPatches, Equivalent, TableOk, AllSections;
  }

  lemma LastCount(cs: seq<Container>)
    requires cs != []
    ensures SectionCount(cs) == SectionCount(cs[..|cs| - 1]) + |cs[|cs| - 1].patches|
  {
  }

  lemma {:induction false} PatchesPrefix(cs: seq<Container>, more: seq<Container>, signature: nat)
      returns (extra: seq<Patch>)
    requires AllContainers(cs, signature) && AllContainers(more, signature)
    ensures AllContainers(cs + more, signature) && Patches(cs + more, signature) == Patches(cs, signature) + extra
    ensures SectionCount(cs + more) >= SectionCount(cs)
    decreases |more|
  {
    hide ContainerOk, Patches, SectionPatches, Encode, SectionCount;
    extra := [];
    if more == [] {
      assert cs + more == cs;
    } else {
      var init, last := more[..|more| - 1], more[|more| - 1];
      assert cs + more == (cs + init) + [last];
      extra := PatchesPrefix(cs, init, signature);
      ContainersLast(cs + init, last, signature);
      Parts(last, signature);
      extra := extra + SectionPatches(last.patches, |Encode(cs + init, signature)| + 12 + |last.table|,
          Equivalent(last.table, signature), signature);
    }
  }

  lemma Parts(c: Container, signature: nat)
    requires ContainerOk(c, signature)
    ensures TableOk(c.table, signature) && AllSections(c.patches) && c.patches != []
  {
  }

  /** However the file goes on, its containers begin with `cs` and one that begins with `ps`. */
  lemma WholeFile(file: seq<Byte>, signature: nat, cs: seq<Container>, con: nat, table: seq<Byte>, ps: seq<seq<Byte>>,
      at: nat)
    returns (rest: seq<Container>, more: seq<seq<Byte>>)
    requires Cutting(file, signature, cs, con, table, ps, at) && ParseContainers(file, signature).Some?
    ensures ParseSections(file[at..]).Some? && more == ParseSections(file[at..]).value.0 && AllSections(more) &&
      AllSections(ps + more)
    ensures var c := Container(table, ps + more);
      && ContainerOk(c, signature) && AllContainers(rest, signature)
      && ParseContainers(file, signature).value == (cs + [c]) + rest
  {
    hide ParseContainers, ParseSections, Encode, EncodeSections, TableOk, U32, Found, SectionOk;
    ParseTable(file[con..], signature);
    assert file[con..][12 + U32(file[con..], 8)..] == file[con + 12 + |table|..];
    more := ParseSections(file[at..]).value.0;
    var s := ParseSections(file[con + 12 + |table|..]).value;
    rest := ParseContainers(s.1, signature).value;
    ParsedEncodes(s.1, signature);
    assert cs + ([Container(table, ps + more)] + rest) == (cs + [Container(table, ps + more)]) + rest;
  }

  /** A clash among the patches so far is a clash of the file. */
  lemma Clashing(file: seq<Byte>, signature: nat, cs: seq<Container>, con: nat, table: seq<Byte>, ps: seq<seq<Byte>>,
      at: nat, e: Error)
    requires Cutting(file, signature, cs, con, table, ps, at) &&
      SelectAll(Found(cs, signature, con, table, ps), file).Err?
    ensures Answers(file, signature, Err(e))
  {
    hide ParseContainers, ParseSections, Encode, EncodeSections, TableOk, U32, Patches, SectionPatches, SelectAll,
      SectionOk, SectionCount;
    if ParseContainers(file, signature).Some? {
      var rest, more := WholeFile(file, signature, cs, con, table, ps, at);
      var c, all, start := Container(table, ps + more), ParseContainers(file, signature).value, con + 12 + |table|;
      ParsedEncodes(file, signature);
      PatchesInFile(all, signature, file);
      ContainersLast(cs, c, signature);
      var inner := SectionPatchesPrefix(ps, more, start, Equivalent(table, signature), signature);
      var outer := PatchesPrefix(cs + [c], rest, signature);
      assert Patches(all, signature) == Found(cs, signature, con, table, ps) + (inner + outer);
      FailStays(Found(cs, signature, con, table, ps), inner + outer, file);
    }
  }

  /** More than 128 sections are refused. */
  lemma TooMany(file: seq<Byte>, signature: nat, cs: seq<Container>, con: nat, table: seq<Byte>, ps: seq<seq<Byte>>,
      at: nat, e: Error)
    requires Cutting(file, signature, cs, con, table, ps, at) && !AtBoundary(file[at..])
    requires SectionCount(cs) + |ps| >= MAX_SECTIONS
    ensures Answers(file, signature, Err(e))
  {
    hide ParseContainers, ParseSections, Encode, EncodeSections, TableOk, U32, Patches, SectionPatches, SelectAll,
      SectionOk, SectionCount;
    if ParseContainers(file, signature).Some? {
      var rest, more := WholeFile(file, signature, cs, con, table, ps, at);
      ParseSectionFront(file[at..]);
      var c := Container(table, ps + more);
      ContainersLast(cs, c, signature);
      var outer := PatchesPrefix(cs + [c], rest, signature);
    }
  }

  lemma JoinTwice(a: seq<Container>, b: seq<Container>, rest: Option<seq<Container>>)
    ensures Join(a, Join(b, rest)) == Join(a + b, rest)
  {
    if rest.Some? { assert a + (b + rest.value) == (a + b) + rest.value; }
  }

  /** The container is complete. */
  lemma Close(file: seq<Byte>, signature: nat, cs: seq<Container>, con: nat, table: seq<Byte>, ps: seq<seq<Byte>>,
      at: nat, best: Option<Patch>)
    requires Cutting(file, signature, cs, con, table, ps, at) && AtBoundary(file[at..]) && ps != []
    requires SelectAll(Found(cs, signature, con, table, ps), file) == Ok(best)
    ensures Progress(file, signature, cs + [Container(table, ps)], at, best)
    ensures SectionCount(cs + [Container(table, ps)]) == SectionCount(cs) + |ps|
  {
    hide ParseContainers, ParseSections, Encode, EncodeSections, TableOk, U32, Patches, SectionPatches, SelectAll,
      SectionOk, SectionCount, Le32;
    var c := Container(table, ps);
    ContainersLast(cs, c, signature);
    ParseTable(file[con..], signature);
    assert file[con..][12 + U32(file[con..], 8)..] == file[con + 12 + |table|..];
    ParseSectionFront(file[at..]);
    assert ps + [] == ps;
    JoinTwice(cs, [c], ParseContainers(file[at..], signature));
    TableFrontEncodes(file[con..], signature);
    ContainerSlices(file, con, table, at);
  }

  lemma ContainerSlices(file: seq<Byte>, con: nat, table: seq<Byte>, at: nat)
    requires con + 12 + |table| <= at <= |file|
    ensures file[..con] + (file[con..][..12 + |table|] + file[con + 12 + |table|..at]) == file[..at]
  {
  }

  lemma Complete(file: seq<Byte>, signature: nat, cs: seq<Container>, best: Option<Patch>)
    requires Progress(file, signature, cs, |file|, best) && 0 < |file| <= MAX_FILE && SectionCount(cs) <= MAX_SECTIONS
    ensures Answers(file, signature, Ok(best))
  {
    hide Patches, SelectAll, Encode, SectionCount, TableFront;
    assert file[|file|..] == [] && cs + [] == cs;
  }

  // ----- which error a refused file gets

  /** The first defect of a bad header or equivalence table. */
  function TableError(rest: seq<Byte>, signature: nat): Error {
    if |rest| < 4 then Truncated
    else if U32(rest, 0) != MAGIC then Format
    else if |rest| < 8 then Truncated
    else if U32(rest, 4) != 0 then Format
    else if |rest| < 12 then Truncated
    else
      var len := U32(rest, 8);
      if len < 16 || len % 16 != 0 || len > 4096 then Format
      else if 12 + len > |rest| then Truncated
      else RowsError(rest[12..12 + len], signature)
  }

  function RowsError(table: seq<Byte>, signature: nat): Error {
    if !TableShape(table) then Format
    else match ScanTable(table, signature, Rows(table))
      case Err(e) => e
      case Ok(_) => Format
  }

  /** The first defect of a bad section. */
  function SectionError(rest: seq<Byte>): Error {
    if |rest| < 4 then Truncated
    else if U32(rest, 0) != 1 then Format
    else if |rest| < 8 then Truncated
    else if U32(rest, 4) < 64 || U32(rest, 4) > 32768 then Format
    else if 8 + U32(rest, 4) > |rest| then Truncated
    else Format
  }

  /** The containers before `at` are well formed and do not clash, and the next table is bad. */
  ghost predicate TableDefect(
    file: seq<Byte>, signature: nat, cs: seq<Container>, at: nat, best: Option<Patch>, e: Error)
  {
    && Progress(file, signature, cs, at, best) && SectionCount(cs) <= MAX_SECTIONS
    && at < |file| && !TableFront(file[at..], signature) && e == TableError(file[at..], signature)
  }

  /** The containers and the sections before `at` are well formed and do not clash, and the container
      is empty, or its next section is cut short, is the 129th, is bad, or clashes with them. */
  ghost predicate SectionDefect(file: seq<Byte>, signature: nat, cs: seq<Container>, con: nat, table: seq<Byte>,
                                ps: seq<seq<Byte>>, at: nat, best: Option<Patch>, e: Error)
  {
    && Cutting(file, signature, cs, con, table, ps, at)
    && SelectAll(Found(cs, signature, con, table, ps), file) == Ok(best) && SectionCount(cs) + |ps| <= MAX_SECTIONS
    && if AtBoundary(file[at..]) then ps == [] && e == Format
       else if |file| - at < 4 then e == Truncated
       else if SectionCount(cs) + |ps| == MAX_SECTIONS then e == Format
       else if !SectionFront(file[at..]) then e == SectionError(file[at..])
       else e == Ambiguous && ClashesNext(file, signature, cs, con, table, ps + [file[at..][8..8 + U32(file[at..], 4)]])
  }

  ghost predicate ClashesNext(
    file: seq<Byte>, signature: nat, cs: seq<Container>, con: nat, table: seq<Byte>, ps: seq<seq<Byte>>)
  {
    && AllContainers(cs, signature) && TableOk(table, signature) && AllSections(ps)
    && AllInFile(Found(cs, signature, con, table, ps), file)
    && SelectAll(Found(cs, signature, con, table, ps), file).Err?
  }

  ghost predicate Fails(file: seq<Byte>, signature: nat, e: Error) {
    if file == [] || |file| > MAX_FILE then e == Format
    else
      || (exists cs, at, best :: TableDefect(file, signature, cs, at, best, e))
      || (exists cs, con, table, ps, at, best :: SectionDefect(file, signature, cs, con, table, ps, at, best, e))
  }

  // ----- the parser

  /** The rows of an equivalence table, one after the other. */
  method CheckRows(table: seq<Byte>, signature: nat) returns (r: Result<Option<nat>>)
    requires TableShape(table)
    ensures r == ScanTable(table, signature, Rows(table))
  {
    hide U32, U16;
    var equivalent: Option<nat> := None;
    for k := 0 to Rows(table)
      invariant ScanTable(table, signature, k) == Ok(equivalent)
    {
      var at := 16 * k;
      if !RowOk(table, k, signature) {
        ScanFails(table, signature, k + 1, Rows(table));
        return Err(Format);
      }
      if U32(table, at) == signature {
        var number := U16(table, at + 12);
        if equivalent.Some? && equivalent.value != number {
          ScanFails(table, signature, k + 1, Rows(table));
          return Err(Ambiguous);
        }
        equivalent := Some(number);
      }
    }
    return Ok(equivalent);
  }

  lemma {:induction false} ScanFails(table: seq<Byte>, signature: nat, k: nat, n: nat)
    requires k <= n && 16 * n <= |table| && ScanTable(table, signature, k).Err?
    ensures ScanTable(table, signature, n) == ScanTable(table, signature, k)
  {
    hide RowOk;
    if k < n { ScanFails(table, signature, k, n - 1); }
  }

  /** The header and the equivalence table at the front of the rest. */
  method CheckTable(rest: seq<Byte>, signature: nat) returns (r: Result<Option<nat>>)
    ensures r.Ok? <==> TableFront(rest, signature)
    ensures r.Ok? ==> r.value == Equivalent(rest[12..12 + U32(rest, 8)], signature)
    ensures r.Err? ==> r.error == TableError(rest, signature)
  {
    hide U32, ScanTable;
    if |rest| < 4 { return Err(Truncated); }
    if U32(rest, 0) != MAGIC { return Err(Format); }
    if |rest| < 8 { return Err(Truncated); }
    if U32(rest, 4) != 0 { return Err(Format); }
    if |rest| < 12 { return Err(Truncated); }
    var len := U32(rest, 8);
    if len < 16 || len % 16 != 0 || len > 4096 {
      return Err(Format);
    }
    if 12 + len > |rest| { return Err(Truncated); }
    var table := rest[12..12 + len];
    if !Zeros(table[len - 16..]) { return Err(Format); }
    r := CheckRows(table, signature);
  }

  /** The section at the front of the rest. */
  method CheckSection(rest: seq<Byte>) returns (r: Result<nat>)
    ensures r.Ok? <==> SectionFront(rest)
    ensures r.Err? ==> r.error == SectionError(rest)
    ensures r.Ok? ==> |rest| >= 8 && r.value == U32(rest, 4) && 8 + r.value <= |rest|
  {
    hide U32;
    if |rest| < 4 { return Err(Truncated); }
    if U32(rest, 0) != 1 { return Err(Format); }
    if |rest| < 8 { return Err(Truncated); }
    var size := U32(rest, 4);
    if size < 64 || size > 32768 { NotASection(rest); return Err(Format); }
    if 8 + size > |rest| { return Err(Truncated); }
    var patch := rest[8..8 + size];
    if Revision(patch) == 0 || U32(patch, 16) != 0 || U32(patch, 20) != 0 { return Err(Format); }
    return Ok(size);
  }

  lemma NotASection(rest: seq<Byte>)
    requires |rest| >= 8 && (U32(rest, 4) < 64 || U32(rest, 4) > 32768)
    ensures !SectionFront(rest)
  {
  }

  /** All sections of one container. */
  method TakeSections(file: seq<Byte>, signature: nat, ghost cs: seq<Container>, con: nat, table: seq<Byte>,
                      equivalent: Option<nat>, counted: nat, chosen: Option<Patch>)
    returns (r: Result<Option<Patch>>, at: nat, records: nat, ghost ps: seq<seq<Byte>>)
    requires Cutting(file, signature, cs, con, table, [], con + 12 + |table|)
    requires TableOk(table, signature) && equivalent == Equivalent(table, signature)
    requires SelectAll(Found(cs, signature, con, table, []), file) == Ok(chosen)
    requires counted == SectionCount(cs) <= MAX_SECTIONS && 0 < |file| <= MAX_FILE
    ensures r.Err? ==> Answers(file, signature, Err(r.error)) && Fails(file, signature, r.error)
    ensures r.Ok? ==>
      && con + 12 + |table| <= at <= |file| && Cutting(file, signature, cs, con, table, ps, at) &&
           AtBoundary(file[at..]) && AllSections(ps)
      && AllInFile(Found(cs, signature, con, table, ps), file) &&
           SelectAll(Found(cs, signature, con, table, ps), file) == Ok(r.value)
      && ps != [] && records == counted + |ps| <= MAX_SECTIONS
  {
    hide Cutting, Answers, SelectAll, Found, Fits, TableOk, U32, SectionFront, Select, SectionCount, Encode,
      SectionError, ClashesNext, Fails;
    at, records, ps := con + 12 + |table|, counted, [];
    var best := chosen;
    CuttingFacts(file, signature, cs, con, table, ps, at);
    while at < |file| && !(|file| - at >= 4 && U32(file[at..], 0) == MAGIC)
      invariant con + 12 + |table| <= at <= |file| && Cutting(file, signature, cs, con, table, ps, at) &&
        AllSections(ps)
      invariant AllContainers(cs, signature) && AllInFile(Found(cs, signature, con, table, ps), file)
      invariant SelectAll(Found(cs, signature, con, table, ps), file) == Ok(best)
      invariant records == counted + |ps| <= MAX_SECTIONS
      decreases |file| - at
    {
      if |file| - at < 4 {
        ParseSectionFront(file[at..]);
        TooShort(file[at..]);
        SectionsFail(file, signature, cs, con, table, ps, at, Truncated);
        SectionFails(file, signature, cs, con, table, ps, at, best, Truncated);
        return Err(Truncated), at, records, ps;
      }
      records := records + 1;
      if records > MAX_SECTIONS {
        TooMany(file, signature, cs, con, table, ps, at, Format);
        SectionFails(file, signature, cs, con, table, ps, at, best, Format);
        return Err(Format), at, records, ps;
      }
      var size := CheckSection(file[at..]);
      if size.Err? {
        ParseSectionFront(file[at..]);
        SectionsFail(file, signature, cs, con, table, ps, at, size.error);
        SectionFails(file, signature, cs, con, table, ps, at, best, size.error);
        return Err(size.error), at, records, ps;
      }
      var p := file[at..][8..8 + size.value];
      NextSection(file, signature, cs, con, table, ps, at, p);
      ghost var before, read := Found(cs, signature, con, table, ps), ps;
      ps := ps + [p];
      CuttingFacts(file, signature, cs, con, table, ps, at + 8 + |p|);
      if Fits(p, equivalent, signature) {
        var patch := Patch(at + 8, size.value, Revision(p));
        NextChoice(before, patch, file);
        var next := Select(best, patch, file);
        if next.Err? {
          Clashing(file, signature, cs, con, table, ps, at + 8 + |p|, Ambiguous);
          ClashesNow(file, signature, cs, con, table, ps);
          ClashFails(file, signature, cs, con, table, read, at, best, p);
          return Err(Ambiguous), at, records, ps;
        }
        best := next.value;
      } else {
        assert before + [] == before;
      }
      at := at + 8 + size.value;
    }
    if records == counted {
      SectionsFail(file, signature, cs, con, table, ps, at, Format);
      SectionFails(file, signature, cs, con, table, ps, at, best, Format);
      return Err(Format), at, records, ps;
    }
    return Ok(best), at, records, ps;
  }

  lemma TooShort(b: seq<Byte>)
    requires |b| < 4
    ensures !SectionFront(b) && (b != [] ==> !AtBoundary(b))
  {
  }

  lemma SectionFails(file: seq<Byte>, signature: nat, cs: seq<Container>, con: nat, table: seq<Byte>,
      ps: seq<seq<Byte>>, at: nat, best: Option<Patch>, e: Error)
    requires 0 < |file| <= MAX_FILE && SectionDefect(file, signature, cs, con, table, ps, at, best, e)
    ensures Fails(file, signature, e)
  {
    hide SectionDefect, TableDefect;
  }

  lemma ClashFails(file: seq<Byte>, signature: nat, cs: seq<Container>, con: nat, table: seq<Byte>, ps: seq<seq<Byte>>,
                   at: nat, best: Option<Patch>, p: seq<Byte>)
    requires 0 < |file| <= MAX_FILE && Cutting(file, signature, cs, con, table, ps, at)
    requires !AtBoundary(file[at..]) && |file| - at >= 4 && SectionFront(file[at..])
    requires p == file[at..][8..8 + U32(file[at..], 4)] && ClashesNext(file, signature, cs, con, table, ps + [p])
    requires SelectAll(Found(cs, signature, con, table, ps), file) == Ok(best) && SectionCount(cs) + |ps| < MAX_SECTIONS
    ensures Fails(file, signature, Ambiguous)
  {
    hide Cutting, SelectAll, Found, U32, SectionFront, SectionCount, ClashesNext, Fails;
    SectionFails(file, signature, cs, con, table, ps, at, best, Ambiguous);
  }

  lemma ClashesNow(file: seq<Byte>, signature: nat, cs: seq<Container>, con: nat, table: seq<Byte>, ps: seq<seq<Byte>>)
    requires AllContainers(cs, signature) && TableOk(table, signature) && AllSections(ps)
    requires AllInFile(Found(cs, signature, con, table, ps), file)
    requires SelectAll(Found(cs, signature, con, table, ps), file).Err?
    ensures ClashesNext(file, signature, cs, con, table, ps)
  {
  }

  lemma CuttingFacts(file: seq<Byte>, signature: nat, cs: seq<Container>, con: nat, table: seq<Byte>,
      ps: seq<seq<Byte>>, at: nat)
    requires Cutting(file, signature, cs, con, table, ps, at)
    ensures con + 12 + |table| <= at <= |file| && AllContainers(cs, signature) && TableOk(table, signature) &&
      AllSections(ps)
    ensures AllInFile(Found(cs, signature, con, table, ps), file)
  {
    hide ParseContainers, ParseSections, Encode, EncodeSections, TableOk, Found;
  }

  /** The parser: every container and section is validated before the choice is returned. */
  method Amd(file: seq<Byte>, signature: nat) returns (r: Result<Option<Patch>>)
    ensures Answers(file, signature, r)
    ensures r.Err? ==> Fails(file, signature, r.error)
  {
    hide Answers, Progress, Cutting, TableFront, TableOk, Equivalent, Found, SelectAll, U32, SectionCount, TableError,
      SectionDefect;
    if |file| == 0 || |file| > MAX_FILE {
      BadRequest(file, signature, Format);
      return Err(Format);
    }
    var at, records := 0, 0;
    var best: Option<Patch> := None;
    ghost var cs: seq<Container> := [];
    Start(file, signature);
    NoneCounted();
    while at < |file|
      invariant at <= |file| && Progress(file, signature, cs, at, best) && records == SectionCount(cs) <= MAX_SECTIONS
      decreases |file| - at
    {
      var equivalent := CheckTable(file[at..], signature);
      if equivalent.Err? {
        BadTable(file, signature, cs, at, best, equivalent.error);
        assert TableDefect(file, signature, cs, at, best, equivalent.error);
        return Err(equivalent.error);
      }
      TableFits(file[at..], signature);
      var table := file[at..][12..12 + U32(file[at..], 8)];
      Open(file, signature, cs, at, best, table);
      var con := at;
      ghost var ps;
      r, at, records, ps := TakeSections(file, signature, cs, con, table, equivalent.value, records, best);
      if r.Err? { return; }
      best := r.value;
      Close(file, signature, cs, con, table, ps, at, best);
      cs := cs + [Container(table, ps)];
    }
    Complete(file, signature, cs, best);
    return Ok(best);
  }

  lemma NoneCounted()
    ensures SectionCount([]) == 0
  {
  }

  lemma TableFits(rest: seq<Byte>, signature: nat)
    requires TableFront(rest, signature)
    ensures |rest| >= 12 && 12 + U32(rest, 8) <= |rest| && TableOk(rest[12..12 + U32(rest, 8)], signature)
  {
  }
}
