/** AMD microcode containers: an equivalence table and its patch sections, over and over. */
module MicrocodeAmd {
  import opened Common
  import opened MicrocodeSelect

  const MAGIC: nat := 0x0041_4d44
  const MAX_SECTIONS: nat := 128

  // ----- words as bytes

  function Le32(x: nat): (r: seq<Byte>)
    requires x < WORD
    ensures |r| == 4
  {
    [x % 256, x / 256 % 256, x / 256 / 256 % 256, x / 256 / 256 / 256]
  }

  lemma Parts256(x: nat, low: nat, high: nat)
    requires low < 256 && x == low + 256 * high
    ensures x % 256 == low && x / 256 == high
  {
  }

  /** Four bytes that encode a word read as that word. */
  lemma Le32Reads(b: seq<Byte>, at: nat, x: nat)
    requires at + 4 <= |b| && x < WORD && b[at..at + 4] == Le32(x)
    ensures U32(b, at) == x
  {
    var s := b[at..at + 4];
    var q, r := x / 256, x / 256 / 256;
    assert b[at] == s[0] && b[at + 1] == s[1] && b[at + 2] == s[2] && b[at + 3] == s[3];
    assert x == 256 * q + x % 256 && q == 256 * r + q % 256 && r == 256 * (r / 256) + r % 256;
  }

  /** Every four bytes encode the word they read as. */
  lemma Le32Writes(b: seq<Byte>, at: nat)
    requires at + 4 <= |b|
    ensures Le32(U32(b, at)) == b[at..at + 4]
  {
    var w, x, y, z := b[at] as int, b[at + 1] as int, b[at + 2] as int, b[at + 3] as int;
    Parts256(U32(b, at), w, x + 256 * (y + 256 * z));
    Parts256(x + 256 * (y + 256 * z), x, y + 256 * z);
    Parts256(y + 256 * z, y, z);
  }

  // ----- the equivalence table

  /** Rows of 16 bytes, the last one zero. */
  predicate TableShape(table: seq<Byte>) {
    16 <= |table| <= 4096 && |table| % 16 == 0 && Zeros(table[|table| - 16..])
  }

  predicate RowOk(table: seq<Byte>, k: nat, signature: nat)
    requires 16 * k + 16 <= |table|
  {
    var at := 16 * k;
    && U32(table, at) != 0 && U16(table, at + 14) == 0 && U16(table, at + 12) != 0
    && (U32(table, at) == signature ==> U32(table, at + 4) == 0 && U32(table, at + 8) == 0)
  }

  /** The equivalence number of the signature after n rows; a bad or contradicting row fails. */
  function ScanTable(table: seq<Byte>, signature: nat, n: nat): Result<Option<nat>>
    requires 16 * n <= |table|
  {
    if n == 0 then Ok(None)
    else
      var r := ScanTable(table, signature, n - 1);
      var at := 16 * (n - 1);
      if r.Err? then r
      else if !RowOk(table, n - 1, signature) then Err(Format)
      else if U32(table, at) != signature then r
      else if r.value.Some? && r.value.value != U16(table, at + 12) then Err(Ambiguous)
      else Ok(Some(U16(table, at + 12)))
  }

  function Rows(table: seq<Byte>): nat
    requires TableShape(table)
  {
    (|table| - 16) / 16
  }

  predicate TableOk(table: seq<Byte>, signature: nat) {
    TableShape(table) && ScanTable(table, signature, Rows(table)).Ok?
  }

  function Equivalent(table: seq<Byte>, signature: nat): Option<nat>
    requires TableOk(table, signature)
  {
    ScanTable(table, signature, Rows(table)).value
  }

  predicate RowMatches(table: seq<Byte>, k: nat, signature: nat)
    requires 16 * k + 16 <= |table|
  {
    U32(table, 16 * k) == signature
  }

  function RowNumber(table: seq<Byte>, k: nat): nat
    requires 16 * k + 16 <= |table|
  {
    U16(table, 16 * k + 12)
  }

  /** The first n rows are well formed, and those that name the signature agree. */
  predicate RowsAgree(table: seq<Byte>, signature: nat, n: nat)
    requires 16 * n <= |table|
  {
    && (forall k :: 0 <= k < n ==> RowOk(table, k, signature))
    && (forall j, k | 0 <= j < n && 0 <= k < n ::
          RowMatches(table, j, signature) && RowMatches(table, k, signature) ==>
            RowNumber(table, j) == RowNumber(table, k))
  }

  /** A table passes if and only if its rows are well formed and agree; its equivalence number is
      that of every row that names the signature, and it has none exactly when no row does. */
  lemma {:induction false} TableMeans(table: seq<Byte>, signature: nat, n: nat)
    requires 16 * n <= |table|
    ensures var r := ScanTable(table, signature, n);
      && (r.Ok? <==> RowsAgree(table, signature, n))
      && (r.Ok? ==> (r.value.None? <==> forall k :: 0 <= k < n ==> !RowMatches(table, k, signature)))
      && (r.Ok? ==> forall k :: 0 <= k < n && RowMatches(table, k, signature) ==> r.value == Some(RowNumber(table, k)))
  {
    hide RowOk, U32, U16;
    if n > 0 {
      TableMeans(table, signature, n - 1);
      var before := ScanTable(table, signature, n - 1);
      assert RowMatches(table, n - 1, signature) <==> U32(table, 16 * (n - 1)) == signature;
      if before.Ok? && before.value.Some? {
        var k :| 0 <= k < n - 1 && RowMatches(table, k, signature);
        assert before.value == Some(RowNumber(table, k));
      }
      if RowsAgree(table, signature, n) {
        assert RowsAgree(table, signature, n - 1);
        assert RowOk(table, n - 1, signature);
      }
    }
  }

  // ----- patch sections

  function Revision(patch: seq<Byte>): nat
    requires |patch| >= 64
  {
    U32(patch, 4)
  }

  predicate SectionOk(patch: seq<Byte>) {
    64 <= |patch| <= 32768 && Revision(patch) != 0 && U32(patch, 16) == 0 && U32(patch, 20) == 0
  }

  function SignatureOf(revision: nat): nat {
    revision / 256 % 16 + revision / 4096 % 16 * 16 + 0xf00 + revision / 1048576 % 16 * 65536
        + revision / 16777216 % 256 * 1048576
  }

  function Family(signature: nat): nat {
    signature / 256 % 16 + (if signature / 256 % 16 == 15 then signature / 1048576 % 256 else 0)
  }

  /** From Zen on the patch carries the full signature; before, the table translates it. */
  predicate Fits(patch: seq<Byte>, equivalent: Option<nat>, signature: nat)
    requires |patch| >= 64
  {
    var processor := U16(patch, 24);
    if Family(signature) >= 0x17
    then SignatureOf(Revision(patch)) == signature && 0xf + processor / 4096 == Family(signature)
    else equivalent == Some(processor)
  }

  predicate AllSections(ps: seq<seq<Byte>>) {
    forall i :: 0 <= i < |ps| ==> SectionOk(ps[i])
  }

  function EncodeSection(p: seq<Byte>): seq<Byte>
    requires SectionOk(p)
  {
    Le32(1) + Le32(|p|) + p
  }

  function EncodeSections(ps: seq<seq<Byte>>): seq<Byte>
    requires AllSections(ps)
  {
    if ps == [] then [] else EncodeSections(ps[..|ps| - 1]) + EncodeSection(ps[|ps| - 1])
  }

  /** The section at the front of the rest of a file. */
  predicate SectionFront(b: seq<Byte>) {
    && |b| >= 8 && U32(b, 0) == 1 && 8 + U32(b, 4) <= |b| && SectionOk(b[8..8 + U32(b, 4)])
  }

  /** Sections up to the next container or the end of the file. */
  function ParseSections(b: seq<Byte>): (r: Option<(seq<seq<Byte>>, seq<Byte>)>)
    ensures r.Some? ==> |r.value.1| <= |b| && AllSections(r.value.0)
    decreases |b|
  {
    if b == [] || (|b| >= 4 && U32(b, 0) == MAGIC) then Some(([], b))
    else if !SectionFront(b) then None
    else match ParseSections(b[8 + U32(b, 4)..])
      case None => None
      case Some(r) => Some(([b[8..8 + U32(b, 4)]] + r.0, r.1))
  }

  // ----- containers

  datatype Container = Container(table: seq<Byte>, patches: seq<seq<Byte>>)

  predicate ContainerOk(c: Container, signature: nat) {
    TableOk(c.table, signature) && c.patches != [] && AllSections(c.patches)
  }

  function EncodeContainer(c: Container): seq<Byte>
    requires |c.table| < WORD && AllSections(c.patches)
  {
    Le32(MAGIC) + Le32(0) + Le32(|c.table|) + c.table + EncodeSections(c.patches)
  }

  predicate AllContainers(cs: seq<Container>, signature: nat) {
    forall i :: 0 <= i < |cs| ==> ContainerOk(cs[i], signature)
  }

  function Encode(cs: seq<Container>, signature: nat): seq<Byte>
    requires AllContainers(cs, signature)
  {
    if cs == [] then [] else Encode(cs[..|cs| - 1], signature) + EncodeContainer(cs[|cs| - 1])
  }

  /** The header and table at the front of the rest of a file. */
  predicate TableFront(b: seq<Byte>, signature: nat) {
    && |b| >= 12 && U32(b, 0) == MAGIC && U32(b, 4) == 0 && 12 + U32(b, 8) <= |b|
    && TableOk(b[12..12 + U32(b, 8)], signature)
  }

  function ParseContainers(b: seq<Byte>, signature: nat): Option<seq<Container>>
    decreases |b|
  {
    if b == [] then Some([])
    else if !TableFront(b, signature) then None
    else
      var end := 12 + U32(b, 8);
      match ParseSections(b[end..])
      case None => None
      case Some(s) =>
        if s.0 == [] then None
        else match ParseContainers(s.1, signature)
          case None => None
          case Some(rest) => Some([Container(b[12..end], s.0)] + rest)
  }

  function SectionCount(cs: seq<Container>): nat {
    if cs == [] then 0 else SectionCount(cs[..|cs| - 1]) + |cs[|cs| - 1].patches|
  }

  // ----- a parsed file is exactly what its containers encode to

  lemma {:induction false} SectionsFront(p: seq<Byte>, ps: seq<seq<Byte>>)
    requires SectionOk(p) && AllSections(ps)
    ensures AllSections([p] + ps) && EncodeSections([p] + ps) == EncodeSection(p) + EncodeSections(ps)
    decreases |ps|
  {
    hide SectionOk, EncodeSection;
    var all := [p] + ps;
    if ps == [] {
      assert all[..0] == [] && all[0] == p;
    } else {
      var init, last := ps[..|ps| - 1], ps[|ps| - 1];
      assert all[..|all| - 1] == [p] + init && all[|all| - 1] == last;
      SectionsFront(p, init);
    }
  }

  /** A section at the front is the encoding of its patch. */
  lemma SectionFrontEncodes(b: seq<Byte>)
    requires SectionFront(b)
    ensures var size := U32(b, 4); SectionOk(b[8..8 + size]) && EncodeSection(b[8..8 + size]) == b[..8 + size]
  {
    hide U32, Le32;
    Le32Writes(b, 0);
    Le32Writes(b, 4);
    var size := U32(b, 4);
    assert b[..8 + size] == b[0..4] + b[4..8] + b[8..8 + size];
  }

  lemma ParsedFront(b: seq<Byte>)
    requires ParseSections(b).Some?
    ensures b == [] || (|b| >= 4 && U32(b, 0) == MAGIC) ==> ParseSections(b).value == ([], b)
    ensures !(b == [] || (|b| >= 4 && U32(b, 0) == MAGIC)) ==>
      && SectionFront(b) && ParseSections(b[8 + U32(b, 4)..]).Some?
      && var end := 8 + U32(b, 4);
         var r := ParseSections(b[end..]).value;
         ParseSections(b).value == ([b[8..end]] + r.0, r.1)
  {
    hide SectionFront, U32;
  }

  lemma {:induction false} ParsedSections(b: seq<Byte>)
    requires ParseSections(b).Some?
    ensures var r := ParseSections(b).value;
      b == EncodeSections(r.0) + r.1 && (r.1 == [] || (|r.1| >= 4 && U32(r.1, 0) == MAGIC))
    decreases |b|
  {
    hide SectionOk, U32, EncodeSection, ParseSections, SectionFront, EncodeSections;
    ParsedFront(b);
    if b == [] || (|b| >= 4 && U32(b, 0) == MAGIC) {
      NothingEncoded();
      assert b == [] + b;
    } else {
      SectionFits(b);
      var end := 8 + U32(b, 4);
      SectionFrontEncodes(b);
      ParsedSections(b[end..]);
      var r := ParseSections(b[end..]).value;
      SectionsFront(b[8..end], r.0);
      Regroup(b, end, EncodeSections(r.0), r.1);
    }
  }

  lemma NothingEncoded()
    ensures EncodeSections([]) == []
  {
  }

  lemma SectionFits(b: seq<Byte>)
    requires SectionFront(b)
    ensures |b| >= 8 && 8 + U32(b, 4) <= |b|
  {
  }

  lemma Regroup(b: seq<Byte>, end: nat, x: seq<Byte>, y: seq<Byte>)
    requires end <= |b| && b[end..] == x + y
    ensures b == b[..end] + x + y
  {
  }

  lemma {:induction false} ContainersFront(c: Container, cs: seq<Container>, signature: nat)
    requires ContainerOk(c, signature) && AllContainers(cs, signature)
    ensures AllContainers([c] + cs, signature) && Encode([c] + cs, signature) == EncodeContainer(c)
      + Encode(cs, signature)
    decreases |cs|
  {
    hide ContainerOk, EncodeContainer;
    var all := [c] + cs;
    if cs == [] {
      assert all[..0] == [] && all[0] == c;
    } else {
      var init, last := cs[..|cs| - 1], cs[|cs| - 1];
      assert all[..|all| - 1] == [c] + init && all[|all| - 1] == last;
      ContainersFront(c, init, signature);
    }
  }

  lemma TableFrontEncodes(b: seq<Byte>, signature: nat)
    requires TableFront(b, signature)
    ensures var len := U32(b, 8); Le32(MAGIC) + Le32(0) + Le32(len) + b[12..12 + len] == b[..12 + len]
  {
    hide U32, Le32, TableOk;
    Le32Writes(b, 0);
    Le32Writes(b, 4);
    Le32Writes(b, 8);
    var len := U32(b, 8);
    assert b[..12 + len] == b[0..4] + b[4..8] + b[8..12] + b[12..12 + len];
  }

  /** Soundness of the parse: the bytes are exactly the encoding of well-formed containers. */
  lemma {:induction false} ParsedEncodes(b: seq<Byte>, signature: nat)
    requires ParseContainers(b, signature).Some?
    ensures var cs := ParseContainers(b, signature).value;
      AllContainers(cs, signature) && Encode(cs, signature) == b
    decreases |b|
  {
    hide TableOk, U32, ParseSections, Le32, EncodeSections, AllSections;
    if b != [] {
      var end := 12 + U32(b, 8);
      var s := ParseSections(b[end..]).value;
      ParsedSections(b[end..]);
      ParsedEncodes(s.1, signature);
      TableFrontEncodes(b, signature);
      var c, rest := Container(b[12..end], s.0), ParseContainers(s.1, signature).value;
      assert b == b[..end] + b[end..];
      ContainersFront(c, rest, signature);
    }
  }

  predicate AtBoundary(rest: seq<Byte>) {
    rest == [] || (|rest| >= 4 && U32(rest, 0) == MAGIC)
  }

  lemma SectionWidth(p: seq<Byte>)
    requires SectionOk(p)
    ensures 64 <= |p| <= 32768
  {
  }

  /** An encoded section is found again at the front. */
  lemma EncodedSectionFront(p: seq<Byte>, rest: seq<Byte>)
    requires SectionOk(p)
    ensures var b := EncodeSection(p) + rest;
      && |b| >= 8 && U32(b, 0) == 1 && U32(b, 4) == |p| && b[8..8 + |p|] == p && b[8 + |p|..] == rest && SectionFront(b)
  {
    hide U32, Le32, SectionOk;
    SectionWidth(p);
    var b := EncodeSection(p) + rest;
    assert b[0..4] == Le32(1) && b[4..8] == Le32(|p|);
    Le32Reads(b, 0, 1);
    Le32Reads(b, 4, |p|);
    assert b[8..8 + |p|] == p;
    assert b[8 + |p|..] == rest;
  }

  lemma {:induction false} EncodedSections(ps: seq<seq<Byte>>, rest: seq<Byte>)
    requires AllSections(ps) && AtBoundary(rest)
    ensures ParseSections(EncodeSections(ps) + rest) == Some((ps, rest))
    decreases |ps|
  {
    hide U32, SectionOk, EncodeSection, SectionFront;
    if ps == [] {
      assert EncodeSections(ps) + rest == rest;
    } else {
      var p, more := ps[0], ps[1..];
      assert ps == [p] + more;
      SectionsFront(p, more);
      var tail := EncodeSections(more) + rest;
      assert EncodeSections(ps) + rest == EncodeSection(p) + tail;
      EncodedSectionFront(p, tail);
      EncodedSections(more, rest);
    }
  }

  /** An encoded header and table are found again at the front. */
  lemma EncodedTableFront(table: seq<Byte>, rest: seq<Byte>, signature: nat)
    requires TableOk(table, signature)
    ensures var b := Le32(MAGIC) + Le32(0) + Le32(|table|) + table + rest;
      && |b| >= 12 && U32(b, 8) == |table| && b[12..12 + |table|] == table && b[12 + |table|..] == rest &&
           TableFront(b, signature)
      && U32(b, 0) == MAGIC
  {
    hide U32, Le32, TableOk;
    TableWidth(table, signature);
    var head := Le32(MAGIC) + Le32(0) + Le32(|table|);
    var b := head + table + rest;
    assert head[0..4] == Le32(MAGIC) && head[4..8] == Le32(0) && head[8..12] == Le32(|table|);
    assert b[..12] == head;
    assert b[0..4] == head[0..4] && b[4..8] == head[4..8] && b[8..12] == head[8..12];
    Le32Reads(b, 0, MAGIC);
    Le32Reads(b, 4, 0);
    Le32Reads(b, 8, |table|);
    assert b[12..12 + |table|] == table;
    assert b[12 + |table|..] == rest;
  }

  lemma TableWidth(table: seq<Byte>, signature: nat)
    requires TableOk(table, signature)
    ensures 16 <= |table| <= 4096
  {
  }

  lemma {:induction false} EncodeBoundary(cs: seq<Container>, signature: nat)
    requires AllContainers(cs, signature)
    ensures AtBoundary(Encode(cs, signature))
  {
    hide TableOk, U32, Le32, EncodeSections, AllSections, TableFront;
    if cs != [] {
      var c, more := cs[0], cs[1..];
      assert cs == [c] + more;
      ContainersFront(c, more, signature);
      EncodedTableFront(c.table, EncodeSections(c.patches) + Encode(more, signature), signature);
      assert Encode(cs, signature)
          == Le32(MAGIC) + Le32(0) + Le32(|c.table|) + c.table + (EncodeSections(c.patches) + Encode(more, signature));
    }
  }

  /** A container at the front of a file. */
  lemma ParsesFront(b: seq<Byte>, c: Container, rest: seq<Byte>, more: seq<Container>, signature: nat)
    requires b != [] && TableFront(b, signature) && U32(b, 8) == |c.table| && 12 + |c.table| <= |b|
    requires b[12..12 + |c.table|] == c.table
    requires ParseSections(b[12 + |c.table|..]) == Some((c.patches, rest)) && c.patches != []
    requires |rest| < |b| && ParseContainers(rest, signature) == Some(more)
    ensures ParseContainers(b, signature) == Some([c] + more)
  {
    hide TableFront, ParseSections, U32;
  }

  /** Completeness of the parse: every sequence of well-formed containers is found again. */
  lemma {:induction false} EncodedParses(cs: seq<Container>, signature: nat)
    requires AllContainers(cs, signature)
    ensures ParseContainers(Encode(cs, signature), signature) == Some(cs)
    decreases |cs|
  {
    hide TableOk, U32, ParseSections, Le32, EncodeSections, AllSections, TableFront, ParseContainers, Encode;
    if cs == [] {
      NoContainers(signature);
    } else {
      var c, more := cs[0], cs[1..];
      assert cs == [c] + more;
      ContainersFront(c, more, signature);
      EncodeBoundary(more, signature);
      EncodedParses(more, signature);
      var rest := Encode(more, signature);
      var tail := EncodeSections(c.patches) + rest;
      EncodedTableFront(c.table, tail, signature);
      var b := Le32(MAGIC) + Le32(0) + Le32(|c.table|) + c.table + tail;
      assert Encode(cs, signature) == b;
      EncodedSections(c.patches, rest);
      ParsesFront(b, c, rest, more, signature);
    }
  }

  lemma NoContainers(signature: nat)
    ensures Encode([], signature) == [] && ParseContainers([], signature) == Some([])
  {
  }

  // ----- the matching patches and the answer

  /** The matching patches among the sections that start at `at`. */
  function SectionPatches(ps: seq<seq<Byte>>, at: nat, equivalent: Option<nat>, signature: nat): seq<Patch>
    requires AllSections(ps)
  {
    if ps == [] then []
    else
      var init, last := ps[..|ps| - 1], ps[|ps| - 1];
      SectionPatches(init, at, equivalent, signature) +
      (if Fits(last, equivalent, signature) then [Patch(at + |EncodeSections(init)| + 8, |last|, Revision(last))]
          else [])
  }

  function Patches(cs: seq<Container>, signature: nat): seq<Patch>
    requires AllContainers(cs, signature)
  {
    if cs == [] then []
    else
      var init, last := cs[..|cs| - 1], cs[|cs| - 1];
      Patches(init, signature) +
      SectionPatches(last.patches, |Encode(init, signature)| + 12 + |last.table|, Equivalent(last.table, signature),
          signature)
  }

  lemma {:induction false} SectionPatchesInFile(ps: seq<seq<Byte>>, at: nat, equivalent: Option<nat>, signature: nat,
      file: seq<Byte>)
    requires AllSections(ps) && at + |EncodeSections(ps)| <= |file|
    ensures AllInFile(SectionPatches(ps, at, equivalent, signature), file)
    decreases |ps|
  {
    hide Fits, SectionOk, Le32;
    if ps != [] {
      SectionPatchesInFile(ps[..|ps| - 1], at, equivalent, signature, file);
    }
  }

  lemma {:induction false} PatchesInFile(cs: seq<Container>, signature: nat, file: seq<Byte>)
    requires AllContainers(cs, signature) && |Encode(cs, signature)| <= |file|
    ensures AllInFile(Patches(cs, signature), file)
    decreases |cs|
  {
    hide TableOk, AllSections, SectionPatches, EncodeSections, Le32;
    if cs != [] {
      var init, last := cs[..|cs| - 1], cs[|cs| - 1];
      PatchesInFile(init, signature, file);
      SectionPatchesInFile(last.patches, |Encode(init, signature)| + 12 + |last.table|,
          Equivalent(last.table, signature), signature, file);
    }
  }

  /** What the parser must answer: a patch choice for exactly the files that encode well-formed
      containers with at most 128 sections and without clashing patches. */
  ghost predicate Answers(file: seq<Byte>, signature: nat, r: Result<Option<Patch>>) {
    if file == [] || |file| > MAX_FILE || ParseContainers(file, signature).None?
       || SectionCount(ParseContainers(file, signature).value) > MAX_SECTIONS then r.Err?
    else
      ParsedEncodes(file, signature);
      var cs := ParseContainers(file, signature).value;
      PatchesInFile(cs, signature, file);
      var chosen := SelectAll(Patches(cs, signature), file);
      if chosen.Err? then r.Err? else r == chosen
  }

  /** An accepted file is the encoding of well-formed containers; the answer is none exactly when no
      section matches, and otherwise the one patch of the highest matching revision. */
  lemma AcceptedMeans(file: seq<Byte>, signature: nat, r: Result<Option<Patch>>)
    requires Answers(file, signature, r) && r.Ok?
    ensures exists cs ::
      (&& AllContainers(cs, signature) && Encode(cs, signature) == file && SectionCount(cs) <= MAX_SECTIONS
       && AllInFile(Patches(cs, signature), file) && Chosen(Patches(cs, signature), file, r.value))
  {
    hide ParseContainers, Patches, SelectAll, Encode, ContainerOk, SectionCount;
    ParsedEncodes(file, signature);
    var cs := ParseContainers(file, signature).value;
    PatchesInFile(cs, signature, file);
    SelectAllChosen(Patches(cs, signature), file);
  }

  /** Conversely, the encoding of well-formed containers without clashing patches is accepted. */
  lemma EncodedIsAccepted(cs: seq<Container>, signature: nat, r: Result<Option<Patch>>)
    requires AllContainers(cs, signature) && 0 < |Encode(cs, signature)| <= MAX_FILE && SectionCount(cs) <= MAX_SECTIONS
    requires Answers(Encode(cs, signature), signature, r)
    requires AllInFile(Patches(cs, signature), Encode(cs, signature))
    requires !exists i, j :: Clash(Patches(cs, signature), Encode(cs, signature), i, j)
    ensures r.Ok? && Chosen(Patches(cs, signature), Encode(cs, signature), r.value)
  {
    hide ParseContainers, Patches, SelectAll, Encode, ContainerOk, SectionCount;
    EncodedParses(cs, signature);
    SelectAllFails(Patches(cs, signature), Encode(cs, signature));
    SelectAllChosen(Patches(cs, signature), Encode(cs, signature));
  }
}
