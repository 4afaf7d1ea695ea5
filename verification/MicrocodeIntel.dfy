/** Intel microcode files: validated as a whole before any patch is offered. */
module MicrocodeIntel {
  import opened Common
  import opened MicrocodeSelect

  const HEADER: nat := 48
  const MAX_RECORDS: nat := 64

  predicate OneHot(platform: nat) {
    platform == 1 || platform == 2 || platform == 4 || platform == 8 || platform == 16 || platform == 32 ||
        platform == 64 || platform == 128
  }

  /** Size of the data of a record, and of the whole record, from its header. */
  function DataSize(b: seq<Byte>): nat
    requires |b| >= HEADER
  {
    if U32(b, 28) == 0 then 2000 else U32(b, 28)
  }

  function TotalSize(b: seq<Byte>): nat
    requires |b| >= HEADER
  {
    if U32(b, 32) == 0 then 2048 else U32(b, 32)
  }

  function Revision(b: seq<Byte>): nat
    requires |b| >= HEADER
  {
    U32(b, 4)
  }

  /** The fixed part of a header, with sizes that fit each other. */
  predicate HeaderOk(b: seq<Byte>)
    requires |b| >= HEADER
  {
    && U32(b, 0) == 1 && U32(b, 20) == 1 && Revision(b) != 0 && Zeros(b[36..48])
    && DataSize(b) % 4 == 0 && TotalSize(b) % 1024 == 0 && TotalSize(b) >= DataSize(b) + HEADER
    && (U32(b, 28) == 0 ==> TotalSize(b) == 2048)
  }

  /** Entry k of an extended signature table: its signature, flags and checksum. */
  predicate EntryOk(ext: seq<Byte>, k: nat, original: nat)
    requires 20 + 12 * k + 12 <= |ext|
  {
    var at := 20 + 12 * k;
    U32(ext, at + 4) < 256 && (U32(ext, at) + U32(ext, at + 4) + U32(ext, at + 8)) % WORD == original
  }

  predicate EntryMatches(ext: seq<Byte>, k: nat, signature: nat, platform: nat)
    requires 20 + 12 * k + 12 <= |ext| && platform > 0
  {
    var at := 20 + 12 * k;
    U32(ext, at) == signature && U32(ext, at + 4) / platform % 2 == 1
  }

  predicate ExtendedOk(ext: seq<Byte>, original: nat) {
    ext == [] ||
    (&& |ext| >= 20 && U32(ext, 0) <= 256 && 20 + 12 * U32(ext, 0) == |ext| && Zeros(ext[8..20])
     && Sum(ext, |ext| / 4) == 0
     && forall k :: 0 <= k < U32(ext, 0) ==> EntryOk(ext, k, original))
  }

  function OriginalSum(rec: seq<Byte>): nat
    requires |rec| >= HEADER
  {
    (U32(rec, 12) + U32(rec, 24) + U32(rec, 16)) % WORD
  }

  /** A record: a header, data and an optional extended table, both with checksum zero. */
  predicate WellFormed(rec: seq<Byte>) {
    && |rec| >= HEADER && HeaderOk(rec) && |rec| == TotalSize(rec)
    && Sum(rec, (DataSize(rec) + HEADER) / 4) == 0
    && U32(rec, 24) < 256
    && ExtendedOk(rec[DataSize(rec) + HEADER..], OriginalSum(rec))
  }

  /** The record is meant for this processor, directly or by an extended signature. */
  predicate Matches(rec: seq<Byte>, signature: nat, platform: nat)
    requires WellFormed(rec) && platform > 0
  {
    var ext := rec[DataSize(rec) + HEADER..];
    || (U32(rec, 12) == signature && U32(rec, 24) / platform % 2 == 1)
    || (ext != [] && exists k :: 0 <= k < U32(ext, 0) && EntryMatches(ext, k, signature, platform))
  }

  // ----- tilings

  function Flatten(recs: seq<seq<Byte>>): seq<Byte> {
    if recs == [] then [] else Flatten(recs[..|recs| - 1]) + recs[|recs| - 1]
  }

  lemma {:induction false} FlattenFront(rec: seq<Byte>, recs: seq<seq<Byte>>)
    ensures Flatten([rec] + recs) == rec + Flatten(recs)
    decreases |recs|
  {
    var all := [rec] + recs;
    if recs == [] {
      assert all[..0] == [] && all[0] == rec;
    } else {
      var init, last := recs[..|recs| - 1], recs[|recs| - 1];
      assert all[..|all| - 1] == [rec] + init && all[|all| - 1] == last;
      FlattenFront(rec, init);
    }
  }

  predicate AllWellFormed(recs: seq<seq<Byte>>) {
    forall i :: 0 <= i < |recs| ==> WellFormed(recs[i])
  }

  /** The record at the front of a file. */
  predicate FrontOk(b: seq<Byte>) {
    |b| >= HEADER && TotalSize(b) <= |b| && TotalSize(b) > 0 && WellFormed(b[..TotalSize(b)])
  }

  /** Cutting a file into records, front to back. */
  function Cut(b: seq<Byte>): Option<seq<seq<Byte>>>
    decreases |b|
  {
    if b == [] then Some([])
    else if !FrontOk(b) then None
    else match Cut(b[TotalSize(b)..])
      case None => None
      case Some(rest) => Some([b[..TotalSize(b)]] + rest)
  }

  /** A cut that goes on after the records found so far. */
  function Continue(recs: seq<seq<Byte>>, rest: Option<seq<seq<Byte>>>): Option<seq<seq<Byte>>> {
    if rest.None? then None else Some(recs + rest.value)
  }

  lemma CutFront(b: seq<Byte>)
    requires b != [] && FrontOk(b)
    ensures var rec := b[..TotalSize(b)];
      WellFormed(rec) && |rec| == TotalSize(b) <= |b| && Cut(b) == Continue([rec], Cut(b[|rec|..]))
  {
  }

  lemma CutNeedsFront(b: seq<Byte>)
    requires b != [] && Cut(b).Some?
    ensures FrontOk(b)
  {
  }

  /** A file that was cut is tiled exactly by well-formed records. */
  lemma {:induction false} CutTiles(b: seq<Byte>)
    requires Cut(b).Some?
    ensures Flatten(Cut(b).value) == b && AllWellFormed(Cut(b).value)
    decreases |b|
  {
    if b == [] {
      CutNothing();
    } else {
      TileFront(b);
    }
  }

  lemma CutNothing()
    ensures Cut([]) == Some([]) && Flatten([]) == []
  {
  }

  lemma {:induction false} TileFront(b: seq<Byte>)
    requires b != [] && Cut(b).Some?
    ensures Flatten(Cut(b).value) == b && AllWellFormed(Cut(b).value)
    decreases |b|, 0
  {
    hide WellFormed, TotalSize, Flatten, Cut, FrontOk;
    CutNeedsFront(b);
    CutFront(b);
    FrontFits(b);
    var rec, rest := b[..TotalSize(b)], b[TotalSize(b)..];
    assert b == rec + rest;
    CutTiles(rest);
    FlattenFront(rec, Cut(rest).value);
  }

  lemma SameHeader(rec: seq<Byte>, rest: seq<Byte>)
    requires |rec| >= HEADER
    ensures TotalSize(rec + rest) == TotalSize(rec)
  {
  }

  /** Every tiling by well-formed records is the one the cut finds, so there is only one. */
  lemma {:induction false} TilingIsCut(b: seq<Byte>, recs: seq<seq<Byte>>)
    requires AllWellFormed(recs) && Flatten(recs) == b
    ensures Cut(b) == Some(recs)
    decreases |recs|
  {
    if recs != [] {
      var rec, rest := recs[0], Flatten(recs[1..]);
      assert [rec] + recs[1..] == recs;
      FlattenFront(rec, recs[1..]);
      SameHeader(rec, rest);
      assert b[..|rec|] == rec && b[|rec|..] == rest;
      assert forall i :: 0 <= i < |recs[1..]| ==> recs[1..][i] == recs[i + 1];
      TilingIsCut(rest, recs[1..]);
    }
  }

  /** The matching patches of a tiled file, in order. */
  function Patches(recs: seq<seq<Byte>>, signature: nat, platform: nat): seq<Patch>
    requires AllWellFormed(recs) && platform > 0
  {
    if recs == [] then []
    else
      var init, last := recs[..|recs| - 1], recs[|recs| - 1];
      Patches(init, signature, platform) +
      (if Matches(last, signature, platform) then [Patch(|Flatten(init)| + HEADER, DataSize(last), Revision(last))]
          else [])
  }

  lemma {:induction false} PatchesInFile(recs: seq<seq<Byte>>, signature: nat, platform: nat, file: seq<Byte>)
    requires AllWellFormed(recs) && platform > 0 && |Flatten(recs)| <= |file|
    ensures AllInFile(Patches(recs, signature, platform), file)
    decreases |recs|
  {
    if recs != [] {
      PatchesInFile(recs[..|recs| - 1], signature, platform, file);
    }
  }

  /** What the parser must answer: a patch choice for exactly the files that are tiled by at most 64
      well-formed records without clashing patches. */
  ghost predicate Answers(file: seq<Byte>, signature: nat, platform: nat, r: Result<Option<Patch>>) {
    if file == [] || |file| > MAX_FILE || !OneHot(platform) || Cut(file).None? || |Cut(file).value| > MAX_RECORDS
    then r.Err?
    else
      CutTiles(file);
      var recs := Cut(file).value;
      PatchesInFile(recs, signature, platform, file);
      var chosen := SelectAll(Patches(recs, signature, platform), file);
      if chosen.Err? then r.Err? else r == chosen
  }

  // ----- which error a refused file gets

  /** The defect of a bad extended table: too short, a wrong shape, or a wrong checksum. */
  function ExtendedError(ext: seq<Byte>): Error {
    if |ext| < 20 then Truncated
    else if U32(ext, 0) > 256 || 20 + 12 * U32(ext, 0) != |ext| || !Zeros(ext[8..20]) then Format
    else Checksum
  }

  /** The first defect of a bad record, from its header to its extended table. */
  function FrontError(b: seq<Byte>): Error {
    if |b| < HEADER then Truncated
    else if !HeaderOk(b) then Format
    else if TotalSize(b) > |b| then Truncated
    else RecordError(b[..TotalSize(b)])
  }

  function RecordError(rec: seq<Byte>): Error {
    if |rec| < HEADER || |rec| < DataSize(rec) + HEADER then Truncated
    else if Sum(rec, (DataSize(rec) + HEADER) / 4) != 0 then Checksum
    else if U32(rec, 24) >= 256 then Format
    else ExtendedError(rec[DataSize(rec) + HEADER..])
  }

  /** The records before `at` are well formed and do not clash, and the next one is the 65th, is bad,
      or clashes with them; the error says which. */
  ghost predicate FirstDefect(
    file: seq<Byte>, signature: nat, platform: nat, recs: seq<seq<Byte>>, at: nat, best: Option<Patch>, e: Error)
  {
    && Progress(file, signature, platform, recs, at, best) && |recs| <= MAX_RECORDS && at < |file|
    && if |recs| == MAX_RECORDS then e == Format
       else if !FrontOk(file[at..]) then e == FrontError(file[at..])
       else e == Ambiguous && ClashesNext(file, signature, platform, recs, file[at..][..TotalSize(file[at..])])
  }

  ghost predicate ClashesNext(file: seq<Byte>, signature: nat, platform: nat, recs: seq<seq<Byte>>, rec: seq<Byte>) {
    && AllWellFormed(recs + [rec]) && platform > 0 && AllInFile(Patches(recs + [rec], signature, platform), file)
    && SelectAll(Patches(recs + [rec], signature, platform), file).Err?
  }

  ghost predicate Fails(file: seq<Byte>, signature: nat, platform: nat, e: Error) {
    if file == [] || |file| > MAX_FILE || !OneHot(platform) then e == Format
    else exists recs, at, best :: FirstDefect(file, signature, platform, recs, at, best, e)
  }

  // ----- the parser

  method CheckExtended(ext: seq<Byte>, original: nat, signature: nat, platform: nat, direct: bool)
      returns (r: Result<bool>)
    requires platform > 0
    ensures r.Ok? <==> ExtendedOk(ext, original)
    ensures r.Err? ==> r.error == ExtendedError(ext)
    ensures r.Ok? ==>
      (r.value <==>
        direct || (ext != [] && exists k :: 0 <= k < U32(ext, 0) && EntryMatches(ext, k, signature, platform)))
  {
    if |ext| == 0 { return Ok(direct); }
    if |ext| < 20 { return Err(Truncated); }
    var count := U32(ext, 0);
    if count > 256 || 20 + 12 * count != |ext| || !Zeros(ext[8..20]) { return Err(Format); }
    var total := WordSum(ext);
    if total != 0 { return Err(Checksum); }
    hide Sum, Zeros, U32;
    var matches := direct;
    for k := 0 to count
      invariant forall j :: 0 <= j < k ==> EntryOk(ext, j, original)
      invariant matches == (direct || exists j :: 0 <= j < k && EntryMatches(ext, j, signature, platform))
    {
      if !EntryOk(ext, k, original) { return Err(Checksum); }
      matches := matches || EntryMatches(ext, k, signature, platform);
    }
    return Ok(matches);
  }

  datatype Found = Found(total: nat, data: nat, revision: nat, matches: bool)

  /** The record at the front of the remaining bytes. */
  method CheckRecord(remain: seq<Byte>, signature: nat, platform: nat) returns (r: Result<Found>)
    requires platform > 0
    ensures r.Ok? <==> FrontOk(remain)
    ensures r.Err? ==> r.error == FrontError(remain)
    ensures r.Ok? ==>
      && r.value == Found(TotalSize(remain), DataSize(remain), Revision(remain),
           Matches(remain[..TotalSize(remain)], signature, platform))
      && 0 < r.value.total <= |remain|
  {
    hide U32, WellFormed, Matches, HeaderOk, RecordError, DataSize, Revision, TotalSize;
    if |remain| < HEADER { return Err(Truncated); }
    if !HeaderOk(remain) {
      NoFront(remain);
      return Err(Format);
    }
    HeaderSizes(remain);
    var total := TotalSize(remain);
    if total > |remain| { return Err(Truncated); }
    FrontHeader(remain);
    var matches := CheckContents(remain[..total], signature, platform);
    if matches.Err? { return Err(matches.error); }
    return Ok(Found(total, DataSize(remain), Revision(remain), matches.value));
  }

  /** The checksums, flags and extended table of a record with a good header. */
  method CheckContents(rec: seq<Byte>, signature: nat, platform: nat) returns (r: Result<bool>)
    requires platform > 0 && |rec| >= HEADER && HeaderOk(rec) && |rec| == TotalSize(rec)
    ensures r.Ok? <==> WellFormed(rec)
    ensures r.Err? ==> r.error == RecordError(rec)
    ensures r.Ok? ==> r.value == Matches(rec, signature, platform)
  {
    hide U32, Sum, Zeros, ExtendedOk, ExtendedError, DataSize, TotalSize;
    HeaderSizes(rec);
    var base := DataSize(rec) + HEADER;
    var checksum := WordSum(rec[..base]);
    assert rec[..base][..base] == rec[..base];
    SumSame(rec[..base], rec, base / 4);
    if checksum != 0 { return Err(Checksum); }
    if U32(rec, 24) >= 256 { return Err(Format); }
    var direct := U32(rec, 12) == signature && U32(rec, 24) / platform % 2 == 1;
    r := CheckExtended(rec[base..], OriginalSum(rec), signature, platform, direct);
  }

  lemma HeaderSizes(b: seq<Byte>)
    requires |b| >= HEADER && HeaderOk(b)
    ensures HEADER <= DataSize(b) + HEADER <= TotalSize(b) && (DataSize(b) + HEADER) % 4 == 0
  {
    hide U32, Zeros;
  }

  lemma NoFront(b: seq<Byte>)
    requires |b| >= HEADER && !HeaderOk(b)
    ensures !FrontOk(b)
  {
    hide U32, Sum, Zeros, ExtendedOk, HeaderOk, DataSize, TotalSize, Revision;
    if |b| >= TotalSize(b) >= HEADER { FrontHeader(b); }
  }

  lemma FrontHeader(remain: seq<Byte>)
    requires |remain| >= HEADER && |remain| >= TotalSize(remain) >= HEADER
    ensures var rec := remain[..TotalSize(remain)];
      && TotalSize(rec) == TotalSize(remain) && DataSize(rec) == DataSize(remain) && Revision(rec) == Revision(remain)
      && (HeaderOk(rec) <==> HeaderOk(remain))
  {
    assert remain[..TotalSize(remain)][36..48] == remain[36..48];
  }

  lemma {:induction false} SumSame(a: seq<Byte>, b: seq<Byte>, n: nat)
    requires 4 * n <= |a| && 4 * n <= |b| && a[..4 * n] == b[..4 * n]
    ensures Sum(a, n) == Sum(b, n)
  {
    if n > 0 {
      assert forall i :: 0 <= i < 4 * n ==> a[i] == a[..4 * n][i] && b[i] == b[..4 * n][i];
      assert a[..4 * (n - 1)] == b[..4 * (n - 1)];
      SumSame(a, b, n - 1);
    }
  }

  /** The parser has taken the records `recs`, which end at `at`. */
  ghost predicate Progress(file: seq<Byte>, signature: nat, platform: nat, recs: seq<seq<Byte>>, at: nat,
      best: Option<Patch>) {
    && OneHot(platform) && at <= |file| && AllWellFormed(recs) && Flatten(recs) == file[..at]
    && Cut(file) == Continue(recs, Cut(file[at..]))
    && AllInFile(Patches(recs, signature, platform), file)
    && SelectAll(Patches(recs, signature, platform), file) == Ok(best)
  }

  lemma StartProgress(file: seq<Byte>, signature: nat, platform: nat)
    requires OneHot(platform)
    ensures Progress(file, signature, platform, [], 0, None)
  {
    assert file[0..] == file && file[..0] == [];
    if Cut(file).Some? { assert [] + Cut(file).value == Cut(file).value; }
  }

  lemma BadRequest(file: seq<Byte>, signature: nat, platform: nat, e: Error)
    requires file == [] || |file| > MAX_FILE || !OneHot(platform)
    ensures Answers(file, signature, platform, Err(e))
  {
  }

  lemma TooMany(file: seq<Byte>, signature: nat, platform: nat, recs: seq<seq<Byte>>, at: nat, best: Option<Patch>,
      e: Error)
    requires Progress(file, signature, platform, recs, at, best) && at < |file| && |recs| >= MAX_RECORDS
    ensures Answers(file, signature, platform, Err(e))
  {
    hide WellFormed, TotalSize, SelectAll, Patches, Flatten;
  }

  lemma BadRecord(file: seq<Byte>, signature: nat, platform: nat, recs: seq<seq<Byte>>, at: nat, best: Option<Patch>,
      e: Error)
    requires Progress(file, signature, platform, recs, at, best) && at < |file| && !FrontOk(file[at..])
    ensures Answers(file, signature, platform, Err(e))
  {
    hide FrontOk, SelectAll, Patches, Flatten;
    assert Cut(file[at..]) == None;
  }

  lemma HasHeader(rec: seq<Byte>)
    requires WellFormed(rec)
    ensures |rec| >= HEADER
  {
  }

  lemma ContinueTwice(a: seq<seq<Byte>>, b: seq<seq<Byte>>, rest: Option<seq<seq<Byte>>>)
    ensures Continue(a, Continue(b, rest)) == Continue(a + b, rest)
  {
    if rest.Some? { assert a + (b + rest.value) == (a + b) + rest.value; }
  }

  lemma FlattenLast(recs: seq<seq<Byte>>, rec: seq<Byte>)
    ensures Flatten(recs + [rec]) == Flatten(recs) + rec
  {
    assert (recs + [rec])[..|recs|] == recs;
  }

  lemma SliceNext(file: seq<Byte>, at: nat, n: nat)
    requires at + n <= |file|
    ensures file[..at] + file[at..][..n] == file[..at + n] && file[at..][n..] == file[at + n..]
  {
  }

  /** One more record, whatever the choice says about it. */
  lemma NextRecord(file: seq<Byte>, signature: nat, platform: nat, recs: seq<seq<Byte>>, at: nat, best: Option<Patch>,
      rec: seq<Byte>)
    requires Progress(file, signature, platform, recs, at, best) && at < |file| && FrontOk(file[at..])
    requires rec == file[at..][..TotalSize(file[at..])]
    ensures WellFormed(rec) && AllWellFormed(recs + [rec]) && Flatten(recs + [rec]) == file[..at + |rec|] &&
      at + |rec| <= |file|
    ensures |rec| == TotalSize(file[at..]) && Cut(file) == Continue(recs + [rec], Cut(file[at + |rec|..]))
  {
    hide WellFormed, TotalSize, Flatten, SelectAll, Patches, Cut, Continue, FrontOk;
    CutFront(file[at..]);
    SliceNext(file, at, |rec|);
    FlattenLast(recs, rec);
    ContinueTwice(recs, [rec], Cut(file[at + |rec|..]));
  }

  lemma FrontFits(b: seq<Byte>)
    requires FrontOk(b)
    ensures |b| >= HEADER && HEADER <= TotalSize(b) <= |b|
    ensures var rec := b[..TotalSize(b)];
      |rec| >= HEADER && DataSize(rec) == DataSize(b) && Revision(rec) == Revision(b)
  {
    FrontHeader(b);
  }

  lemma FlattenLength(file: seq<Byte>, recs: seq<seq<Byte>>, at: nat)
    requires at <= |file| && Flatten(recs) == file[..at]
    ensures |Flatten(recs)| == at
  {
  }

  lemma NextPatches(file: seq<Byte>, signature: nat, platform: nat, recs: seq<seq<Byte>>, rec: seq<Byte>)
    requires platform > 0 && AllWellFormed(recs) && WellFormed(rec) && AllWellFormed(recs + [rec])
    requires |Flatten(recs)| + |rec| <= |file| && AllInFile(Patches(recs, signature, platform), file)
    ensures var p := Patch(|Flatten(recs)| + HEADER, DataSize(rec), Revision(rec));
      && InFile(p, file)
      && Patches(recs + [rec], signature, platform)
         == Patches(recs, signature, platform) + (if Matches(rec, signature, platform) then [p] else [])
      && AllInFile(Patches(recs + [rec], signature, platform), file)
  {
    var all := recs + [rec];
    assert all[..|all| - 1] == recs && all[|all| - 1] == rec;
    hide Matches;
  }

  lemma {:induction false} PatchesPrefix(recs: seq<seq<Byte>>, more: seq<seq<Byte>>, signature: nat, platform: nat)
    returns (ps: seq<Patch>)
    requires platform > 0 && AllWellFormed(recs) && AllWellFormed(recs + more)
    ensures Patches(recs + more, signature, platform) == Patches(recs, signature, platform) + ps
    decreases |more|
  {
    hide Matches, WellFormed;
    ps := [];
    if more == [] {
      assert recs + more == recs;
    } else {
      var init, last := more[..|more| - 1], more[|more| - 1];
      assert (recs + more)[..|recs + more| - 1] == recs + init && (recs + more)[|recs + more| - 1] == last;
      assert forall i :: 0 <= i < |recs + init| ==> (recs + init)[i] == (recs + more)[i];
      ps := PatchesPrefix(recs, init, signature, platform);
      assert WellFormed(last) by { assert last == (recs + more)[|recs + more| - 1]; }
      HasHeader(last);
      if Matches(last, signature, platform) {
        ps := ps + [Patch(|Flatten(recs + init)| + HEADER, DataSize(last), Revision(last))];
      }
    }
  }

  lemma AmbiguousFile(file: seq<Byte>, signature: nat, platform: nat, recs: seq<seq<Byte>>, at: nat, e: Error)
    requires OneHot(platform) && at <= |file| && AllWellFormed(recs) && Cut(file) == Continue(recs, Cut(file[at..]))
    requires AllInFile(Patches(recs, signature, platform), file) &&
      SelectAll(Patches(recs, signature, platform), file).Err?
    ensures Answers(file, signature, platform, Err(e))
  {
    hide Cut, Patches, SelectAll, WellFormed;
    if Cut(file).Some? {
      CutTiles(file);
      PatchesInFile(Cut(file).value, signature, platform, file);
      var ps := PatchesPrefix(recs, Cut(file[at..]).value, signature, platform);
      FailStays(Patches(recs, signature, platform), ps, file);
    }
  }

  lemma CompleteFile(file: seq<Byte>, signature: nat, platform: nat, recs: seq<seq<Byte>>, best: Option<Patch>)
    requires Progress(file, signature, platform, recs, |file|, best) && 0 < |file| <= MAX_FILE && |recs| <= MAX_RECORDS
    ensures Answers(file, signature, platform, Ok(best))
  {
    assert file[|file|..] == [] && Cut([]) == Some([]) && recs + [] == recs;
    hide Patches, SelectAll, WellFormed;
  }

  /** The parser: the whole file is validated, and at most 64 records are taken. */
  method Intel(file: seq<Byte>, signature: nat, platform: nat) returns (r: Result<Option<Patch>>)
    ensures Answers(file, signature, platform, r)
    ensures r.Err? ==> Fails(file, signature, platform, r.error)
  {
    hide Answers, Progress, FrontOk, FrontError, TotalSize, DataSize, Revision, Matches, Select, ClashesNext;
    if |file| == 0 || |file| > MAX_FILE || !OneHot(platform) {
      BadRequest(file, signature, platform, Format);
      return Err(Format);
    }
    var at, count := 0, 0;
    var best: Option<Patch> := None;
    ghost var recs: seq<seq<Byte>> := [];
    StartProgress(file, signature, platform);
    while at < |file|
      invariant at <= |file| && count == |recs| <= MAX_RECORDS && Progress(file, signature, platform, recs, at, best)
      decreases |file| - at
    {
      count := count + 1;
      if count > MAX_RECORDS {
        TooMany(file, signature, platform, recs, at, best, Format);
        assert FirstDefect(file, signature, platform, recs, at, best, Format);
        return Err(Format);
      }
      var found := CheckRecord(file[at..], signature, platform);
      if found.Err? {
        BadRecord(file, signature, platform, recs, at, best, found.error);
        assert FirstDefect(file, signature, platform, recs, at, best, found.error);
        return Err(found.error);
      }
      var next;
      next := Take(file, signature, platform, recs, at, best, found.value);
      if next.Err? {
        assert FirstDefect(file, signature, platform, recs, at, best, Ambiguous);
        return Err(next.error);
      }
      recs := recs + [file[at..][..found.value.total]];
      best, at := next.value, at + found.value.total;
    }
    CompleteFile(file, signature, platform, recs, best);
    return Ok(best);
  }

  /** Takes the record at the front of the rest, with its patch when it matches. */
  method Take(file: seq<Byte>, signature: nat, platform: nat, ghost recs: seq<seq<Byte>>, at: nat, best: Option<Patch>,
      found: Found)
    returns (next: Result<Option<Patch>>)
    requires Progress(file, signature, platform, recs, at, best) && at < |file| && FrontOk(file[at..])
    requires found == Found(TotalSize(file[at..]), DataSize(file[at..]), Revision(file[at..]),
      Matches(file[at..][..TotalSize(file[at..])], signature, platform))
    ensures next.Err? ==> Answers(file, signature, platform, Err(next.error)) && next.error == Ambiguous
    ensures next.Err? ==> ClashesNext(file, signature, platform, recs, file[at..][..found.total])
    ensures next.Ok? ==>
      var rec := file[at..][..found.total];
      |rec| == found.total && Progress(file, signature, platform, recs + [rec], at + found.total, next.value)
  {
    hide Cut, Patches, SelectAll, Matches, WellFormed, FrontOk, Answers, DataSize, TotalSize, Revision;
    FrontFits(file[at..]);
    ghost var rec := file[at..][..found.total];
    NextRecord(file, signature, platform, recs, at, best, rec);
    FlattenLength(file, recs, at);
    NextPatches(file, signature, platform, recs, rec);
    ghost var ps := Patches(recs, signature, platform);
    if !found.matches {
      assert ps + [] == ps;
      return Ok(best);
    }
    var p := Patch(at + HEADER, found.data, found.revision);
    NextChoice(ps, p, file);
    next := Select(best, p, file);
    if next.Err? { AmbiguousFile(file, signature, platform, recs + [rec], at + |rec|, next.error); }
  }

  // ----- what an answer means

  /** An accepted file is tiled by well-formed records; the answer is none exactly when no record
      matches, and otherwise a patch in the file of the highest matching revision, identical to
      every other matching patch of that revision. */
  lemma AcceptedMeans(file: seq<Byte>, signature: nat, platform: nat, r: Result<Option<Patch>>)
    requires Answers(file, signature, platform, r) && r.Ok?
    ensures platform > 0
    ensures exists recs ::
      (&& AllWellFormed(recs) && Flatten(recs) == file && 0 < |recs| <= MAX_RECORDS
       && AllInFile(Patches(recs, signature, platform), file)
       && Chosen(Patches(recs, signature, platform), file, r.value))
  {
    hide Cut, Patches, SelectAll, WellFormed;
    CutTiles(file);
    var recs := Cut(file).value;
    PatchesInFile(recs, signature, platform, file);
    SelectAllChosen(Patches(recs, signature, platform), file);
  }

  /** Conversely, a file tiled by at most 64 well-formed records without clashing patches is
      accepted. */
  lemma TiledIsAccepted(file: seq<Byte>, signature: nat, platform: nat, r: Result<Option<Patch>>, recs: seq<seq<Byte>>)
    requires Answers(file, signature, platform, r) && 0 < |file| <= MAX_FILE && OneHot(platform)
    requires AllWellFormed(recs) && Flatten(recs) == file && |recs| <= MAX_RECORDS
    requires AllInFile(Patches(recs, signature, platform), file)
    requires !exists i, j :: Clash(Patches(recs, signature, platform), file, i, j)
    ensures r.Ok? && Chosen(Patches(recs, signature, platform), file, r.value)
  {
    hide Cut, Patches, SelectAll, WellFormed;
    TilingIsCut(file, recs);
    SelectAllFails(Patches(recs, signature, platform), file);
    SelectAllChosen(Patches(recs, signature, platform), file);
  }
}
