/** The byte layout of Intel records and AMD sections: what the parsers accept is exactly what the
    fields encode to. */
module MicrocodeLayout {
  import opened Common
  import opened Bits
  import opened MicrocodeSelect
  import I = MicrocodeIntel
  import A = MicrocodeAmd

  // ----- Intel records

  datatype Header = Header(
    revision: nat, date: nat, signature: nat, checksum: nat, flags: nat, dataWord: nat, totalWord: nat)

  predicate Words(h: Header) {
    && h.revision < WORD && h.date < WORD && h.signature < WORD && h.checksum < WORD && h.flags < WORD
    && h.dataWord < WORD && h.totalWord < WORD
  }

  const ZEROS: seq<Byte> := [0, 0, 0, 0, 0, 0, 0, 0, 0, 0, 0, 0]

  /** The header version, the fields, the loader version and twelve reserved bytes. */
  function EncodeHeader(h: Header): (r: seq<Byte>)
    requires Words(h)
    ensures |r| == I.HEADER
  {
    A.Le32(1) + A.Le32(h.revision) + A.Le32(h.date) + A.Le32(h.signature) + A.Le32(h.checksum) + A.Le32(1)
    + A.Le32(h.flags) + A.Le32(h.dataWord) + A.Le32(h.totalWord) + ZEROS
  }

  /** The fields that stand at the front of a record. */
  function HeaderOf(b: seq<Byte>): (h: Header)
    requires |b| >= I.HEADER
    ensures Words(h)
  {
    Header(U32(b, 4), U32(b, 8), U32(b, 12), U32(b, 16), U32(b, 24), U32(b, 28), U32(b, 32))
  }

  lemma TwelveZeros(b: seq<Byte>)
    requires |b| == 12
    ensures Zeros(b) <==> b == ZEROS
  {
  }

  lemma HeaderParts(b: seq<Byte>)
    requires |b| >= 48
    ensures b[..48] == b[0..4] + b[4..8] + b[8..12] + b[12..16] + b[16..20] + b[20..24] + b[24..28] + b[28..32]
      + b[32..36] + b[36..48]
  {
    assert b[..16] == b[0..4] + b[4..8] + b[8..12] + b[12..16];
    assert b[..32] == b[..16] + b[16..20] + b[20..24] + b[24..28] + b[28..32];
    assert b[..48] == b[..32] + b[32..36] + b[36..48];
  }

  /** A header is the encoding of its fields if and only if its constant parts are as they must be. */
  lemma HeaderEncodes(b: seq<Byte>)
    requires |b| >= I.HEADER
    ensures b[..48] == EncodeHeader(HeaderOf(b)) <==> U32(b, 0) == 1 && U32(b, 20) == 1 && Zeros(b[36..48])
  {
    hide U32, A.Le32;
    var h := HeaderOf(b);
    TwelveZeros(b[36..48]);
    forall at: nat | at + 4 <= |b| ensures A.Le32(U32(b, at)) == b[at..at + 4] {
      A.Le32Writes(b, at);
    }
    HeaderParts(b);
    if b[..48] == EncodeHeader(h) {
      Slices(b, h);
      A.Le32Reads(b, 0, 1);
      A.Le32Reads(b, 20, 1);
    }
  }

  lemma Slices(b: seq<Byte>, h: Header)
    requires |b| >= I.HEADER && Words(h) && b[..48] == EncodeHeader(h)
    ensures b[0..4] == A.Le32(1) && b[4..8] == A.Le32(h.revision) && b[8..12] == A.Le32(h.date)
    ensures b[12..16] == A.Le32(h.signature) && b[16..20] == A.Le32(h.checksum) && b[20..24] == A.Le32(1)
    ensures b[24..28] == A.Le32(h.flags) && b[28..32] == A.Le32(h.dataWord) && b[32..36] == A.Le32(h.totalWord)
    ensures b[36..48] == ZEROS
  {
    hide A.Le32;
    var e := b[..48];
    assert b[0..4] == e[0..4] && b[4..8] == e[4..8] && b[8..12] == e[8..12] && b[12..16] == e[12..16];
    assert b[16..20] == e[16..20] && b[20..24] == e[20..24] && b[24..28] == e[24..28] && b[28..32] == e[28..32];
    assert b[32..36] == e[32..36] && b[36..48] == e[36..48];
  }

  /** An encoded header gives its fields back. */
  lemma HeaderRoundTrip(b: seq<Byte>, h: Header)
    requires |b| >= I.HEADER && Words(h) && b[..48] == EncodeHeader(h)
    ensures HeaderOf(b) == h
  {
    hide U32, A.Le32;
    Slices(b, h);
    A.Le32Reads(b, 4, h.revision);
    A.Le32Reads(b, 8, h.date);
    A.Le32Reads(b, 12, h.signature);
    A.Le32Reads(b, 16, h.checksum);
    A.Le32Reads(b, 24, h.flags);
    A.Le32Reads(b, 28, h.dataWord);
    A.Le32Reads(b, 32, h.totalWord);
  }

  /** Sizes, checksum and contents of a record with these fields. */
  predicate Meant(h: Header, data: seq<Byte>, ext: seq<Byte>)
    requires Words(h)
  {
    var total := I.HEADER + |data| + |ext|;
    && h.revision != 0 && h.flags < 256
    && |data| == (if h.dataWord == 0 then 2000 else h.dataWord) && |data| % 4 == 0
    && total == (if h.totalWord == 0 then 2048 else h.totalWord) && total % 1024 == 0
    && (h.dataWord == 0 ==> total == 2048)
    && Sum(EncodeHeader(h) + data + ext, (I.HEADER + |data|) / 4) == 0
    && I.ExtendedOk(ext, (h.signature + h.flags + h.checksum) % WORD)
  }

  ghost predicate Encodes(rec: seq<Byte>, h: Header, data: seq<Byte>, ext: seq<Byte>) {
    Words(h) && Meant(h, data, ext) && rec == EncodeHeader(h) + data + ext
  }

  /** The well-formed records are exactly the encodings of meant headers, data and extensions. */
  lemma RecordLayout(rec: seq<Byte>)
    ensures I.WellFormed(rec) <==> exists h, data, ext :: Encodes(rec, h, data, ext)
  {
    if I.WellFormed(rec) {
      RecordEncodes(rec);
    }
    if h, data, ext :| Encodes(rec, h, data, ext) {
      EncodedIsRecord(rec, h, data, ext);
    }
  }

  lemma RecordEncodes(rec: seq<Byte>)
    requires I.WellFormed(rec)
    ensures I.HEADER <= I.DataSize(rec) + I.HEADER <= |rec|
    ensures Encodes(rec, HeaderOf(rec), rec[48..48 + I.DataSize(rec)], rec[48 + I.DataSize(rec)..])
  {
    hide U32, Sum, Zeros, I.ExtendedOk, EncodeHeader;
    HeaderEncodes(rec);
    var h, n := HeaderOf(rec), I.DataSize(rec);
    assert rec == rec[..48] + rec[48..48 + n] + rec[48 + n..];
  }

  /** The fields of a record that a parser reads. */
  lemma EncodedIsRecord(rec: seq<Byte>, h: Header, data: seq<Byte>, ext: seq<Byte>)
    requires Encodes(rec, h, data, ext)
    ensures I.WellFormed(rec) && I.Revision(rec) == h.revision && I.DataSize(rec) == |data|
    ensures rec[48..48 + |data|] == data && rec[48 + |data|..] == ext
  {
    hide U32, Sum, Zeros, I.ExtendedOk, EncodeHeader;
    assert rec[..48] == EncodeHeader(h) && rec[48..48 + |data|] == data && rec[48 + |data|..] == ext;
    HeaderRoundTrip(rec, h);
    HeaderEncodes(rec);
  }

  lemma Fourth(total: nat)
    requires total % 1024 == 0
    ensures total % 4 == 0
  {
    var k := total / 1024;
    assert total == 1024 * k;
    ModUnique(total, 4, 256 * k, 0);
  }

  lemma Fourths(data: nat, total: nat)
    requires data % 4 == 0 && total % 4 == 0 && data + 48 <= total
    ensures (data + 48) % 4 == 0 && (total - data - 48) % 4 == 0
  {
    ModUnique(data + 48, 4, data / 4 + 12, 0);
    ModUnique(total - data - 48, 4, total / 4 - data / 4 - 12, 0);
  }

  /** The parts of a well-formed record and their checksums. */
  lemma Sums(rec: seq<Byte>)
    requires I.WellFormed(rec)
    ensures var base := I.DataSize(rec) + I.HEADER;
      && base <= |rec| && base % 4 == 0 && (|rec| - base) % 4 == 0 && Sum(rec, base / 4) == 0
      && (rec[base..] != [] ==> Sum(rec[base..], |rec[base..]| / 4) == 0)
  {
    hide U32, Sum, Zeros, I.DataSize, I.TotalSize;
    Fourth(I.TotalSize(rec));
    Fourths(I.DataSize(rec), I.TotalSize(rec));
  }

  /** No two well-formed records of one data size differ in a single byte. */
  lemma RecordDetects(a: seq<Byte>, b: seq<Byte>, k: nat)
    requires I.WellFormed(a) && DifferOnlyAt(a, b, k) && |b| >= I.HEADER && I.DataSize(a) == I.DataSize(b)
    ensures !I.WellFormed(b)
  {
    hide U32, Sum, I.WellFormed, I.DataSize;
    if I.WellFormed(b) {
      Sums(a);
      Sums(b);
      var base := I.DataSize(a) + I.HEADER;
      if k < base {
        SumDetects(a, b, k, base / 4);
      } else {
        var x, y := a[base..], b[base..];
        assert DifferOnlyAt(x, y, k - base);
        SumDetects(x, y, k - base, |x| / 4);
      }
      assert false;
    }
  }

  // ----- extended signature tables

  datatype Entry = Entry(signature: nat, flags: nat, checksum: nat)

  predicate EntryMeant(e: Entry, original: nat) {
    && e.signature < WORD && e.flags < 256 && e.checksum < WORD
    && (e.signature + e.flags + e.checksum) % WORD == original
  }

  predicate WordEntry(e: Entry) {
    e.signature < WORD && e.flags < WORD && e.checksum < WORD
  }

  function EncodeEntry(e: Entry): (r: seq<Byte>)
    requires WordEntry(e)
    ensures |r| == 12
  {
    A.Le32(e.signature) + A.Le32(e.flags) + A.Le32(e.checksum)
  }

  predicate AllWords(es: seq<Entry>) {
    forall i :: 0 <= i < |es| ==> WordEntry(es[i])
  }

  function EncodeEntries(es: seq<Entry>): (r: seq<Byte>)
    requires AllWords(es)
    ensures |r| == 12 * |es|
  {
    if es == [] then [] else EncodeEntries(es[..|es| - 1]) + EncodeEntry(es[|es| - 1])
  }

  function EncodeTable(es: seq<Entry>, checksum: nat): (r: seq<Byte>)
    requires AllWords(es) && |es| < WORD && checksum < WORD
    ensures |r| == 20 + 12 * |es|
  {
    A.Le32(|es|) + A.Le32(checksum) + ZEROS + EncodeEntries(es)
  }

  function EntryAt(b: seq<Byte>, at: nat): (e: Entry)
    requires at + 12 <= |b|
    ensures WordEntry(e)
  {
    Entry(U32(b, at), U32(b, at + 4), U32(b, at + 8))
  }

  function EntriesOf(b: seq<Byte>, n: nat): (es: seq<Entry>)
    requires 20 + 12 * n <= |b|
    ensures |es| == n && AllWords(es) && forall k :: 0 <= k < n ==> es[k] == EntryAt(b, 20 + 12 * k)
  {
    seq(n, k requires 0 <= k < n => EntryAt(b, 20 + 12 * k))
  }

  lemma EntryEncodes(b: seq<Byte>, at: nat)
    requires at + 12 <= |b|
    ensures EncodeEntry(EntryAt(b, at)) == b[at..at + 12]
  {
    hide U32, A.Le32;
    A.Le32Writes(b, at);
    A.Le32Writes(b, at + 4);
    A.Le32Writes(b, at + 8);
    assert b[at..at + 12] == b[at..at + 4] + b[at + 4..at + 8] + b[at + 8..at + 12];
  }

  lemma {:induction false} EntriesEncode(b: seq<Byte>, n: nat)
    requires 20 + 12 * n <= |b|
    ensures EncodeEntries(EntriesOf(b, n)) == b[20..20 + 12 * n]
  {
    hide U32, EncodeEntry, EntryAt;
    if n > 0 {
      var es := EntriesOf(b, n);
      assert es[..n - 1] == EntriesOf(b, n - 1);
      EntriesEncode(b, n - 1);
      EntryEncodes(b, 20 + 12 * (n - 1));
      assert b[20..20 + 12 * n] == b[20..20 + 12 * (n - 1)] + b[20 + 12 * (n - 1)..20 + 12 * n];
    }
  }

  lemma {:induction false} EntryReads(b: seq<Byte>, es: seq<Entry>, k: nat)
    requires AllWords(es) && 20 + 12 * |es| <= |b| && b[20..20 + 12 * |es|] == EncodeEntries(es) && k < |es|
    ensures EntryAt(b, 20 + 12 * k) == es[k]
    decreases |es|
  {
    hide U32, A.Le32, EntryAt;
    var n := |es| - 1;
    var part := b[20..20 + 12 * |es|];
    assert part[..12 * n] == b[20..20 + 12 * n] && part[12 * n..] == b[20 + 12 * n..20 + 12 * n + 12];
    if k < n {
      EntryReads(b, es[..n], k);
    } else {
      OneEntryReads(b, 20 + 12 * n, es[n]);
    }
  }

  lemma SubSlice(b: seq<Byte>, at: nat, i: nat, j: nat)
    requires at + 12 <= |b| && i <= j <= 12
    ensures b[at..at + 12][i..j] == b[at + i..at + j]
  {
    var s, t := b[at..at + 12][i..j], b[at + i..at + j];
    forall k | 0 <= k < j - i ensures s[k] == t[k] {
      assert s[k] == b[at..at + 12][i + k] == b[at + (i + k)];
    }
  }

  lemma OneEntryReads(b: seq<Byte>, at: nat, e: Entry)
    requires WordEntry(e) && at + 12 <= |b| && EncodeEntry(e) == b[at..at + 12]
    ensures EntryAt(b, at) == e
  {
    hide U32, A.Le32;
    var s := b[at..at + 12];
    SubSlice(b, at, 0, 4);
    SubSlice(b, at, 4, 8);
    SubSlice(b, at, 8, 12);
    assert s[0..4] == A.Le32(e.signature) && s[4..8] == A.Le32(e.flags) && s[8..12] == A.Le32(e.checksum);
    A.Le32Reads(b, at, e.signature);
    A.Le32Reads(b, at + 4, e.flags);
    A.Le32Reads(b, at + 8, e.checksum);
  }

  ghost predicate TableEncodes(ext: seq<Byte>, original: nat, es: seq<Entry>, checksum: nat) {
    && |es| <= 256 && checksum < WORD && (forall i :: 0 <= i < |es| ==> EntryMeant(es[i], original))
    && ext == EncodeTable(es, checksum) && Sum(ext, |ext| / 4) == 0
  }

  /** The accepted extended tables are exactly the encodings of their entries, and an entry matches
      when its signature and one of its platform bits do. */
  lemma TableLayout(ext: seq<Byte>, original: nat)
    ensures ext != [] && I.ExtendedOk(ext, original) <==>
      exists es, checksum :: TableEncodes(ext, original, es, checksum)
  {
    if ext != [] && I.ExtendedOk(ext, original) {
      TableIsEncoding(ext, original);
    }
    if es, checksum :| TableEncodes(ext, original, es, checksum) {
      EncodingIsTable(ext, original, es, checksum);
    }
  }

  lemma TableIsEncoding(ext: seq<Byte>, original: nat)
    requires ext != [] && I.ExtendedOk(ext, original)
    ensures TableEncodes(ext, original, EntriesOf(ext, U32(ext, 0)), U32(ext, 4))
  {
    hide U32, A.Le32, Sum, Zeros, EncodeEntries;
    var n := U32(ext, 0);
    var es := EntriesOf(ext, n);
    A.Le32Writes(ext, 0);
    A.Le32Writes(ext, 4);
    TwelveZeros(ext[8..20]);
    EntriesEncode(ext, n);
    assert ext == ext[0..4] + ext[4..8] + ext[8..20] + ext[20..20 + 12 * n];
    forall i | 0 <= i < n ensures EntryMeant(es[i], original) {
      assert I.EntryOk(ext, i, original);
    }
  }

  lemma EncodingIsTable(ext: seq<Byte>, original: nat, es: seq<Entry>, checksum: nat)
    requires TableEncodes(ext, original, es, checksum)
    ensures ext != [] && I.ExtendedOk(ext, original) && U32(ext, 0) == |es|
    ensures forall k: nat :: k < |es| ==> EntryAt(ext, 20 + 12 * k) == es[k]
  {
    hide U32, A.Le32, Sum, Zeros, EncodeEntries, EntryAt;
    assert ext[0..4] == A.Le32(|es|) && ext[8..20] == ZEROS && ext[20..20 + 12 * |es|] == EncodeEntries(es);
    A.Le32Reads(ext, 0, |es|);
    TwelveZeros(ext[8..20]);
    forall k: nat | k < |es| ensures EntryAt(ext, 20 + 12 * k) == es[k] && I.EntryOk(ext, k, original) {
      EntryReads(ext, es, k);
      EntryIsOk(ext, k, original, es[k]);
    }
  }

  lemma EntryIsOk(ext: seq<Byte>, k: nat, original: nat, e: Entry)
    requires 20 + 12 * k + 12 <= |ext| && EntryAt(ext, 20 + 12 * k) == e && EntryMeant(e, original)
    ensures I.EntryOk(ext, k, original)
  {
    hide U32;
  }

  /** Platform bit p of a flags byte. */
  predicate OnPlatform(flags: nat, platform: nat)
    requires platform > 0
  {
    flags / platform % 2 == 1
  }

  /** For which processors a record is meant: those of its header and those of its entries. */
  lemma MatchLayout(
    rec: seq<Byte>, h: Header, data: seq<Byte>, es: seq<Entry>, checksum: nat, signature: nat, platform: nat)
    requires platform > 0 && |es| <= 256 && AllWords(es) && checksum < WORD
    requires Words(h)
    requires TableEncodes(EncodeTable(es, checksum), (h.signature + h.flags + h.checksum) % WORD, es, checksum)
    requires Encodes(rec, h, data, EncodeTable(es, checksum))
    ensures I.WellFormed(rec)
    ensures I.Matches(rec, signature, platform) <==>
      || (h.signature == signature && OnPlatform(h.flags, platform))
      || exists k: nat :: k < |es| && es[k].signature == signature && OnPlatform(es[k].flags, platform)
  {
    hide U32, Sum, Zeros, EncodeTable, EncodeHeader, Meant, I.ExtendedOk;
    var ext := EncodeTable(es, checksum);
    EncodedIsRecord(rec, h, data, ext);
    HeaderAt(rec, h, data, ext);
    EncodingIsTable(ext, (h.signature + h.flags + h.checksum) % WORD, es, checksum);
    forall k: nat | k < |es|
      ensures I.EntryMatches(ext, k, signature, platform) <==>
        es[k].signature == signature && OnPlatform(es[k].flags, platform)
    {
      assert EntryAt(ext, 20 + 12 * k) == es[k];
    }
    hide I.EntryMatches;
    if k :| 0 <= k < U32(ext, 0) && I.EntryMatches(ext, k, signature, platform) {
      assert k < |es|;
    }
  }

  lemma HeaderAt(rec: seq<Byte>, h: Header, data: seq<Byte>, ext: seq<Byte>)
    requires Encodes(rec, h, data, ext)
    ensures |rec| >= I.HEADER && HeaderOf(rec) == h
  {
    hide U32, Sum, EncodeHeader;
    assert rec[..48] == EncodeHeader(h);
    HeaderRoundTrip(rec, h);
  }

  // ----- AMD sections

  /** A section: its revision in the second word, two zero words in the fifth and sixth. */
  lemma SectionLayout(patch: seq<Byte>)
    ensures A.SectionOk(patch) <==>
      && 64 <= |patch| <= 32768
      && exists revision: nat :: 0 < revision < WORD && patch[4..8] == A.Le32(revision)
           && patch[16..24] == A.Le32(0) + A.Le32(0)
  {
    hide U32, A.Le32;
    if 64 <= |patch| <= 32768 {
      A.Le32Writes(patch, 4);
      A.Le32Writes(patch, 16);
      A.Le32Writes(patch, 20);
      assert patch[16..24] == patch[16..20] + patch[20..24];
      if revision: nat :| 0 < revision < WORD && patch[4..8] == A.Le32(revision)
                          && patch[16..24] == A.Le32(0) + A.Le32(0) {
        A.Le32Reads(patch, 4, revision);
        assert patch[16..24][..4] == patch[16..20] && patch[16..24][4..] == patch[20..24];
        A.Le32Reads(patch, 16, 0);
        A.Le32Reads(patch, 20, 0);
      }
    }
  }

  /** Sixteen bytes of an equivalence table: the installed signature, two errata words, the equivalence
      number and two zero bytes. */
  lemma RowLayout(table: seq<Byte>, k: nat, signature: nat)
    requires 16 * k + 16 <= |table|
    ensures A.RowOk(table, k, signature) <==>
      var at := 16 * k;
      && Zeros(table[at + 14..at + 16]) && !Zeros(table[at + 12..at + 14]) && !Zeros(table[at..at + 4])
      && (U32(table, at) == signature ==> Zeros(table[at + 4..at + 12]))
  {
    hide U32, U16, Zeros;
    var at := 16 * k;
    ZeroWord(table, at);
    ZeroWord(table, at + 4);
    ZeroWord(table, at + 8);
    ZeroHalf(table, at + 12);
    ZeroHalf(table, at + 14);
    ZeroPair(table, at + 4);
  }

  lemma ZeroWord(b: seq<Byte>, at: nat)
    requires at + 4 <= |b|
    ensures U32(b, at) == 0 <==> Zeros(b[at..at + 4])
  {
    var s := b[at..at + 4];
    assert s[0] == b[at] && s[1] == b[at + 1] && s[2] == b[at + 2] && s[3] == b[at + 3];
  }

  lemma ZeroHalf(b: seq<Byte>, at: nat)
    requires at + 2 <= |b|
    ensures U16(b, at) == 0 <==> Zeros(b[at..at + 2])
  {
    var s := b[at..at + 2];
    assert s[0] == b[at] && s[1] == b[at + 1];
  }

  lemma ZerosJoin(a: seq<Byte>, b: seq<Byte>)
    ensures Zeros(a + b) <==> Zeros(a) && Zeros(b)
  {
    var c := a + b;
    if Zeros(c) {
      assert forall i :: 0 <= i < |a| ==> a[i] == c[i];
      forall i | 0 <= i < |b| ensures b[i] == 0 {
        assert b[i] == c[|a| + i];
      }
    }
  }

  lemma ZeroPair(b: seq<Byte>, at: nat)
    requires at + 8 <= |b|
    ensures Zeros(b[at..at + 8]) <==> Zeros(b[at..at + 4]) && Zeros(b[at + 4..at + 8])
  {
    ZerosJoin(b[at..at + 4], b[at + 4..at + 8]);
    assert b[at..at + 8] == b[at..at + 4] + b[at + 4..at + 8];
  }

  /** A number written in digits, from the lowest. */
  lemma Digit(x: nat, low: nat, d: nat, high: nat)
    requires low < d && x == low + d * high
    ensures x % d == low && x / d == high
  {
    ModUnique(x, d, high, low);
  }

  lemma Expands(u: nat, v: nat, a: nat, b: nat)
    ensures (u * b + v) * a == u * (a * b) + v * a
  {
  }

  lemma Below(v: nat, r: nat, a: nat, b: nat)
    requires v < b && r < a
    ensures v * a + r < a * b
  {
    assert (v + 1) * a <= b * a;
  }

  lemma DivDivParts(x: nat, a: nat, b: nat, q: nat, r: nat, u: nat, v: nat)
    requires r < a && v < b && x == q * a + r && q == u * b + v
    ensures a * b > 0 && x / (a * b) == u
  {
    Expands(u, v, a, b);
    Below(v, r, a, b);
    ModUnique(x, a * b, u, v * a + r);
  }

  lemma DivDiv(x: nat, a: nat, b: nat)
    requires a > 0 && b > 0
    ensures a * b > 0 && x / a / b == x / (a * b)
  {
    DivDivParts(x, a, b, x / a, x % a, x / a / b, x / a % b);
  }

  /** The patch identifier carries stepping, model and family of its processor. */
  lemma SignatureLayout(id: nat, stepping: nat, model: nat, spare: nat, extModel: nat, extFamily: nat)
    requires id < 256 && stepping < 16 && model < 16 && spare < 16 && extModel < 16 && extFamily < 256
    ensures var revision :=
        id + 0x100 * (stepping + 0x10 * (model + 0x10 * (spare + 0x10 * (extModel + 0x10 * extFamily))));
      A.SignatureOf(revision) == stepping + 0x10 * (model + 0x10 * (0xf + 0x100 * (extModel + 0x10 * extFamily)))
      && A.Family(A.SignatureOf(revision)) == 0xf + extFamily
  {
    hide A.SignatureOf, A.Family;
    var d := extModel + 0x10 * extFamily;
    var c := spare + 0x10 * d;
    var b := model + 0x10 * c;
    var a := stepping + 0x10 * b;
    var revision := id + 0x100 * a;
    Digit(revision, id, 0x100, a);
    Digit(a, stepping, 0x10, b);
    Digit(b, model, 0x10, c);
    Digit(c, spare, 0x10, d);
    Digit(d, extModel, 0x10, extFamily);
    DivDiv(revision, 0x100, 0x10);
    DivDiv(revision, 0x1000, 0x10);
    DivDiv(revision, 0x1_0000, 0x10);
    DivDiv(revision, 0x10_0000, 0x10);
    SignatureDigits(revision, stepping, model, extModel, extFamily);
    FamilyDigits(stepping, model, extModel, extFamily);
  }

  /** From family 17h on the equivalence table does not matter, and before only it does. */
  lemma FitsLaw(patch: seq<Byte>, a: Option<nat>, b: Option<nat>, signature: nat)
    requires |patch| >= 64
    ensures A.Family(signature) >= 0x17 ==> (A.Fits(patch, a, signature) <==> A.Fits(patch, b, signature))
    ensures A.Family(signature) < 0x17 ==> (A.Fits(patch, a, signature) <==> a == Some(U16(patch, 24)))
  {
  }

  /** A patch of a late family fits the processor its identifier names, when it is of its family. */
  lemma LateFits(patch: seq<Byte>, equivalent: Option<nat>, id: nat, stepping: nat, model: nat, spare: nat,
                 extModel: nat, extFamily: nat)
    requires |patch| >= 64 && 8 <= extFamily
    requires id < 256 && stepping < 16 && model < 16 && spare < 16 && extModel < 16 && extFamily < 256
    requires A.Revision(patch) ==
      id + 0x100 * (stepping + 0x10 * (model + 0x10 * (spare + 0x10 * (extModel + 0x10 * extFamily))))
    ensures A.Fits(patch, equivalent, A.SignatureOf(A.Revision(patch))) <==> U16(patch, 24) / 4096 == extFamily
  {
    SignatureLayout(id, stepping, model, spare, extModel, extFamily);
    hide A.SignatureOf, A.Family;
  }

  lemma SignatureDigits(revision: nat, stepping: nat, model: nat, extModel: nat, extFamily: nat)
    requires revision / 0x100 % 0x10 == stepping && revision / 0x1000 % 0x10 == model
    requires revision / 0x10_0000 % 0x10 == extModel && revision / 0x100_0000 == extFamily < 256
    ensures A.SignatureOf(revision) == stepping + 0x10 * (model + 0x10 * (0xf + 0x100 * (extModel + 0x10 * extFamily)))
  {
  }

  lemma FamilyDigits(stepping: nat, model: nat, extModel: nat, extFamily: nat)
    requires stepping < 16 && model < 16 && extModel < 16 && extFamily < 256
    ensures A.Family(stepping + 0x10 * (model + 0x10 * (0xf + 0x100 * (extModel + 0x10 * extFamily))))
      == 0xf + extFamily
  {
    hide A.Family;
    var d := extModel + 0x10 * extFamily;
    var c := 0xf + 0x10 * (0x10 * d);
    var b := model + 0x10 * c;
    var signature := stepping + 0x10 * b;
    Digit(signature, stepping, 0x10, b);
    Digit(b, model, 0x10, c);
    Digit(c, 0xf, 0x10, 0x10 * d);
    Digit(0x10 * d, 0, 0x10, d);
    Digit(d, extModel, 0x10, extFamily);
    DivDiv(signature, 0x10, 0x10);
    DivDiv(signature, 0x100, 0x10);
    DivDiv(signature, 0x1000, 0x10);
    DivDiv(signature, 0x1_0000, 0x10);
    FamilyIs(signature, extFamily);
  }

  lemma FamilyIs(signature: nat, extFamily: nat)
    requires signature / 0x100 % 0x10 == 0xf && signature / 0x10_0000 == extFamily < 256
    ensures A.Family(signature) == 0xf + extFamily
  {
  }
}
