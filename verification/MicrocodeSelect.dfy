/** Words and checksums of microcode files, and the choice among matching patches. */
module MicrocodeSelect {
  import opened Common

  datatype Error = Truncated | Format | Checksum | Ambiguous
  datatype Result<T> = Ok(value: T) | Err(error: Error)

  const MAX_FILE: nat := 131072
  const WORD: nat := 0x1_0000_0000

  function U32(b: seq<Byte>, at: nat): (r: nat)
    requires at + 4 <= |b|
    ensures r < WORD
  {
    b[at] as int + 256 * b[at + 1] as int + 65536 * b[at + 2] as int + 16777216 * b[at + 3] as int
  }

  function U16(b: seq<Byte>, at: nat): (r: nat)
    requires at + 2 <= |b|
    ensures r < 65536
  {
    b[at] as int + 256 * b[at + 1] as int
  }

  /** The sum of the first n words, modulo 2^32. */
  function Sum(b: seq<Byte>, n: nat): (r: nat)
    requires 4 * n <= |b|
    ensures r < WORD
  {
    if n == 0 then 0 else (Sum(b, n - 1) + U32(b, 4 * (n - 1))) % WORD
  }

  lemma {:induction false} SumPrefix(a: seq<Byte>, b: seq<Byte>, n: nat)
    requires 4 * n <= |a| == |b| && a[..4 * n] == b[..4 * n]
    ensures Sum(a, n) == Sum(b, n)
  {
    if n > 0 {
      assert a[..4 * (n - 1)] == a[..4 * n][..4 * (n - 1)] && b[..4 * (n - 1)] == b[..4 * n][..4 * (n - 1)];
      SumPrefix(a, b, n - 1);
      SameWord(a, b, 4 * (n - 1), 4 * n);
    }
  }

  lemma SameWord(a: seq<Byte>, b: seq<Byte>, at: nat, end: nat)
    requires at + 4 == end <= |a| == |b| && a[..end] == b[..end]
    ensures U32(a, at) == U32(b, at)
  {
    assert forall i :: 0 <= i < end ==> a[i] == a[..end][i] == b[i];
  }

  /** The strings are equal apart from byte k. */
  predicate DifferOnlyAt(a: seq<Byte>, b: seq<Byte>, k: nat) {
    k < |a| == |b| && a[k] != b[k] && forall i :: 0 <= i < |a| && i != k ==> a[i] == b[i]
  }

  /** The checksum detects every change of a single byte. */
  lemma {:induction false} SumDetects(a: seq<Byte>, b: seq<Byte>, k: nat, n: nat)
    requires DifferOnlyAt(a, b, k) && k < 4 * n <= |a|
    ensures Sum(a, n) != Sum(b, n)
  {
    hide U32;
    var at := 4 * (n - 1);
    if k < at {
      SumDetects(a, b, k, n - 1);
      SameTail(a, b, k, at);
      SameShift(Sum(a, n - 1), Sum(b, n - 1), U32(a, at));
    } else {
      assert a[..at] == b[..at];
      SumPrefix(a, b, n - 1);
      WordDiffers(a, b, k, at);
      SameShift(U32(a, at), U32(b, at), Sum(a, n - 1));
    }
  }

  lemma SameTail(a: seq<Byte>, b: seq<Byte>, k: nat, at: nat)
    requires DifferOnlyAt(a, b, k) && k < at && at + 4 <= |a|
    ensures U32(a, at) == U32(b, at)
  {
  }

  lemma WordDiffers(a: seq<Byte>, b: seq<Byte>, k: nat, at: nat)
    requires DifferOnlyAt(a, b, k) && at <= k < at + 4 <= |a|
    ensures U32(a, at) != U32(b, at)
  {
  }

  /** Adding the same word keeps two words apart. */
  lemma SameShift(x: nat, y: nat, z: nat)
    requires x < WORD && y < WORD && z < WORD && x != y
    ensures (x + z) % WORD != (y + z) % WORD && (z + x) % WORD != (z + y) % WORD
  {
  }

  method WordSum(b: seq<Byte>) returns (total: nat)
    requires |b| % 4 == 0
    ensures total == Sum(b, |b| / 4)
  {
    total := 0;
    for n := 0 to |b| / 4
      invariant total == Sum(b, n)
    {
      total := (total + U32(b, 4 * n)) % WORD;
    }
  }

  predicate Zeros(b: seq<Byte>) {
    forall i :: 0 <= i < |b| ==> b[i] == 0
  }

  // ----- the choice

  datatype Patch = Patch(offset: nat, size: nat, revision: nat)

  predicate InFile(p: Patch, file: seq<Byte>) {
    p.offset + p.size <= |file|
  }

  function Content(p: Patch, file: seq<Byte>): seq<Byte>
    requires InFile(p, file)
  {
    file[p.offset..p.offset + p.size]
  }

  /** One more matching patch. */
  function Select(best: Option<Patch>, p: Patch, file: seq<Byte>): Result<Option<Patch>>
    requires InFile(p, file) && (best.Some? ==> InFile(best.value, file))
  {
    if best.None? || best.value.revision < p.revision then Ok(Some(p))
    else if best.value.revision > p.revision || Content(best.value, file) == Content(p, file) then Ok(best)
    else Err(Ambiguous)
  }

  predicate AllInFile(ps: seq<Patch>, file: seq<Byte>) {
    forall i :: 0 <= i < |ps| ==> InFile(ps[i], file)
  }

  /** The choice among all matching patches, in file order. */
  function SelectAll(ps: seq<Patch>, file: seq<Byte>): (r: Result<Option<Patch>>)
    requires AllInFile(ps, file)
    ensures r.Ok? && r.value.Some? ==> InFile(r.value.value, file)
  {
    if ps == [] then Ok(None)
    else
      var r := SelectAll(ps[..|ps| - 1], file);
      if r.Err? then r else Select(r.value, ps[|ps| - 1], file)
  }

  /** A chosen patch is one of the matching ones, of the highest revision, and identical to every
      other matching patch of that revision. */
  predicate Chosen(ps: seq<Patch>, file: seq<Byte>, best: Option<Patch>)
    requires AllInFile(ps, file)
  {
    match best
    case None => ps == []
    case Some(p) =>
      && p in ps && InFile(p, file)
      && (forall i :: 0 <= i < |ps| ==> ps[i].revision <= p.revision)
      && (forall i :: 0 <= i < |ps| && ps[i].revision == p.revision ==> Content(ps[i], file) == Content(p, file))
  }

  lemma {:induction false} SelectAllChosen(ps: seq<Patch>, file: seq<Byte>)
    requires AllInFile(ps, file) && SelectAll(ps, file).Ok?
    ensures Chosen(ps, file, SelectAll(ps, file).value)
    decreases |ps|
  {
    if ps != [] {
      var init, last := ps[..|ps| - 1], ps[|ps| - 1];
      assert ps == init + [last];
      SelectAllChosen(init, file);
    }
  }

  /** Two different patches of one revision, none of a higher revision before the later one. */
  predicate Clash(ps: seq<Patch>, file: seq<Byte>, i: nat, j: nat)
    requires AllInFile(ps, file)
  {
    && i < j < |ps| && ps[i].revision == ps[j].revision && Content(ps[i], file) != Content(ps[j], file)
    && forall k :: 0 <= k < j ==> ps[k].revision <= ps[j].revision
  }

  /** The choice fails exactly when two patches clash. */
  lemma {:induction false} SelectAllFails(ps: seq<Patch>, file: seq<Byte>)
    requires AllInFile(ps, file)
    ensures SelectAll(ps, file).Err? <==> exists i, j :: Clash(ps, file, i, j)
    decreases |ps|
  {
    if ps != [] {
      var n := |ps| - 1;
      var init, last := ps[..n], ps[n];
      SelectAllFails(init, file);
      var r := SelectAll(init, file);
      if r.Err? {
        var i, j :| Clash(init, file, i, j);
        assert Clash(ps, file, i, j);
      } else {
        SelectAllChosen(init, file);
        if SelectAll(ps, file).Err? {
          var i :| 0 <= i < n && init[i] == r.value.value;
          assert Clash(ps, file, i, n);
        } else {
          forall i, j | Clash(ps, file, i, j) ensures false {
            NoClash(ps, file, i, j);
          }
        }
      }
    }
  }

  lemma NoClash(ps: seq<Patch>, file: seq<Byte>, i: nat, j: nat)
    requires ps != [] && AllInFile(ps, file) && Clash(ps, file, i, j)
    requires var init := ps[..|ps| - 1];
      SelectAll(init, file).Ok? && Chosen(init, file, SelectAll(init, file).value) &&
          !exists i, j :: Clash(init, file, i, j)
    ensures SelectAll(ps, file).Err?
  {
    var init := ps[..|ps| - 1];
    if j < |init| {
      assert Clash(init, file, i, j);
    } else {
      var p := SelectAll(init, file).value.value;
      assert init[i] == ps[i] && ps[i].revision <= p.revision;
      var k :| 0 <= k < |init| && init[k] == p;
      assert ps[k].revision <= ps[j].revision;
    }
  }

  lemma NextChoice(ps: seq<Patch>, p: Patch, file: seq<Byte>)
    requires AllInFile(ps, file) && InFile(p, file)
    ensures AllInFile(ps + [p], file)
    ensures SelectAll(ps, file).Ok? ==> SelectAll(ps + [p], file) == Select(SelectAll(ps, file).value, p, file)
  {
    assert (ps + [p])[..|ps|] == ps;
  }

  /** An ambiguous prefix makes the whole list ambiguous. */
  lemma {:induction false} FailStays(ps: seq<Patch>, more: seq<Patch>, file: seq<Byte>)
    requires AllInFile(ps, file) && AllInFile(ps + more, file) && SelectAll(ps, file).Err?
    ensures SelectAll(ps + more, file).Err?
    decreases |more|
  {
    if more == [] {
      assert ps + more == ps;
    } else {
      var init := more[..|more| - 1];
      assert (ps + more)[..|ps + more| - 1] == ps + init;
      FailStays(ps, init, file);
    }
  }
}
