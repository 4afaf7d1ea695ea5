/** When the order of the matching patches in a file decides the verdict, and when it does not. */
module MicrocodeOrder {
  import opened Common
  import opened MicrocodeSelect

  /** What the choice sees of a patch. */
  datatype Item = Item(revision: nat, content: seq<Byte>)

  function ItemsOf(ps: seq<Patch>, file: seq<Byte>): (r: seq<Item>)
    requires AllInFile(ps, file)
    ensures |r| == |ps| && forall i :: 0 <= i < |r| ==> r[i] == Item(ps[i].revision, Content(ps[i], file))
  {
    seq(|ps|, i requires 0 <= i < |ps| => Item(ps[i].revision, Content(ps[i], file)))
  }

  /** The verdict on a list of matching patches: refused, or the revision and bytes to load. */
  function Verdict(ps: seq<Patch>, file: seq<Byte>): Result<Option<Item>>
    requires AllInFile(ps, file)
  {
    match SelectAll(ps, file)
    case Err(e) => Err(e)
    case Ok(None) => Ok(None)
    case Ok(Some(p)) => Ok(Some(Item(p.revision, Content(p, file))))
  }

  // ----- patches at their places in a file

  /** The file holds these bytes from `at` on. */
  predicate Holds(file: seq<Byte>, at: nat, bytes: seq<Byte>) {
    at + |bytes| <= |file| && file[at..at + |bytes|] == bytes
  }

  lemma HoldsParts(file: seq<Byte>, at: nat, a: seq<Byte>, b: seq<Byte>)
    requires Holds(file, at, a + b)
    ensures Holds(file, at, a) && Holds(file, at + |a|, b)
  {
    var ab := a + b;
    assert file[at..at + |a|] == ab[..|a|] == a;
    assert file[at + |a|..at + |a| + |b|] == ab[|a|..] == b;
  }

  lemma ItemsAppend(ps: seq<Patch>, qs: seq<Patch>, file: seq<Byte>)
    requires AllInFile(ps, file) && AllInFile(qs, file)
    ensures AllInFile(ps + qs, file) && ItemsOf(ps + qs, file) == ItemsOf(ps, file) + ItemsOf(qs, file)
  {
  }

  lemma OneItem(p: Patch, file: seq<Byte>, bytes: seq<Byte>)
    requires Holds(file, p.offset, bytes) && p.size == |bytes|
    ensures AllInFile([p], file) && ItemsOf([p], file) == [Item(p.revision, bytes)]
  {
  }

  lemma NoItems(file: seq<Byte>)
    ensures AllInFile([], file) && ItemsOf([], file) == []
  {
  }

  /** What a parser's answer says of a file: refused, or the revision and bytes to load. */
  function VerdictOf(r: Result<Option<Patch>>, file: seq<Byte>): Option<Option<Item>>
    requires r.Ok? && r.value.Some? ==> InFile(r.value.value, file)
  {
    match r
    case Err(_) => None
    case Ok(None) => Some(None)
    case Ok(Some(p)) => Some(Some(Item(p.revision, Content(p, file))))
  }

  // ----- what the verdict depends on

  predicate ItemClash(items: seq<Item>, i: nat, j: nat) {
    && i < j < |items| && items[i].revision == items[j].revision && items[i] != items[j]
    && forall k :: 0 <= k < j ==> items[k].revision <= items[j].revision
  }

  /** The item every other one gives way to. */
  predicate Top(items: seq<Item>, m: Item) {
    && m in items && (forall x :: x in items ==> x.revision <= m.revision)
    && (forall x :: x in items && x.revision == m.revision ==> x == m)
  }

  lemma {:induction false} OnlyAmbiguous(ps: seq<Patch>, file: seq<Byte>)
    requires AllInFile(ps, file) && SelectAll(ps, file).Err?
    ensures SelectAll(ps, file) == Err(Ambiguous)
    decreases |ps|
  {
    if SelectAll(ps[..|ps| - 1], file).Err? { OnlyAmbiguous(ps[..|ps| - 1], file); }
  }

  /** The verdict depends on revisions and contents only. */
  lemma VerdictFails(ps: seq<Patch>, file: seq<Byte>)
    requires AllInFile(ps, file)
    ensures Verdict(ps, file).Err? <==> exists i, j :: ItemClash(ItemsOf(ps, file), i, j)
    ensures Verdict(ps, file).Err? ==> Verdict(ps, file) == Err(Ambiguous)
  {
    hide SelectAll;
    SelectAllFails(ps, file);
    if SelectAll(ps, file).Err? { OnlyAmbiguous(ps, file); }
    forall i: nat, j: nat ensures Clash(ps, file, i, j) <==> ItemClash(ItemsOf(ps, file), i, j) {
      ClashItems(ps, file, i, j);
    }
  }

  lemma ClashItems(ps: seq<Patch>, file: seq<Byte>, i: nat, j: nat)
    requires AllInFile(ps, file)
    ensures Clash(ps, file, i, j) <==> ItemClash(ItemsOf(ps, file), i, j)
  {
  }

  lemma VerdictTops(ps: seq<Patch>, file: seq<Byte>)
    requires AllInFile(ps, file) && Verdict(ps, file).Ok?
    ensures var items := ItemsOf(ps, file);
      match Verdict(ps, file).value
      case None => items == []
      case Some(m) => Top(items, m)
  {
    hide SelectAll;
    SelectAllChosen(ps, file);
    var items := ItemsOf(ps, file);
    match SelectAll(ps, file).value
    case None =>
    case Some(p) =>
      var k :| 0 <= k < |ps| && ps[k] == p;
      assert items[k] == Item(p.revision, Content(p, file));
  }

  // ----- the lists whose order does not matter

  /** No two different patches share a revision, or two different ones share the highest. */
  ghost predicate Settled(items: seq<Item>) {
    || (forall x, y :: x in items && y in items && x.revision == y.revision ==> x == y)
    || (exists x, y :: x in items && y in items && Tied(items, x, y))
  }

  /** Different patches that share the highest revision. */
  ghost predicate Tied(items: seq<Item>, x: Item, y: Item) {
    x.revision == y.revision && x != y && forall z :: z in items ==> z.revision <= x.revision
  }

  lemma SameMembers<T>(a: seq<T>, b: seq<T>)
    requires multiset(a) == multiset(b)
    ensures |a| == |b| && forall x :: x in a <==> x in b
  {
    assert |a| == |multiset(a)| && |b| == |multiset(b)|;
    forall x ensures x in a <==> x in b {
      assert x in a <==> x in multiset(a);
      assert x in b <==> x in multiset(b);
    }
  }

  /** A tie for the highest revision is refused in every order. */
  lemma TiedFails(ps: seq<Patch>, file: seq<Byte>, x: Item, y: Item)
    requires AllInFile(ps, file) && x in ItemsOf(ps, file) && y in ItemsOf(ps, file) && Tied(ItemsOf(ps, file), x, y)
    ensures Verdict(ps, file) == Err(Ambiguous)
  {
    hide Verdict;
    var items := ItemsOf(ps, file);
    VerdictFails(ps, file);
    var i :| 0 <= i < |items| && items[i] == x;
    var j :| 0 <= j < |items| && items[j] == y;
    assert if i < j then ItemClash(items, i, j) else ItemClash(items, j, i);
  }

  /** Without two different patches of one revision nothing clashes. */
  lemma DistinctOk(ps: seq<Patch>, file: seq<Byte>)
    requires AllInFile(ps, file)
    requires forall x, y :: x in ItemsOf(ps, file) && y in ItemsOf(ps, file) && x.revision == y.revision ==> x == y
    ensures Verdict(ps, file).Ok?
  {
    hide Verdict;
    VerdictFails(ps, file);
  }

  lemma TopsAgree(a: seq<Item>, m: Item, b: seq<Item>, n: Item)
    requires Top(a, m) && Top(b, n) && forall x :: x in a <==> x in b
    ensures m == n
  {
  }

  /** Settled lists with the same patches, in any order and in any files, get the same verdict. */
  lemma SettledSame(ps: seq<Patch>, file: seq<Byte>, qs: seq<Patch>, other: seq<Byte>)
    requires AllInFile(ps, file) && AllInFile(qs, other)
    requires multiset(ItemsOf(ps, file)) == multiset(ItemsOf(qs, other)) && Settled(ItemsOf(ps, file))
    ensures Verdict(ps, file) == Verdict(qs, other)
  {
    hide Verdict;
    var a, b := ItemsOf(ps, file), ItemsOf(qs, other);
    SameMembers(a, b);
    hide ItemsOf, Top;
    if x, y :| x in a && y in a && Tied(a, x, y) {
      TiedFails(ps, file, x, y);
      TiedFails(qs, other, x, y);
    } else {
      DistinctOk(ps, file);
      DistinctOk(qs, other);
      VerdictTops(ps, file);
      VerdictTops(qs, other);
      if a != [] { TopsAgree(a, Verdict(ps, file).value.value, b, Verdict(qs, other).value.value); }
    }
  }

  // ----- the lists whose order matters

  function ToFront<T>(s: seq<T>, k: nat): (r: seq<T>)
    requires k < |s|
    ensures |r| == |s| && r[0] == s[k] && forall i :: 0 < i < |r| ==> r[i] == if i <= k then s[i - 1] else s[i]
  {
    [s[k]] + s[..k] + s[k + 1..]
  }

  lemma FrontSame<T>(s: seq<T>, k: nat)
    requires k < |s|
    ensures multiset(ToFront(s, k)) == multiset(s)
  {
    assert s == s[..k] + [s[k]] + s[k + 1..];
  }

  lemma SameInFile(ps: seq<Patch>, qs: seq<Patch>, file: seq<Byte>)
    requires AllInFile(ps, file) && multiset(ps) == multiset(qs)
    ensures AllInFile(qs, file)
  {
    SameMembers(ps, qs);
    forall i | 0 <= i < |qs| ensures InFile(qs[i], file) {
      assert qs[i] in qs && qs[i] in ps;
    }
  }

  lemma PairMoved<T>(s: seq<T>, i: nat, j: nat)
    requires i < j < |s|
    ensures var r := ToFront(ToFront(s, j), i + 1);
      |r| > 1 && multiset(r) == multiset(s) && r[0] == s[i] && r[1] == s[j]
  {
    FrontSame(s, j);
    FrontSame(ToFront(s, j), i + 1);
  }

  lemma FirstTwo(ps: seq<Patch>, file: seq<Byte>)
    requires AllInFile(ps, file) && |ps| > 1 && ps[0].revision == ps[1].revision
    requires Content(ps[0], file) != Content(ps[1], file)
    ensures Verdict(ps, file).Err?
  {
    hide Verdict;
    VerdictFails(ps, file);
    assert ItemClash(ItemsOf(ps, file), 0, 1);
  }

  /** Two different patches of one revision, put first, are refused. */
  lemma PairFirst(ps: seq<Patch>, file: seq<Byte>, i: nat, j: nat) returns (qs: seq<Patch>)
    requires AllInFile(ps, file) && i < j < |ps|
    requires ItemsOf(ps, file)[i].revision == ItemsOf(ps, file)[j].revision
    requires ItemsOf(ps, file)[i] != ItemsOf(ps, file)[j]
    ensures multiset(qs) == multiset(ps) && AllInFile(qs, file) && Verdict(qs, file).Err?
  {
    hide Verdict, ToFront, Content;
    PairMoved(ps, i, j);
    qs := ToFront(ToFront(ps, j), i + 1);
    SameInFile(ps, qs, file);
    FirstTwo(qs, file);
  }

  lemma {:induction false} Highest(items: seq<Item>) returns (k: nat)
    requires items != []
    ensures k < |items| && forall i :: 0 <= i < |items| ==> items[i].revision <= items[k].revision
    decreases |items|
  {
    k := 0;
    if |items| > 1 {
      var n := |items| - 1;
      k := Highest(items[..n]);
      if items[n].revision > items[k].revision { k := n; }
    }
  }

  /** After a newest item only newest items can clash. */
  lemma FrontClash(items: seq<Item>, k: nat, i: nat, j: nat)
    requires k < |items| && (forall x :: x in items ==> x.revision <= items[k].revision)
    requires ItemClash(ToFront(items, k), i, j)
    ensures var x, y := ToFront(items, k)[i], ToFront(items, k)[j]; x in items && y in items && Tied(items, x, y)
  {
    var moved := ToFront(items, k);
    FrontSame(items, k);
    SameMembers(moved, items);
    assert moved[i] in moved && moved[j] in moved;
    assert moved[0].revision <= moved[j].revision;
  }

  lemma MovedItems(ps: seq<Patch>, file: seq<Byte>, k: nat)
    requires AllInFile(ps, file) && k < |ps| && AllInFile(ToFront(ps, k), file)
    ensures ItemsOf(ToFront(ps, k), file) == ToFront(ItemsOf(ps, file), k)
  {
  }

  /** The newest patch, put first, leaves no room for a clash unless it is tied. */
  lemma NewestFirst(ps: seq<Patch>, file: seq<Byte>) returns (qs: seq<Patch>)
    requires AllInFile(ps, file) && ps != [] && !Settled(ItemsOf(ps, file))
    ensures multiset(qs) == multiset(ps) && AllInFile(qs, file) && Verdict(qs, file).Ok?
  {
    hide Verdict, ItemClash, Tied, ToFront, ItemsOf;
    var items := ItemsOf(ps, file);
    var k := Highest(items);
    qs := ToFront(ps, k);
    FrontSame(ps, k);
    SameInFile(ps, qs, file);
    MovedItems(ps, file, k);
    VerdictFails(qs, file);
    if i: nat, j: nat :| ItemClash(ToFront(items, k), i, j) {
      FrontClash(items, k, i, j);
      assert false;
    }
  }

  lemma SamePair(items: seq<Item>) returns (i: nat, j: nat)
    requires !Settled(items)
    ensures i < j < |items| && items[i].revision == items[j].revision && items[i] != items[j]
  {
    hide Tied;
    var x, y :| x in items && y in items && x.revision == y.revision && x != y;
    var m :| 0 <= m < |items| && items[m] == x;
    var n :| 0 <= n < |items| && items[n] == y;
    i, j := if m < n then m else n, if m < n then n else m;
  }

  lemma UnsettledDiffers(ps: seq<Patch>, file: seq<Byte>) returns (qs: seq<Patch>)
    requires AllInFile(ps, file) && !Settled(ItemsOf(ps, file))
    ensures multiset(qs) == multiset(ps) && AllInFile(qs, file) && Verdict(qs, file) != Verdict(ps, file)
  {
    hide Verdict, Settled;
    var i, j := SamePair(ItemsOf(ps, file));
    if Verdict(ps, file).Ok? {
      qs := PairFirst(ps, file, i, j);
    } else {
      qs := NewestFirst(ps, file);
    }
  }

  /** Every order of the matching patches gets the same verdict if and only if no two different
      patches share a revision, or two different ones share the highest. */
  lemma OrderIrrelevantIff(ps: seq<Patch>, file: seq<Byte>)
    requires AllInFile(ps, file)
    ensures Settled(ItemsOf(ps, file)) <==>
      forall qs :: multiset(qs) == multiset(ps) && AllInFile(qs, file) ==> Verdict(qs, file) == Verdict(ps, file)
  {
    hide Verdict, Settled;
    if Settled(ItemsOf(ps, file)) {
      forall qs | multiset(qs) == multiset(ps) && AllInFile(qs, file) ensures Verdict(qs, file) == Verdict(ps, file) {
        SameItems(ps, qs, file);
        SettledSame(ps, file, qs, file);
      }
    } else {
      var qs := UnsettledDiffers(ps, file);
    }
  }

  lemma HeadItem(ps: seq<Patch>, file: seq<Byte>)
    requires AllInFile(ps, file) && ps != []
    ensures AllInFile(ps[1..], file)
    ensures multiset(ItemsOf(ps, file)) == multiset{Item(ps[0].revision, Content(ps[0], file))}
      + multiset(ItemsOf(ps[1..], file))
  {
    assert ItemsOf(ps, file) == [ItemsOf(ps, file)[0]] + ItemsOf(ps[1..], file);
  }

  lemma HeadRest<T>(s: seq<T>)
    requires s != []
    ensures multiset(s) == multiset{s[0]} + multiset(s[1..])
  {
    assert s == [s[0]] + s[1..];
  }

  lemma SameLength<T>(a: seq<T>, b: seq<T>)
    requires multiset(a) == multiset(b)
    ensures |a| == |b|
  {
    assert |a| == |multiset(a)| && |b| == |multiset(b)|;
  }

  lemma SamePlace<T>(a: seq<T>, b: seq<T>) returns (k: nat)
    requires multiset(a) == multiset(b) && a != []
    ensures k < |b| && b[k] == a[0]
  {
    SameMembers(a, b);
    assert a[0] in b;
    k :| 0 <= k < |b| && b[k] == a[0];
  }

  lemma SameRest<T>(a: seq<T>, b: seq<T>)
    requires multiset(a) == multiset(b) && a != [] && b != [] && a[0] == b[0]
    ensures multiset(a[1..]) == multiset(b[1..])
  {
    HeadRest(a);
    HeadRest(b);
    assert multiset(a[1..]) == multiset(a) - multiset{a[0]};
  }

  /** The same patches are the same items. */
  lemma {:induction false} SameItems(ps: seq<Patch>, qs: seq<Patch>, file: seq<Byte>)
    requires AllInFile(ps, file) && AllInFile(qs, file) && multiset(ps) == multiset(qs)
    ensures multiset(ItemsOf(ps, file)) == multiset(ItemsOf(qs, file))
    decreases |ps|
  {
    hide *;
    SameLength(ps, qs);
    if ps == [] {
      assert qs == ps;
    } else {
      var k := SamePlace(ps, qs);
      var moved := ToFront(qs, k);
      FrontSame(qs, k);
      SameInFile(qs, moved, file);
      SameRest(ps, moved);
      HeadItem(ps, file);
      HeadItem(moved, file);
      SameItems(ps[1..], moved[1..], file);
      MovedItems(qs, file, k);
      FrontSame(ItemsOf(qs, file), k);
    }
  }
}
