/**
 The storage page's list of physical disks: views are objects that the page keeps across
 updates, matched to the disks of an update by serial number.
 */
module StorageViewModel {
  import opened Options
  import opened Sequences

  /** What an update says of a physical disk; `shown` stands for everything that is not matched on. */
  datatype SmartData = SmartData(serialNumber: string, logicalDriveLetters: Option<seq<char>>, shown: nat)

  datatype DiskData = DiskData(letter: char, caption: string)

  const NO_LETTER: char := 0 as char

  class PhysicalDiskView {
    var disk: SmartData
    var partitions: seq<DiskData>

    constructor (disk: SmartData)
      ensures this.disk == disk && partitions == []
    {
      this.disk, partitions := disk, [];
    }
  }

  // ----- what an update makes of the list ---------------------------------------

  function SerialsOf(disks: seq<SmartData>): set<string> {
    set d | d in disks :: d.serialNumber
  }

  predicate Distinct<T(==)>(s: seq<T>) { forall i, j | 0 <= i < j < |s| :: s[i] != s[j] }

  /** The disks of an update that no view had, in the update's order. */
  function New(known: set<string>, disks: seq<SmartData>): (r: seq<SmartData>)
    ensures |r| <= |disks|
  {
    if disks == [] then []
    else
      var n := |disks| - 1;
      New(known, disks[..n]) + (if disks[n].serialNumber in known then [] else [disks[n]])
  }

  /** What a view shows after an update: the last disk of its serial number, if there is one. */
  function Latest(disks: seq<SmartData>, shown: SmartData): (r: SmartData)
    ensures r.serialNumber == shown.serialNumber
  {
    if disks == [] then shown
    else
      var n := |disks| - 1;
      if disks[n].serialNumber == shown.serialNumber then disks[n] else Latest(disks[..n], shown)
  }

  function LatestAll(disks: seq<SmartData>, shown: seq<SmartData>): (r: seq<SmartData>)
    ensures |r| == |shown|
  {
    seq(|shown|, k requires 0 <= k < |shown| => Latest(disks, shown[k]))
  }

  /** No two disks have one serial number. */
  predicate Unique(disks: seq<SmartData>) {
    forall i, j | 0 <= i < j < |disks| :: disks[i].serialNumber != disks[j].serialNumber
  }

  /** The views whose serial number is among those alive, in order. */
  function Kept(views: seq<PhysicalDiskView>, shown: seq<SmartData>, alive: set<string>): seq<PhysicalDiskView>
    requires |views| == |shown|
  {
    if views == [] then []
    else (if shown[0].serialNumber in alive then [views[0]] else []) + Kept(views[1..], shown[1..], alive)
  }

  /** The lettered volume of a drive letter. */
  function Find(disks: seq<DiskData>, letter: char): Option<DiskData> {
    if disks == [] then None
    else if disks[0].letter != NO_LETTER && disks[0].letter == letter then Some(disks[0])
    else Find(disks[1..], letter)
  }

  function Lettered(disks: seq<DiskData>): seq<char> {
    if disks == [] then []
    else
      var n := |disks| - 1;
      Lettered(disks[..n]) + (if disks[n].letter == NO_LETTER then [] else [disks[n].letter])
  }

  /** The volumes of a disk's drive letters, in the letters' order. */
  function Matched(letters: seq<char>, disks: seq<DiskData>): seq<DiskData> {
    if letters == [] then []
    else
      var n := |letters| - 1;
      Matched(letters[..n], disks) + (match Find(disks, letters[n]) case None => [] case Some(d) => [d])
  }

  function Volumes(disk: SmartData, disks: seq<DiskData>): seq<DiskData> {
    match disk.logicalDriveLetters
    case None => []
    case Some(letters) => Matched(letters, disks)
  }

  lemma {:induction false} KeptConcat(a: seq<PhysicalDiskView>, s: seq<SmartData>, b: seq<PhysicalDiskView>, t: seq<SmartData>, alive: set<string>)
    requires |a| == |s| && |b| == |t|
    ensures Kept(a + b, s + t, alive) == Kept(a, s, alive) + Kept(b, t, alive)
  {
    var views, shown := a + b, s + t;
    if a == [] {
      assert views == b && shown == t;
    } else {
      var head := if s[0].serialNumber in alive then [a[0]] else [];
      assert views[1..] == a[1..] + b && shown[1..] == s[1..] + t;
      KeptConcat(a[1..], s[1..], b, t, alive);
      assert Kept(views, shown, alive) == head + (Kept(a[1..], s[1..], alive) + Kept(b, t, alive));
      assert Kept(a, s, alive) == head + Kept(a[1..], s[1..], alive);
    }
  }

  lemma {:induction false} KeptAll(a: seq<PhysicalDiskView>, s: seq<SmartData>, alive: set<string>)
    requires |a| == |s| && forall d <- s :: d.serialNumber in alive
    ensures Kept(a, s, alive) == a
  {
    if a != [] {
      KeptAll(a[1..], s[1..], alive);
    }
  }

  /** Any two kept views are two of the views, in the same order. */
  lemma {:induction false} KeptOrder(views: seq<PhysicalDiskView>, shown: seq<SmartData>, alive: set<string>, i: nat, j: nat)
    returns (a: nat, b: nat)
    requires |views| == |shown| && i <= j < |Kept(views, shown, alive)|
    ensures a <= b < |views| && (i < j ==> a < b)
    ensures Kept(views, shown, alive)[i] == views[a] && Kept(views, shown, alive)[j] == views[b]
    ensures shown[a].serialNumber in alive && shown[b].serialNumber in alive
  {
    if shown[0].serialNumber !in alive {
      a, b := KeptOrder(views[1..], shown[1..], alive, i, j);
      a, b := a + 1, b + 1;
    } else if j == 0 {
      a, b := 0, 0;
    } else {
      a, b := KeptOrder(views[1..], shown[1..], alive, if i == 0 then 0 else i - 1, j - 1);
      a, b := if i == 0 then 0 else a + 1, b + 1;
    }
  }

  /** A view is kept exactly if what it showed is among those alive. */
  lemma {:induction false} KeptMembers(views: seq<PhysicalDiskView>, shown: seq<SmartData>, alive: set<string>)
    requires |views| == |shown| && Distinct(views)
    ensures forall k | 0 <= k < |views| :: views[k] in Kept(views, shown, alive) <==> shown[k].serialNumber in alive
  {
    if views != [] {
      var rest := views[1..];
      KeptMembers(rest, shown[1..], alive);
      KeptWithin(rest, shown[1..], alive);
      assert views[0] !in rest;
      forall k | 0 < k < |views|
        ensures views[k] in Kept(views, shown, alive) <==> shown[k].serialNumber in alive
      {
        assert views[k] == rest[k - 1] && shown[k] == shown[1..][k - 1] && views[k] != views[0];
      }
    }
  }

  lemma StayExactly(views: seq<PhysicalDiskView>, shown: seq<SmartData>, more: seq<PhysicalDiskView>, alive: set<string>)
    requires |views| == |shown| && Distinct(views) && forall v <- more :: v !in views
    ensures forall k | 0 <= k < |views| :: views[k] in Kept(views, shown, alive) + more <==> shown[k].serialNumber in alive
  {
    hide Kept;
    KeptMembers(views, shown, alive);
  }

  /** The new disks come from the update and were not known. */
  lemma {:induction false} NewAreNew(known: set<string>, disks: seq<SmartData>)
    ensures forall d <- New(known, disks) :: d in disks && d.serialNumber !in known
    ensures forall d <- disks :: d.serialNumber in known || d in New(known, disks)
  {
    if disks != [] {
      NewAreNew(known, disks[..|disks| - 1]);
    }
  }

  lemma NoDisks(known: set<string>, shown: seq<SmartData>)
    ensures New(known, []) == [] && SerialsOf([]) == {} && LatestAll([], shown) == shown
  {
  }

  lemma OneMoreDisk(known: set<string>, disks: seq<SmartData>, i: nat)
    requires i < |disks|
    ensures New(known, disks[..i + 1]) == New(known, disks[..i]) + (if disks[i].serialNumber in known then [] else [disks[i]])
    ensures SerialsOf(disks[..i + 1]) == SerialsOf(disks[..i]) + {disks[i].serialNumber}
    ensures forall d: SmartData ::
      Latest(disks[..i + 1], d) == (if disks[i].serialNumber == d.serialNumber then disks[i] else Latest(disks[..i], d))
  {
    assert disks[..i + 1][..i] == disks[..i];
  }

  lemma LatestAllSame(disks: seq<SmartData>, shown: seq<SmartData>, i: nat)
    requires i < |disks| && disks[i].serialNumber !in SerialsOf(shown)
    ensures LatestAll(disks[..i + 1], shown) == LatestAll(disks[..i], shown)
  {
    OneMoreDisk({}, disks, i);
    assert forall k | 0 <= k < |shown| :: shown[k].serialNumber in SerialsOf(shown);
  }

  lemma LatestAllOne(disks: seq<SmartData>, shown: seq<SmartData>, i: nat, k: nat)
    requires i < |disks| && k < |shown| && shown[k].serialNumber == disks[i].serialNumber && Unique(shown)
    ensures LatestAll(disks[..i + 1], shown) == LatestAll(disks[..i], shown)[k := disks[i]]
  {
    OneMoreDisk({}, disks, i);
  }

  lemma {:induction false} KeptBySerial(views: seq<PhysicalDiskView>, s: seq<SmartData>, t: seq<SmartData>, alive: set<string>)
    requires |views| == |s| == |t| && forall k | 0 <= k < |s| :: s[k].serialNumber == t[k].serialNumber
    ensures Kept(views, s, alive) == Kept(views, t, alive)
  {
    if views != [] {
      KeptBySerial(views[1..], s[1..], t[1..], alive);
    }
  }

  lemma KeptAfterUpdate(
    views: seq<PhysicalDiskView>, shown: seq<SmartData>, more: seq<PhysicalDiskView>, disks: seq<SmartData>, known: set<string>)
    requires |views| == |shown| && |more| == |New(known, disks)|
    ensures Kept(views + more, LatestAll(disks, shown) + New(known, disks), SerialsOf(disks))
      == Kept(views, shown, SerialsOf(disks)) + more
    ensures Filter(LatestAll(disks, shown) + New(known, disks), SerialsOf(disks))
      == Filter(LatestAll(disks, shown), SerialsOf(disks)) + New(known, disks)
  {
    hide Latest, New, Kept, Filter;
    var added, alive := New(known, disks), SerialsOf(disks);
    NewAreNew(known, disks);
    assert forall d <- added :: d.serialNumber in alive;
    KeptConcat(views, LatestAll(disks, shown), more, added, alive);
    KeptAll(more, added, alive);
    FilterConcat(LatestAll(disks, shown), added, alive);
    FilterAll(added, alive);
    KeptBySerial(views, LatestAll(disks, shown), shown, alive);
  }

  lemma KeptDistinct(views: seq<PhysicalDiskView>, shown: seq<SmartData>, alive: set<string>)
    requires |views| == |shown| && Distinct(views)
    ensures Distinct(Kept(views, shown, alive))
  {
    hide Kept;
    var kept := Kept(views, shown, alive);
    forall i, j | 0 <= i < j < |kept|
      ensures kept[i] != kept[j]
    {
      var a, b := KeptOrder(views, shown, alive, i, j);
    }
  }

  lemma KeptWithin(views: seq<PhysicalDiskView>, shown: seq<SmartData>, alive: set<string>)
    requires |views| == |shown|
    ensures forall v <- Kept(views, shown, alive) :: v in views
  {
    hide Kept;
    var kept := Kept(views, shown, alive);
    forall i | 0 <= i < |kept|
      ensures kept[i] in views
    {
      var a, b := KeptOrder(views, shown, alive, i, i);
    }
  }

  lemma {:induction false} KeptShows(views: seq<PhysicalDiskView>, shown: seq<SmartData>, alive: set<string>)
    requires |views| == |shown| && forall k | 0 <= k < |views| :: views[k].disk == shown[k]
    ensures var kept, filtered := Kept(views, shown, alive), Filter(shown, alive);
      |kept| == |filtered| && forall k | 0 <= k < |kept| :: kept[k].disk == filtered[k]
  {
    if views != [] {
      KeptShows(views[1..], shown[1..], alive);
    }
  }

  /** The kept views from place `i` on. */
  function KeptBehind(views: seq<PhysicalDiskView>, shown: seq<SmartData>, i: nat, alive: set<string>): seq<PhysicalDiskView>
    requires |views| == |shown| && i <= |views|
  {
    Kept(views[i..], shown[i..], alive)
  }

  lemma KeptEnds(views: seq<PhysicalDiskView>, shown: seq<SmartData>, alive: set<string>)
    requires |views| == |shown|
    ensures views[..|views|] + KeptBehind(views, shown, |views|, alive) == views
    ensures views[..0] + KeptBehind(views, shown, 0, alive) == Kept(views, shown, alive)
  {
    assert views[0..] == views && shown[0..] == shown;
  }

  lemma KeptFrom(views: seq<PhysicalDiskView>, shown: seq<SmartData>, i: nat, alive: set<string>)
    requires |views| == |shown| && i < |views|
    ensures KeptBehind(views, shown, i, alive)
      == (if shown[i].serialNumber in alive then [views[i]] else []) + KeptBehind(views, shown, i + 1, alive)
  {
    assert views[i..][1..] == views[i + 1..] && shown[i..][1..] == shown[i + 1..];
  }

  /** A sequence with the views from `i + 1` on replaced, with and without view `i`. */
  lemma Around(views: seq<PhysicalDiskView>, i: nat, rest: seq<PhysicalDiskView>)
    requires i < |views|
    ensures var s := views[..i + 1] + rest;
      s[i] == views[i] && s[..i] + s[i + 1..] == views[..i] + rest && s == views[..i] + ([views[i]] + rest)
  {
  }

  lemma NoneShown(shown: seq<SmartData>)
    ensures Unique(shown[..0]) && SerialsOf(shown[..0]) == {}
  {
  }

  lemma OneMoreShown(shown: seq<SmartData>, i: nat)
    requires i < |shown| && Unique(shown[..i])
    ensures SerialsOf(shown[..i + 1]) == SerialsOf(shown[..i]) + {shown[i].serialNumber}
    ensures shown[i].serialNumber !in SerialsOf(shown[..i]) ==> Unique(shown[..i + 1])
    ensures shown[i].serialNumber in SerialsOf(shown[..i]) ==> !Unique(shown)
  {
    assert shown[..i + 1] == shown[..i] + [shown[i]];
    assert forall k | 0 <= k < i :: shown[k] in shown[..i];
    if shown[i].serialNumber in SerialsOf(shown[..i]) {
      var k := Position(shown[..i], shown[i].serialNumber);
      assert shown[k].serialNumber == shown[i].serialNumber;
    }
  }

  lemma Position(disks: seq<SmartData>, serial: string) returns (k: nat)
    requires serial in SerialsOf(disks)
    ensures k < |disks| && disks[k].serialNumber == serial
  {
    var d :| d in disks && d.serialNumber == serial;
    k :| 0 <= k < |disks| && disks[k] == d;
  }

  lemma {:induction false} FindLettered(disks: seq<DiskData>, letter: char)
    ensures Find(disks, letter).Some? ==> Find(disks, letter).value in disks && Find(disks, letter).value.letter == letter != NO_LETTER
    ensures Find(disks, letter).None? ==> forall d <- disks :: d.letter == NO_LETTER || d.letter != letter
  {
    if disks != [] {
      FindLettered(disks[1..], letter);
    }
  }

  lemma {:induction false} LettersOf(disks: seq<DiskData>, d: DiskData)
    requires d in disks && d.letter != NO_LETTER
    ensures d.letter in Lettered(disks)
    decreases |disks|
  {
    var n := |disks| - 1;
    if d != disks[n] {
      LettersOf(disks[..n], d);
    }
  }

  lemma {:induction false} SameLetter(disks: seq<DiskData>, d: DiskData, e: DiskData)
    requires Distinct(Lettered(disks)) && d in disks && e in disks && d.letter == e.letter != NO_LETTER
    ensures d == e
    decreases |disks|
  {
    var n := |disks| - 1;
    var front := Lettered(disks[..n]);
    assert Lettered(disks)[..|front|] == front;
    if d != disks[n] && e != disks[n] {
      assert forall i, j | 0 <= i < j < |front| :: Lettered(disks)[i] != Lettered(disks)[j];
      SameLetter(disks[..n], d, e);
    } else if d != e {
      LettersOf(disks[..n], if d == disks[n] then e else d);
      OneMore(front, d.letter);
    }
  }

  /** A disk's partitions are the volumes whose drive letter it names, and no others. */
  lemma {:induction false} MatchedExactly(letters: seq<char>, disks: seq<DiskData>)
    requires Distinct(Lettered(disks))
    ensures forall d :: d in Matched(letters, disks) <==> d in disks && d.letter != NO_LETTER && d.letter in letters
    decreases |letters|
  {
    hide Distinct, Lettered, Find;
    if letters != [] {
      var n := |letters| - 1;
      MatchedExactly(letters[..n], disks);
      FindLettered(disks, letters[n]);
      forall d | d in disks && d.letter == letters[n] != NO_LETTER
        ensures Find(disks, letters[n]) == Some(d)
      {
        SameLetter(disks, d, Find(disks, letters[n]).value);
      }
    }
  }

  /** These volumes answer the letters at rising places, which are all the letters that some volume answers. */
  predicate AnswersAt(at: seq<nat>, letters: seq<char>, disks: seq<DiskData>, volumes: seq<DiskData>) {
    && |at| == |volumes|
    && (forall i, j | 0 <= i < j < |at| :: at[i] < at[j])
    && (forall i | 0 <= i < |at| :: at[i] < |letters| && volumes[i].letter == letters[at[i]] && volumes[i] in disks)
    && (forall k, d | 0 <= k < |letters| && d in disks && d.letter == letters[k] != NO_LETTER :: k in at)
  }

  /** A disk's partitions stand in the order of its letters. */
  lemma {:induction false} MatchedInOrder(letters: seq<char>, disks: seq<DiskData>)
    ensures exists at: seq<nat> :: AnswersAt(at, letters, disks, Matched(letters, disks))
  {
    hide AnswersAt, Find;
    var at: seq<nat> := [];
    if letters == [] {
      NoLetters(disks);
    } else {
      var n := |letters| - 1;
      MatchedInOrder(letters[..n], disks);
      at :| AnswersAt(at, letters[..n], disks, Matched(letters[..n], disks));
      OneMoreLetter(at, letters[..n], disks, Matched(letters[..n], disks), letters[n]);
      assert letters == letters[..n] + [letters[n]];
      at := if Find(disks, letters[n]).Some? then at + [n] else at;
    }
    assert AnswersAt(at, letters, disks, Matched(letters, disks));
  }

  lemma NoLetters(disks: seq<DiskData>)
    ensures AnswersAt([], [], disks, [])
  {
  }

  lemma OneMoreLetter(at: seq<nat>, letters: seq<char>, disks: seq<DiskData>, volumes: seq<DiskData>, letter: char)
    requires AnswersAt(at, letters, disks, volumes)
    ensures Find(disks, letter).Some? ==>
      AnswersAt(at + [|letters|], letters + [letter], disks, volumes + [Find(disks, letter).value])
    ensures Find(disks, letter).None? ==> AnswersAt(at, letters + [letter], disks, volumes + [])
  {
    hide Find;
    FindLettered(disks, letter);
  }

  /** What the kept views show, in order. */
  function Filter(shown: seq<SmartData>, alive: set<string>): seq<SmartData> {
    if shown == [] then []
    else (if shown[0].serialNumber in alive then [shown[0]] else []) + Filter(shown[1..], alive)
  }

  /** What the page shows after an update that finds every serial number shown once. */
  function Page(shown: seq<SmartData>, disks: seq<SmartData>): seq<SmartData> {
    Filter(LatestAll(disks, shown), SerialsOf(disks)) + New(SerialsOf(shown), disks)
  }

  function Serials(disks: seq<SmartData>): (r: seq<string>)
    ensures |r| == |disks|
  {
    seq(|disks|, k requires 0 <= k < |disks| => disks[k].serialNumber)
  }

  function AmongSerials(serials: set<string>): string -> bool { (serial: string) => serial in serials }

  function Unknown(known: set<string>): SmartData -> bool { (d: SmartData) => d.serialNumber !in known }

  /** The last disk of its serial number in an update. */
  predicate IsLast(disks: seq<SmartData>, d: SmartData) {
    exists j | 0 <= j < |disks| :: disks[j] == d && forall i | j < i < |disks| :: disks[i].serialNumber != d.serialNumber
  }

  /**
   The page after an update: first the serial numbers it showed that the update has, in their old
   order, each showing the last disk of its number; then the update's disks that were not shown, in
   the update's order.
   */
  ghost predicate IsPage(shown: seq<SmartData>, disks: seq<SmartData>, page: seq<SmartData>) {
    exists kept, added ::
      && page == kept + added
      && Selects(Serials(shown), Serials(kept), AmongSerials(SerialsOf(disks))) && (forall d <- kept :: IsLast(disks, d))
      && Selects(disks, added, Unknown(SerialsOf(shown)))
  }

  lemma PageIs(shown: seq<SmartData>, disks: seq<SmartData>)
    ensures IsPage(shown, disks, Page(shown, disks))
  {
    hide Latest, New, Filter, Selects, IsLast, SerialsOf;
    var kept, added := Filter(LatestAll(disks, shown), SerialsOf(disks)), New(SerialsOf(shown), disks);
    FilterSelects(LatestAll(disks, shown), SerialsOf(disks));
    assert Serials(LatestAll(disks, shown)) == Serials(shown);
    LatestAreLast(disks, shown);
    NewSelects(SerialsOf(shown), disks);
  }

  lemma {:induction false} NewSelects(known: set<string>, disks: seq<SmartData>)
    ensures Selects(disks, New(known, disks), Unknown(known))
  {
    if disks == [] {
      SelectsNone(Unknown(known));
    } else {
      var n := |disks| - 1;
      NewSelects(known, disks[..n]);
      SelectsMore(disks[..n], New(known, disks[..n]), disks[n], Unknown(known));
      assert disks == disks[..n] + [disks[n]];
    }
  }

  lemma {:induction false} FilterSelects(s: seq<SmartData>, alive: set<string>)
    ensures Selects(Serials(s), Serials(Filter(s, alive)), AmongSerials(alive))
    decreases |s|
  {
    hide Selects;
    if s == [] {
      SelectsNone(AmongSerials(alive));
      assert Serials([]) == [];
    } else {
      var n := |s| - 1;
      FilterSelects(s[..n], alive);
      SelectsMore(Serials(s[..n]), Serials(Filter(s[..n], alive)), s[n].serialNumber, AmongSerials(alive));
      assert s == s[..n] + [s[n]];
      FilterConcat(s[..n], [s[n]], alive);
      FilterOne(s[n], alive);
      assert Serials(s) == Serials(s[..n]) + [s[n].serialNumber];
      var more := if s[n].serialNumber in alive then [s[n]] else [];
      assert Serials(Filter(s[..n], alive) + more) == Serials(Filter(s[..n], alive)) + Serials(more);
    }
  }

  lemma FilterOne(d: SmartData, alive: set<string>)
    ensures Filter([d], alive) == if d.serialNumber in alive then [d] else []
    ensures Serials([d]) == [d.serialNumber] && Serials([]) == []
  {
  }

  lemma LatestAreLast(disks: seq<SmartData>, shown: seq<SmartData>)
    ensures forall d <- Filter(LatestAll(disks, shown), SerialsOf(disks)) :: IsLast(disks, d)
  {
    hide Filter, Latest, IsLast;
    var all := LatestAll(disks, shown);
    forall d | d in Filter(all, SerialsOf(disks))
      ensures IsLast(disks, d)
    {
      FilterWithin(all, SerialsOf(disks));
      var k :| 0 <= k < |all| && all[k] == d;
      LatestIsLast(disks, shown[k]);
    }
  }

  lemma {:induction false} FilterWithin(s: seq<SmartData>, alive: set<string>)
    ensures forall d <- Filter(s, alive) :: d in s && d.serialNumber in alive
  {
    if s != [] {
      FilterWithin(s[1..], alive);
    }
  }

  lemma {:induction false} LatestIsLast(disks: seq<SmartData>, d: SmartData)
    requires d.serialNumber in SerialsOf(disks)
    ensures IsLast(disks, Latest(disks, d))
  {
    var n := |disks| - 1;
    if disks[n].serialNumber == d.serialNumber {
      assert disks[n] == Latest(disks, d);
    } else {
      var e :| e in disks && e.serialNumber == d.serialNumber;
      assert e in disks[..n];
      LatestIsLast(disks[..n], d);
      var j :| 0 <= j < n && disks[..n][j] == Latest(disks[..n], d)
        && forall i | j < i < n :: disks[..n][i].serialNumber != d.serialNumber;
      assert disks[j] == Latest(disks, d);
      assert forall i | j < i < n :: disks[i] == disks[..n][i];
    }
  }

  lemma {:induction false} FilterConcat(s: seq<SmartData>, t: seq<SmartData>, alive: set<string>)
    ensures Filter(s + t, alive) == Filter(s, alive) + Filter(t, alive)
  {
    if s == [] {
      assert s + t == t;
    } else {
      assert (s + t)[1..] == s[1..] + t;
      FilterConcat(s[1..], t, alive);
      assert Filter(s + t, alive) == (if s[0].serialNumber in alive then [s[0]] else []) + (Filter(s[1..], alive) + Filter(t, alive));
    }
  }

  lemma {:induction false} FilterAll(s: seq<SmartData>, alive: set<string>)
    requires forall d <- s :: d.serialNumber in alive
    ensures Filter(s, alive) == s
  {
    if s != [] {
      FilterAll(s[1..], alive);
    }
  }

  lemma {:induction false} FilterUnique(s: seq<SmartData>, alive: set<string>)
    requires Unique(s)
    ensures Unique(Filter(s, alive)) && forall d <- Filter(s, alive) :: d in s && d.serialNumber in alive
  {
    if s != [] {
      FilterUnique(s[1..], alive);
      var rest := Filter(s[1..], alive);
      forall j | 0 <= j < |rest|
        ensures rest[j] in s && rest[j].serialNumber != s[0].serialNumber
      {
        var k :| 0 <= k < |s[1..]| && s[1..][k] == rest[j];
        assert s[k + 1] == rest[j];
      }
    }
  }

  lemma LatestAllUnique(disks: seq<SmartData>, shown: seq<SmartData>)
    requires Unique(shown)
    ensures Unique(LatestAll(disks, shown))
    ensures forall d <- LatestAll(disks, shown) :: d.serialNumber in SerialsOf(shown)
  {
    hide Latest;
    assert forall k | 0 <= k < |shown| :: shown[k] in shown;
  }

  lemma UniqueConcat(s: seq<SmartData>, t: seq<SmartData>)
    requires Unique(s) && forall d <- s, e <- t :: d.serialNumber != e.serialNumber
    ensures Unique(s + t) <==> Unique(t)
  {
    assert forall j | 0 <= j < |t| :: (s + t)[|s| + j] == t[j];
  }

  /** Serial numbers stay apart on the page exactly when the update's new disks have different ones. */
  lemma StaysUnique(shown: seq<SmartData>, disks: seq<SmartData>)
    requires Unique(shown)
    ensures Unique(Page(shown, disks)) <==> Unique(New(SerialsOf(shown), disks))
  {
    hide Latest, LatestAll, New, Filter, SerialsOf, Unique;
    LatestAllUnique(disks, shown);
    FilterUnique(LatestAll(disks, shown), SerialsOf(disks));
    NewAreNew(SerialsOf(shown), disks);
    UniqueConcat(Filter(LatestAll(disks, shown), SerialsOf(disks)), New(SerialsOf(shown), disks));
  }

  // ----- the page ---------------------------------------------------------------

  class StorageViewModel {
    var disks: seq<DiskData>
    var physicalDisks: seq<PhysicalDiskView>
    var selectedPhysicalDisk: PhysicalDiskView?
    const isMacOS: bool

    constructor (isMacOS: bool)
      ensures disks == [] && physicalDisks == [] && selectedPhysicalDisk == null && this.isMacOS == isMacOS
    {
      disks, physicalDisks, selectedPhysicalDisk := [], [], null;
      this.isMacOS := isMacOS;
    }

    ghost function Shown(): (s: seq<SmartData>)
      reads this, physicalDisks
      ensures |s| == |physicalDisks|
    {
      seq(|physicalDisks|, k requires 0 <= k < |physicalDisks| reads this, physicalDisks => physicalDisks[k].disk)
    }

    ghost predicate Indexed(views: map<string, PhysicalDiskView>)
      reads this, physicalDisks
    {
      && views.Keys == SerialsOf(Shown())
      && forall k | 0 <= k < |physicalDisks| ::
           Shown()[k].serialNumber in views && views[Shown()[k].serialNumber] == physicalDisks[k]
    }

    /** `ToDictionary` on the views: it throws when two of them have one serial number. */
    method BySerial() returns (threw: bool, views: map<string, PhysicalDiskView>)
      ensures threw <==> !Unique(Shown())
      ensures !threw ==> Indexed(views)
    {
      hide Unique, SerialsOf;
      ghost var shown := Shown();
      NoneShown(shown);
      views := map[];
      for i := 0 to |physicalDisks|
        invariant Unique(shown[..i]) && views.Keys == SerialsOf(shown[..i])
        invariant forall k | 0 <= k < i ::
          shown[k].serialNumber in views && views[shown[k].serialNumber] == physicalDisks[k]
      {
        var view := physicalDisks[i];
        assert shown[i] == view.disk;
        OneMoreShown(shown, i);
        if view.disk.serialNumber in views {
          return true, views;
        }
        views := views[view.disk.serialNumber := view];
      }
      assert shown[..|physicalDisks|] == shown;
      return false, views;
    }

    lemma ViewsApart()
      requires Unique(Shown())
      ensures Distinct(physicalDisks)
    {
      assert forall k | 0 <= k < |physicalDisks| :: Shown()[k] == physicalDisks[k].disk;
    }

    method AddView(pd: SmartData)
      requires Distinct(physicalDisks)
      modifies this`physicalDisks
      ensures |physicalDisks| == |old(physicalDisks)| + 1 && old(physicalDisks) < physicalDisks && Distinct(physicalDisks)
      ensures fresh(physicalDisks[|old(physicalDisks)|]) && physicalDisks[|old(physicalDisks)|].partitions == []
      ensures Shown() == old(Shown()) + [pd]
    {
      var view := new PhysicalDiskView(pd);
      OneMore(physicalDisks, view);
      physicalDisks := physicalDisks + [view];
    }

    method Renew(view: PhysicalDiskView, pd: SmartData, ghost k: nat)
      requires Distinct(physicalDisks) && k < |physicalDisks| && physicalDisks[k] == view
      modifies view`disk
      ensures Shown() == old(Shown())[k := pd]
    {
      view.disk := pd;
    }

    /** The views of known disks get their new data, the other disks get views of their own at the end. */
    method UpdateOrAdd(input: seq<SmartData>, views: map<string, PhysicalDiskView>) returns (alive: set<string>)
      requires Unique(Shown()) && Indexed(views)
      modifies this`physicalDisks, physicalDisks`disk
      ensures alive == SerialsOf(input)
      ensures Shown() == LatestAll(input, old(Shown())) + New(views.Keys, input)
      ensures old(physicalDisks) <= physicalDisks && Distinct(physicalDisks)
      ensures forall k | |old(physicalDisks)| <= k < |physicalDisks| :: fresh(physicalDisks[k]) && physicalDisks[k].partitions == []
    {
      hide New, Latest, LatestAll, SerialsOf, Unique, Distinct;
      ghost var before, shown, n := physicalDisks, Shown(), |physicalDisks|;
      ViewsApart();
      assert forall k | 0 <= k < n :: shown[k].serialNumber in views && views[shown[k].serialNumber] == before[k];
      NoDisks(views.Keys, shown);
      assert input[..0] == [];
      alive := {};
      for i := 0 to |input|
        invariant alive == SerialsOf(input[..i])
        invariant before <= physicalDisks && Distinct(physicalDisks)
        invariant forall k | n <= k < |physicalDisks| :: fresh(physicalDisks[k]) && physicalDisks[k].partitions == []
        invariant Shown() == LatestAll(input[..i], shown) + New(views.Keys, input[..i])
      {
        var pd := input[i];
        OneMoreDisk(views.Keys, input, i);
        ghost var latest, added := LatestAll(input[..i], shown), New(views.Keys, input[..i]);
        if pd.serialNumber !in views {
          AddView(pd);
          LatestAllSame(input, shown, i);
          assert (latest + added) + [pd] == latest + (added + [pd]);
        } else {
          ghost var k := Position(shown, pd.serialNumber);
          assert views[pd.serialNumber] == before[k] == physicalDisks[k];
          Renew(views[pd.serialNumber], pd, k);
          LatestAllOne(input, shown, i, k);
          assert (latest + added)[k := pd] == latest[k := pd] + added;
        }
        alive := alive + {pd.serialNumber};
      }
      assert input[..|input|] == input;
    }

    method RemoveAt(i: nat)
      requires i < |physicalDisks|
      modifies this`physicalDisks
      ensures physicalDisks == old(physicalDisks)[..i] + old(physicalDisks)[i + 1..]
    {
      physicalDisks := physicalDisks[..i] + physicalDisks[i + 1..];
    }

    /** Views of disks that are gone are taken out, from the end. */
    method RemoveDead(alive: set<string>)
      modifies this`physicalDisks
      ensures physicalDisks == Kept(old(physicalDisks), old(Shown()), alive) && Shown() == Filter(old(Shown()), alive)
    {
      hide Kept, Filter, KeptBehind, Shown;
      ghost var views, shown := physicalDisks, Shown();
      ShownAt();
      KeptEnds(views, shown, alive);
      var i := |physicalDisks| - 1;
      while i >= 0
        invariant -1 <= i < |views|
        invariant physicalDisks == views[..i + 1] + KeptBehind(views, shown, i + 1, alive)
      {
        KeptFrom(views, shown, i, alive);
        Around(views, i, KeptBehind(views, shown, i + 1, alive));
        if physicalDisks[i].disk.serialNumber !in alive {
          RemoveAt(i);
        }
        i := i - 1;
      }
      ShownIsFiltered(views, shown, alive);
    }

    lemma ShownAt()
      ensures forall k | 0 <= k < |physicalDisks| :: physicalDisks[k].disk == Shown()[k]
    {
    }

    lemma ShownIsFiltered(views: seq<PhysicalDiskView>, shown: seq<SmartData>, alive: set<string>)
      requires |views| == |shown| && forall k | 0 <= k < |views| :: views[k].disk == shown[k]
      requires physicalDisks == Kept(views, shown, alive)
      ensures Shown() == Filter(shown, alive)
    {
      hide Kept, Filter;
      KeptShows(views, shown, alive);
    }

    method ClearPartitions()
      modifies physicalDisks`partitions
      ensures forall v | v in physicalDisks :: v.partitions == []
    {
      for i := 0 to |physicalDisks|
        invariant forall k | 0 <= k < i :: physicalDisks[k].partitions == []
      {
        physicalDisks[i].partitions := [];
      }
    }

    /** The volumes of the disk shown in place `k`; none if the letters could not be told apart. */
    ghost function Parts(threw: bool, k: nat, disk: SmartData): seq<DiskData>
      reads this`disks
    {
      if threw then [] else if isMacOS then (if k == 0 then disks else []) else Volumes(disk, disks)
    }

    /** The volumes go to the first disk on macOS, elsewhere to the disks that name their letters. */
    method MapVolumes() returns (threw: bool)
      requires Distinct(physicalDisks) && forall v | v in physicalDisks :: v.partitions == []
      modifies physicalDisks`partitions
      ensures threw <==> !isMacOS && !Distinct(Lettered(disks))
      ensures threw <==> !isMacOS && SharedLetter(disks)
      ensures forall k | 0 <= k < |physicalDisks| :: physicalDisks[k].partitions == Parts(threw, k, physicalDisks[k].disk)
      ensures isMacOS ==> forall k | 0 <= k < |physicalDisks| :: physicalDisks[k].partitions == if k == 0 then disks else []
    {
      LettersShared(disks);
      if isMacOS {
        if |physicalDisks| > 0 {
          var firstPhys := physicalDisks[0];
          for i := 0 to |disks|
            invariant firstPhys.partitions == disks[..i]
            invariant forall k | 1 <= k < |physicalDisks| :: physicalDisks[k].partitions == []
          {
            firstPhys.partitions := firstPhys.partitions + [disks[i]];
          }
        }
        return false;
      }
      var volumes;
      threw, volumes := ByLetter();
      if threw { return; }
      for i := 0 to |physicalDisks|
        invariant forall k | 0 <= k < i :: physicalDisks[k].partitions == Volumes(physicalDisks[k].disk, disks)
        invariant forall k | i <= k < |physicalDisks| :: physicalDisks[k].partitions == []
      {
        AddVolumes(physicalDisks[i], volumes);
      }
    }

    method AddVolumes(phys: PhysicalDiskView, volumes: map<char, DiskData>)
      requires phys.partitions == [] && forall c :: Find(disks, c) == if c in volumes then Some(volumes[c]) else None
      modifies phys`partitions
      ensures phys.partitions == Volumes(phys.disk, disks)
    {
      if phys.disk.logicalDriveLetters == None { return; }
      var letters := phys.disk.logicalDriveLetters.value;
      for i := 0 to |letters|
        invariant phys.partitions == Matched(letters[..i], disks)
      {
        assert letters[..i + 1][..i] == letters[..i];
        if letters[i] in volumes {
          phys.partitions := phys.partitions + [volumes[letters[i]]];
        }
      }
      assert letters[..|letters|] == letters;
    }

    /** Survivors stay, as the same objects in the same order; new disks follow in the update's order; the others go. */
    method Reconcile(input: seq<SmartData>) returns (threw: bool)
      modifies this`physicalDisks, physicalDisks`disk
      ensures threw <==> !Unique(old(Shown()))
      ensures threw ==> physicalDisks == old(physicalDisks) && forall v <- physicalDisks :: v.disk == old(v.disk)
      ensures !threw ==> Shown() == Page(old(Shown()), input) && IsPage(old(Shown()), input, Shown()) && Distinct(physicalDisks)
      ensures !threw ==> forall k | 0 <= k < |old(physicalDisks)| ::
        old(physicalDisks)[k] in physicalDisks <==> old(Shown())[k].serialNumber in SerialsOf(input)
      ensures !threw ==>
        var kept := Kept(old(physicalDisks), old(Shown()), SerialsOf(input));
        && kept <= physicalDisks && (forall v <- kept :: v in old(physicalDisks))
        && (forall v <- physicalDisks[|kept|..] :: fresh(v) && v.partitions == [])
    {
      hide Latest, New, Kept, Filter, SerialsOf, IsPage;
      ghost var before, shown := physicalDisks, Shown();
      var views;
      threw, views := BySerial();
      if threw { return; }
      ViewsApart();
      assert views.Keys == SerialsOf(shown);
      var alive := UpdateOrAdd(input, views);
      ghost var more := physicalDisks[|before|..];
      assert physicalDisks == before + more;
      KeptAfterUpdate(before, shown, more, input, views.Keys);
      KeptDistinct(physicalDisks, Shown(), alive);
      KeptWithin(before, shown, alive);
      RemoveDead(alive);
      PageIs(shown, input);
      StayExactly(before, shown, more, alive);
    }

    /**
     An update. If two views show one serial number nothing happens. Otherwise the list is
     reconciled and each view has its volumes, or none has if two volumes share a letter; serial
     numbers are apart again afterwards just when the new disks' are.
     */
    method BuildOrUpdatePhysicalDisks(input: seq<SmartData>)
      modifies this`physicalDisks, this`selectedPhysicalDisk, physicalDisks
      ensures !Unique(old(Shown())) ==>
        && physicalDisks == old(physicalDisks) && selectedPhysicalDisk == old(selectedPhysicalDisk)
        && forall v <- physicalDisks :: v.disk == old(v.disk) && v.partitions == old(v.partitions)
      ensures Unique(old(Shown())) ==> Shown() == Page(old(Shown()), input) && IsPage(old(Shown()), input, Shown())
      ensures Unique(old(Shown())) ==> (Unique(Shown()) <==> Unique(New(SerialsOf(old(Shown())), input)))
      ensures Unique(old(Shown())) ==>
        var kept := Kept(old(physicalDisks), old(Shown()), SerialsOf(input));
        kept <= physicalDisks && (forall v <- kept :: v in old(physicalDisks)) && (forall v <- physicalDisks[|kept|..] :: fresh(v))
      ensures Unique(old(Shown())) ==>
        var threw := !isMacOS && !Distinct(Lettered(disks));
        && (forall k | 0 <= k < |physicalDisks| :: physicalDisks[k].partitions == Parts(threw, k, physicalDisks[k].disk))
        && (isMacOS ==> forall k | 0 <= k < |physicalDisks| :: physicalDisks[k].partitions == if k == 0 then disks else [])
        && selectedPhysicalDisk == (if threw || physicalDisks == [] || old(selectedPhysicalDisk) != null
                                    then old(selectedPhysicalDisk) else physicalDisks[0])
    {
      hide Latest, New, Kept, SerialsOf, Lettered, Parts, Page, IsPage, Unique;
      ghost var shown := Shown();
      var threw := Reconcile(input);
      if threw { return; }
      StaysUnique(shown, input);
      ghost var kept := Kept(old(physicalDisks), shown, SerialsOf(input));
      forall k | 0 <= k < |physicalDisks|
        ensures physicalDisks[k] in old(physicalDisks) || fresh(physicalDisks[k])
      {
        if k < |kept| {
          assert kept <= physicalDisks;
          assert physicalDisks[k] == kept[k];
          assert kept[k] in kept;
          assert kept[k] in old(physicalDisks);
        } else {
          assert physicalDisks[k] in physicalDisks[|kept|..];
          assert fresh(physicalDisks[k]);
        }
      }
      label Reconciled:
      ClearPartitions();
      threw := MapVolumes();
      assert Shown() == old@Reconciled(Shown());
      if threw { return; }
      if |physicalDisks| > 0 && selectedPhysicalDisk == null {
        selectedPhysicalDisk := physicalDisks[0];
      }
    }

    /** `ToDictionary` on the lettered volumes: it throws when two of them have one letter. */
    method ByLetter() returns (threw: bool, volumes: map<char, DiskData>)
      ensures threw <==> !Distinct(Lettered(disks))
      ensures !threw ==> forall c :: Find(disks, c) == if c in volumes then Some(volumes[c]) else None
    {
      hide Find, Lettered;
      volumes := map[];
      NoVolumes();
      assert disks[..0] == [];
      for i := 0 to |disks|
        invariant Distinct(Lettered(disks[..i]))
        invariant volumes.Keys == set c | c in Lettered(disks[..i])
        invariant forall c :: Find(disks[..i], c) == if c in volumes then Some(volumes[c]) else None
      {
        var d := disks[i];
        LetteredPush(disks, i);
        FindPush(disks[..i], d);
        if d.letter != NO_LETTER {
          OneMore(Lettered(disks[..i]), d.letter);
          if d.letter in volumes {
            NotDistinct(disks, i);
            return true, volumes;
          }
          volumes := volumes[d.letter := d];
        }
      }
      assert disks[..|disks|] == disks;
      return false, volumes;
    }
  }

  /** Two volumes share a letter. */
  predicate SharedLetter(disks: seq<DiskData>) {
    exists i, j | 0 <= i < j < |disks| :: disks[i].letter == disks[j].letter != NO_LETTER
  }

  lemma {:induction false} LettersShared(disks: seq<DiskData>)
    ensures Distinct(Lettered(disks)) <==> !SharedLetter(disks)
    decreases |disks|
  {
    hide Distinct, Lettered;
    if disks == [] {
      NoVolumes();
    } else {
      var n := |disks| - 1;
      var front, d := disks[..n], disks[n];
      LettersShared(front);
      LetteredPush(disks, n);
      assert disks[..n + 1] == disks;
      if !Distinct(Lettered(front)) {
        StaysIndistinct(Lettered(front), if d.letter == NO_LETTER then [] else [d.letter]);
      } else if d.letter == NO_LETTER {
        assert Lettered(disks) == Lettered(front);
      } else {
        OneMore(Lettered(front), d.letter);
        LetteredHas(front, d.letter);
      }
    }
  }

  lemma {:induction false} LetteredHas(disks: seq<DiskData>, letter: char)
    requires letter != NO_LETTER
    ensures letter in Lettered(disks) <==> exists i | 0 <= i < |disks| :: disks[i].letter == letter
    decreases |disks|
  {
    if disks != [] {
      LetteredHas(disks[..|disks| - 1], letter);
    }
  }

  lemma NoVolumes()
    ensures Lettered([]) == [] && Distinct(Lettered([])) && forall c :: Find([], c) == None
  {
  }

  function FindNext(disks: seq<DiskData>, d: DiskData, letter: char): Option<DiskData> {
    if Find(disks, letter).Some? then Find(disks, letter)
    else if d.letter != NO_LETTER && d.letter == letter then Some(d)
    else None
  }

  lemma {:induction false} FindPush(disks: seq<DiskData>, d: DiskData)
    ensures forall c :: Find(disks + [d], c) == FindNext(disks, d, c)
  {
    if disks == [] {
      assert [] + [d] == [d];
    } else {
      FindPush(disks[1..], d);
      assert (disks + [d])[1..] == disks[1..] + [d] && (disks + [d])[0] == disks[0];
      forall c
        ensures Find(disks + [d], c) == FindNext(disks, d, c)
      {
        assert Find(disks[1..] + [d], c) == FindNext(disks[1..], d, c);
      }
    }
  }

  lemma LetteredPush(disks: seq<DiskData>, i: nat)
    requires i < |disks|
    ensures Lettered(disks[..i + 1]) == Lettered(disks[..i]) + (if disks[i].letter == NO_LETTER then [] else [disks[i].letter])
    ensures disks[..i + 1] == disks[..i] + [disks[i]]
  {
    assert disks[..i + 1][..i] == disks[..i];
  }

  lemma OneMore<T>(s: seq<T>, x: T)
    requires Distinct(s)
    ensures Distinct(s + [x]) <==> x !in s
  {
    if x in s {
      var k :| 0 <= k < |s| && s[k] == x;
      assert (s + [x])[k] == (s + [x])[|s|];
    }
  }

  lemma StaysIndistinct<T>(s: seq<T>, t: seq<T>)
    requires !Distinct(s)
    ensures !Distinct(s + t)
  {
    var i, j :| 0 <= i < j < |s| && s[i] == s[j];
    assert (s + t)[i] == (s + t)[j];
  }

  lemma {:induction false} NotDistinct(disks: seq<DiskData>, i: nat)
    requires i < |disks| && !Distinct(Lettered(disks[..i + 1]))
    ensures !Distinct(Lettered(disks))
    decreases |disks|
  {
    if i + 1 < |disks| {
      var n := |disks| - 1;
      assert disks[..n][..i + 1] == disks[..i + 1];
      NotDistinct(disks[..n], i);
      StaysIndistinct(Lettered(disks[..n]), Lettered(disks)[|Lettered(disks[..n])|..]);
      LetteredPush(disks, n);
      assert disks[..n + 1] == disks;
    } else {
      assert disks[..i + 1] == disks;
    }
  }
}
