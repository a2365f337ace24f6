/** Reading the disk table of the SSH checks (internal/monitor/checks.go), with its in-place
    insertion sort. */
module Checks {
  import opened Text
  import opened Seqs
  import opened Hosts
  import opened Words

  // ---- df --------------------------------------------------------------------------

  const REAL_FS_TYPES: seq<string> :=
    ["ext2", "ext3", "ext4", "btrfs", "xfs", "zfs", "f2fs", "jfs", "vfat", "ntfs", "ntfs-3g",
     "exfat"]

  predicate Listed(types: seq<string>, fsType: string)
  {
    types != [] && (types[0] == fsType || Listed(types[1..], fsType))
  }

  /** What one row of the table amounts to. */
  datatype Row = Ignored | Malformed(percentage: string) | Disk(disk: DiskInfo)

  function ReadRow(line: string): Row
  {
    var fields := Fields(line);
    if |fields| < 3 || !Listed(REAL_FS_TYPES, fields[1]) then Ignored
    else
      match ParseInt(TrimSuffix(fields[2], '%'))
      case None => Malformed(fields[2])
      case Some(pct) => Disk(DiskInfo(fields[0], fields[1], pct))
  }

  function ReadRows(lines: seq<string>): (rows: seq<Row>)
    ensures |rows| == |lines|
  {
    if lines == [] then [] else [ReadRow(lines[0])] + ReadRows(lines[1..])
  }

  /** The rows after the header line. */
  function TableRows(s: string): seq<Row>
  {
    ReadRows(Split(TrimNewlines(s), '\n')[1..])
  }

  lemma {:induction false} RowAt(lines: seq<string>, i: nat)
    requires i < |lines|
    ensures ReadRows(lines)[i] == ReadRow(lines[i])
  {
    if i > 0 {
      RowAt(lines[1..], i - 1);
    }
  }

  function DiskOf(row: Row): seq<DiskInfo>
  {
    if row.Disk? then [row.disk] else []
  }

  /** The disks of the readable rows, in table order. */
  function Disks(rows: seq<Row>): seq<DiskInfo>
  {
    if rows == [] then []
    else
      Disks(rows[..|rows| - 1]) + DiskOf(rows[|rows| - 1])
  }

  datatype DfResult = DfOk(disks: seq<DiskInfo>) | DfErr(percentage: string)

  /** x belongs strictly after y. */
  predicate Above(x: DiskInfo, y: DiskInfo) { LexLess(y.mount, x.mount) }

  /** Insert behind everything that is not above x. */
  function Insert(sorted: seq<DiskInfo>, x: DiskInfo): (r: seq<DiskInfo>)
    ensures |r| == |sorted| + 1
  {
    if sorted != [] && Above(sorted[|sorted| - 1], x)
    then Insert(sorted[..|sorted| - 1], x) + [sorted[|sorted| - 1]]
    else sorted + [x]
  }

  function SortByMount(s: seq<DiskInfo>): (r: seq<DiskInfo>)
    ensures |r| == |s|
  {
    if s == [] then [] else Insert(SortByMount(s[..|s| - 1]), s[|s| - 1])
  }

  lemma {:induction false} InsertAt(sorted: seq<DiskInfo>, x: DiskInfo, j: nat)
    requires j <= |sorted| && forall k :: j <= k < |sorted| ==> Above(sorted[k], x)
    requires j == 0 || !Above(sorted[j - 1], x)
    ensures Insert(sorted, x) == sorted[..j] + [x] + sorted[j..]
    decreases |sorted|
  {
    var n := |sorted| - 1;
    if j <= n {
      InsertAt(sorted[..n], x, j);
      assert sorted[..n][..j] == sorted[..j];
      assert sorted[..n][j..] + [sorted[n]] == sorted[j..];
    }
  }

  /** Element i of `before` has moved down to j, past elements above it. */
  ghost predicate Sunk(before: seq<DiskInfo>, after: seq<DiskInfo>, i: nat, j: nat)
  {
    && j <= i < |before| == |after|
    && after[j] == before[i]
    && (forall k :: 0 <= k < j || i < k < |before| ==> after[k] == before[k])
    && (forall k :: j <= k < i ==> after[k + 1] == before[k] && Above(before[k], before[i]))
  }

  lemma SunkIsInsert(before: seq<DiskInfo>, after: seq<DiskInfo>, i: nat, j: nat)
    requires Sunk(before, after, i, j)
    requires j > 0 ==> !Above(before[j - 1], before[i])
    ensures after[..i + 1] == Insert(before[..i], before[i])
    ensures after[i + 1..] == before[i + 1..]
  {
    InsertAt(before[..i], before[i], j);
    var spliced := before[..i][..j] + [before[i]] + before[..i][j..];
    forall k | 0 <= k <= i ensures after[k] == spliced[k] {
      if k > j {
        assert after[k] == before[k - 1];
      }
    }
    assert after[..i + 1] == spliced;
    var rest := after[i + 1..];
    forall k | 0 <= k < |rest| ensures rest[k] == before[i + 1..][k] {
      assert after[i + 1 + k] == before[i + 1 + k];
    }
  }

  /** One pass of the inner loop inserts element i among the sorted elements before it. */
  method InsertNext(a: array<DiskInfo>, i: nat)
    requires i < a.Length
    modifies a
    ensures a[..i + 1] == Insert(old(a[..i]), old(a[i]))
    ensures a[i + 1..] == old(a[i + 1..])
  {
    ghost var before := a[..];
    var j := i;
    while j > 0 && LexLess(a[j].mount, a[j - 1].mount)
      invariant 0 <= j <= i
      invariant Sunk(before, a[..], i, j)
    {
      a[j - 1], a[j] := a[j], a[j - 1];
      j := j - 1;
    }
    SunkIsInsert(before, a[..], i, j);
    assert a[..][..i + 1] == a[..i + 1] && before[..i] == old(a[..i]);
    assert a[..][i + 1..] == a[i + 1..] && before[i + 1..] == old(a[i + 1..]);
  }

  /** The insertion sort, swapping neighbours in place. */
  method SortDisks(a: array<DiskInfo>)
    modifies a
    ensures a[..] == SortByMount(old(a[..]))
  {
    ghost var input := a[..];
    assert a.Length >= 1 ==> input[..1][..0] == [];
    var i := 1;
    while i < a.Length
      invariant a.Length >= 1 ==> 1 <= i <= a.Length && a[..i] == SortByMount(input[..i])
      invariant a.Length >= 1 ==> a[i..] == input[i..]
    {
      assert a[i] == a[i..][0] && a[i + 1..] == a[i..][1..];
      assert input[..i + 1][..i] == input[..i];
      InsertNext(a, i);
      i := i + 1;
    }
    assert a[..] == a[..a.Length] && input == input[..a.Length];
  }

  method ParseRow(line: string) returns (row: Row)
    ensures row == ReadRow(line)
  {
    var fields := Fields(line);
    if |fields| < 3 {
      return Ignored;
    }
    var mount, fsType, percentage := fields[0], fields[1], fields[2];
    if !Listed(REAL_FS_TYPES, fsType) {
      return Ignored;
    }
    var pct := ParseInt(TrimSuffix(percentage, '%'));
    row := if pct.None? then Malformed(percentage) else Disk(DiskInfo(mount, fsType, pct.value));
  }

  /** Some row with three or more fields and a real filesystem has no integer percentage. */
  ghost predicate HasMalformed(rows: seq<Row>)
  {
    exists i :: 0 <= i < |rows| && rows[i].Malformed?
  }

  /** The complaint quotes the first malformed row. */
  ghost predicate Complains(rows: seq<Row>, percentage: string)
  {
    exists i :: 0 <= i < |rows| && rows[i] == Malformed(percentage)
                && forall j :: 0 <= j < i ==> !rows[j].Malformed?
  }

  ghost predicate NoneMalformed(rows: seq<Row>)
  {
    forall k :: 0 <= k < |rows| ==> !rows[k].Malformed?
  }

  lemma FirstMalformed(rows: seq<Row>, i: nat)
    requires i < |rows| && rows[i].Malformed? && NoneMalformed(rows[..i])
    ensures HasMalformed(rows) && Complains(rows, rows[i].percentage)
  {
    forall k | 0 <= k < i ensures !rows[k].Malformed? {
      assert rows[..i][k] == rows[k];
    }
  }

  lemma DisksSnoc(rows: seq<Row>, row: Row)
    ensures Disks(rows + [row]) == Disks(rows) + DiskOf(row)
  {
    assert (rows + [row])[..|rows|] == rows;
  }

  /** The first i rows have been read, none of them malformed, and their disks collected. */
  ghost predicate RowsRead(rows: seq<Row>, read: seq<Row>, i: nat, out: seq<DiskInfo>)
  {
    i <= |rows| && read == rows[..i] && NoneMalformed(read) && out == Disks(read)
  }

  lemma ReadRowNext(rows: seq<Row>, read: seq<Row>, i: nat, out: seq<DiskInfo>)
    requires RowsRead(rows, read, i, out) && i < |rows|
    ensures if rows[i].Malformed? then HasMalformed(rows) && Complains(rows, rows[i].percentage)
            else RowsRead(rows, read + [rows[i]], i + 1, out + DiskOf(rows[i]))
  {
    if rows[i].Malformed? {
      FirstMalformed(rows, i);
    } else {
      DisksSnoc(read, rows[i]);
      assert read + [rows[i]] == rows[..i + 1];
    }
  }

  lemma AllRowsRead(rows: seq<Row>, read: seq<Row>, out: seq<DiskInfo>)
    requires RowsRead(rows, read, |rows|, out)
    ensures !HasMalformed(rows) && out == Disks(rows)
  {
    assert rows[..|rows|] == rows;
  }

  /** Collect the disks of a table, stopping at the first malformed row. */
  method ReadTable(lines: seq<string>) returns (r: DfResult)
    ensures r.DfErr? <==> HasMalformed(ReadRows(lines))
    ensures r.DfErr? ==> Complains(ReadRows(lines), r.percentage)
    ensures r.DfOk? ==> r.disks == Disks(ReadRows(lines))
  {
    ghost var all: seq<Row>, read: seq<Row> := ReadRows(lines), [];
    var out: seq<DiskInfo> := [];
    for i := 0 to |lines|
      invariant RowsRead(all, read, i, out)
    {
      var row := ParseRow(lines[i]);
      RowAt(lines, i);
      ReadRowNext(all, read, i, out);
      if row.Malformed? {
        return DfErr(row.percentage);
      }
      read := read + [row];
      out := out + DiskOf(row);
    }
    AllRowsRead(all, read, out);
    r := DfOk(out);
  }

  /** Fails exactly on a table with a malformed row, naming the first; otherwise the disks,
      sorted in place by mount point. */
  method ParseDfOutput(s: string) returns (r: DfResult)
    ensures r.DfErr? <==> HasMalformed(TableRows(s))
    ensures r.DfErr? ==> Complains(TableRows(s), r.percentage)
    ensures r.DfOk? ==> r.disks == SortByMount(Disks(TableRows(s)))
  {
    var lines := Split(TrimNewlines(s), '\n');
    r := ReadTable(lines[1..]);
    if r.DfOk? {
      var out := r.disks;
      var a := new DiskInfo[|out|](i requires 0 <= i < |out| => out[i]);
      assert a[..] == out;
      SortDisks(a);
      r := DfOk(a[..]);
    }
  }

  // ---- what the sort achieves ------------------------------------------------------

  ghost predicate Sorted(s: seq<DiskInfo>)
  {
    forall i, j :: 0 <= i < j < |s| ==> !Above(s[i], s[j])
  }

  /** The rows mounted at m, in order. */
  function MountedAt(s: seq<DiskInfo>, m: string): seq<DiskInfo>
  {
    Filter(s, (d: DiskInfo) => d.mount == m)
  }

  lemma MountedAtAppend(s: seq<DiskInfo>, x: DiskInfo, m: string)
    ensures MountedAt(s + [x], m) == MountedAt(s, m) + if x.mount == m then [x] else []
  {
    FilterAppend(s, x, (d: DiskInfo) => d.mount == m);
  }

  /** Not above is transitive. */
  lemma BelowTransitive(x: DiskInfo, y: DiskInfo, z: DiskInfo)
    requires !Above(x, y) && !Above(y, z)
    ensures !Above(x, z)
  {
    if Above(x, z) {
      LexTotal(x.mount, y.mount);
      LexTotal(y.mount, z.mount);
      if LexLess(x.mount, y.mount) {
        LexTransitive(z.mount, x.mount, y.mount);
      }
    }
  }

  lemma AboveNotBelow(x: DiskInfo, y: DiskInfo)
    requires Above(x, y)
    ensures !Above(y, x) && x.mount != y.mount
  {
    LexAsymmetric(y.mount, x.mount);
  }

  lemma {:induction false} InsertSorted(s: seq<DiskInfo>, x: DiskInfo)
    requires Sorted(s)
    ensures Sorted(Insert(s, x))
    ensures forall d :: d in Insert(s, x) <==> d == x || d in s
    decreases |s|
  {
    if s != [] {
      var n := |s| - 1;
      if Above(s[n], x) {
        InsertSorted(s[..n], x);
        AboveNotBelow(s[n], x);
        var r := Insert(s[..n], x);
        forall i | 0 <= i < |r| ensures !Above(r[i], s[n]) {
          assert r[i] in r;
        }
        assert s == s[..n] + [s[n]];
      } else {
        forall i | 0 <= i < n ensures !Above(s[i], x) {
          BelowTransitive(s[i], s[n], x);
        }
      }
    }
  }

  lemma {:induction false} InsertStable(s: seq<DiskInfo>, x: DiskInfo, m: string)
    ensures MountedAt(Insert(s, x), m) == MountedAt(s, m) + if x.mount == m then [x] else []
    decreases |s|
  {
    if s != [] && Above(s[|s| - 1], x) {
      var n := |s| - 1;
      InsertStable(s[..n], x, m);
      AboveNotBelow(s[n], x);
      MountedAtAppend(Insert(s[..n], x), s[n], m);
      MountedAtAppend(s[..n], s[n], m);
      assert s == s[..n] + [s[n]];
    } else {
      MountedAtAppend(s, x, m);
    }
  }

  /** The result is ordered by mount point and keeps, for every mount point, exactly the
      rows of the table in their order; in particular it is a permutation. */
  lemma {:induction false} SortIsStable(s: seq<DiskInfo>, m: string)
    ensures Sorted(SortByMount(s))
    ensures MountedAt(SortByMount(s), m) == MountedAt(s, m)
    decreases |s|
  {
    if s != [] {
      var n := |s| - 1;
      SortIsStable(s[..n], m);
      InsertSorted(SortByMount(s[..n]), s[n]);
      InsertStable(SortByMount(s[..n]), s[n], m);
      MountedAtAppend(s[..n], s[n], m);
      assert s == s[..n] + [s[n]];
    }
  }

  lemma {:induction false} InsertMultiset(s: seq<DiskInfo>, x: DiskInfo)
    ensures multiset(Insert(s, x)) == multiset(s) + multiset{x}
    decreases |s|
  {
    if s != [] && Above(s[|s| - 1], x) {
      var n := |s| - 1;
      InsertMultiset(s[..n], x);
      assert s == s[..n] + [s[n]];
    }
  }

  lemma LastSplit(s: seq<DiskInfo>)
    requires s != []
    ensures s == s[..|s| - 1] + [s[|s| - 1]]
  {
  }

  lemma MultisetSnoc(s: seq<DiskInfo>, x: DiskInfo)
    ensures multiset(s + [x]) == multiset(s) + multiset{x}
  {
  }

  lemma PermutationSnoc(sorted: seq<DiskInfo>, a: seq<DiskInfo>, x: DiskInfo)
    requires multiset(sorted) == multiset(a)
    ensures multiset(Insert(sorted, x)) == multiset(a + [x])
  {
    InsertMultiset(sorted, x);
    MultisetSnoc(a, x);
  }

  lemma {:induction false} SortIsPermutation(s: seq<DiskInfo>)
    ensures multiset(SortByMount(s)) == multiset(s)
    decreases |s|
  {
    if s != [] {
      var a, x := s[..|s| - 1], s[|s| - 1];
      LastSplit(s);
      SortIsPermutation(a);
      PermutationSnoc(SortByMount(a), a, x);
    }
  }

  /** Two sorted tables that agree mount by mount. */
  ghost predicate SameTables(s: seq<DiskInfo>, t: seq<DiskInfo>)
  {
    Sorted(s) && Sorted(t) && forall m :: MountedAt(s, m) == MountedAt(t, m)
  }

  lemma InBoth(s: seq<DiskInfo>, t: seq<DiskInfo>, d: DiskInfo)
    requires SameTables(s, t) && d in s
    ensures d in t
  {
    var keep := (e: DiskInfo) => e.mount == d.mount;
    FilterMember(s, keep, d);
    FilterMember(t, keep, d);
    assert MountedAt(s, d.mount) == MountedAt(t, d.mount);
    assert MountedAt(s, d.mount) == Filter(s, keep) && MountedAt(t, d.mount) == Filter(t, keep);
  }

  /** The last row of one is nowhere above the last row of the other. */
  lemma LastNotAbove(s: seq<DiskInfo>, t: seq<DiskInfo>)
    requires SameTables(s, t) && s != [] && t != []
    ensures !Above(s[|s| - 1], t[|t| - 1])
  {
    var x, y := s[|s| - 1], t[|t| - 1];
    InBoth(s, t, x);
    var i :| 0 <= i < |t| && t[i] == x;
    if i == |t| - 1 && Above(x, y) {
      AboveNotBelow(x, y);
    }
  }

  lemma SameLast(s: seq<DiskInfo>, t: seq<DiskInfo>)
    requires SameTables(s, t) && s != []
    ensures t != [] && s[|s| - 1] == t[|t| - 1]
  {
    var x := s[|s| - 1];
    InBoth(s, t, x);
    var y := t[|t| - 1];
    LastNotAbove(s, t);
    LastNotAbove(t, s);
    LexTotal(x.mount, y.mount);
    var a, b := s[..|s| - 1], t[..|t| - 1];
    assert s == a + [x] && t == b + [y];
    MountedAtAppend(a, x, x.mount);
    MountedAtAppend(b, y, x.mount);
    var m := MountedAt(s, x.mount);
    assert m == MountedAt(t, x.mount);
    assert m[|m| - 1] == x && m[|m| - 1] == y;
  }

  /** Dropping a common last row keeps the agreement. */
  lemma DropLast(a: seq<DiskInfo>, b: seq<DiskInfo>, x: DiskInfo)
    requires SameTables(a + [x], b + [x])
    ensures SameTables(a, b)
  {
    forall i, j | 0 <= i < j < |a| ensures !Above(a[i], a[j]) {
      assert (a + [x])[i] == a[i] && (a + [x])[j] == a[j];
    }
    forall i, j | 0 <= i < j < |b| ensures !Above(b[i], b[j]) {
      assert (b + [x])[i] == b[i] && (b + [x])[j] == b[j];
    }
    forall m ensures MountedAt(a, m) == MountedAt(b, m) {
      MountedAtAppend(a, x, m);
      MountedAtAppend(b, x, m);
      var tail := if x.mount == m then [x] else [];
      assert MountedAt(a, m) + tail == MountedAt(b, m) + tail;
      assert MountedAt(a, m) == (MountedAt(a, m) + tail)[..|MountedAt(a, m)|];
      assert MountedAt(b, m) == (MountedAt(b, m) + tail)[..|MountedAt(b, m)|];
    }
  }

  /** There is only one such table, so any other stable sort would print the same. */
  lemma {:induction false} StableSortUnique(s: seq<DiskInfo>, t: seq<DiskInfo>)
    requires Sorted(s) && Sorted(t)
    requires forall m :: MountedAt(s, m) == MountedAt(t, m)
    ensures s == t
    decreases |s|
  {
    if s != [] {
      SameLast(s, t);
      var a, b, x := s[..|s| - 1], t[..|t| - 1], s[|s| - 1];
      assert s == a + [x] && t == b + [x];
      DropLast(a, b, x);
      StableSortUnique(a, b);
    } else if t != [] {
      SameLast(t, s);
    }
  }

  // ---- what a table says -----------------------------------------------------------

  lemma {:induction false} ListedExactly(types: seq<string>, fsType: string)
    ensures Listed(types, fsType) <==> fsType in types
  {
    if types != [] {
      ListedExactly(types[1..], fsType);
      assert types == [types[0]] + types[1..];
    }
  }

  /** The percentage of a row, with or without its sign. */
  ghost predicate Percent(s: string, pct: int)
  {
    ParseInt(s) == Some(pct) || exists t: string :: s == t + "%" && ParseInt(t) == Some(pct)
  }

  lemma PercentSigns(s: string)
    ensures (s != [] && s[|s| - 1] == '%') ==> s == s[..|s| - 1] + "%" && ParseInt(s).None?
    ensures forall t: string :: s == t + "%" ==> s != [] && s[|s| - 1] == '%' && s[..|s| - 1] == t
  {
    assert |s| > 1 ==> s[1..][|s| - 2] == s[|s| - 1];
  }

  /** One line of the table: three words or more, the second a real filesystem, the third a
      percentage, make a disk of the first; a third word that is none is an error; anything
      else is passed over. */
  lemma RowExactly(line: string, words: seq<string>)
    requires IsLine(line, words)
    ensures var counts := |words| >= 3
                          && words[1] in ["ext2", "ext3", "ext4", "btrfs", "xfs", "zfs", "f2fs",
                                          "jfs", "vfat", "ntfs", "ntfs-3g", "exfat"];
            && (ReadRow(line) == Ignored <==> !counts)
            && (forall d :: ReadRow(line) == Disk(d) <==>
                  counts && d.mount == words[0] && d.fsType == words[1]
                  && Percent(words[2], d.usedPct))
            && (forall p :: ReadRow(line) == Malformed(p) <==>
                  counts && p == words[2] && forall pct :: !Percent(p, pct))
  {
    FieldsExactly(line, words);
    if |words| >= 3 {
      ListedExactly(REAL_FS_TYPES, words[1]);
      PercentSigns(words[2]);
      var t := TrimSuffix(words[2], '%');
      assert forall pct :: Percent(words[2], pct) <==> ParseInt(t) == Some(pct);
    }
  }

  predicate IsDisk(row: Row) { row.Disk? }

  /** The disks are those of the disk rows, each once, in table order. */
  lemma {:induction false} DisksExactly(rows: seq<Row>)
    ensures var kept := Filter(rows, IsDisk);
            |Disks(rows)| == |kept|
            && forall i :: 0 <= i < |kept| ==> kept[i] == Disk(Disks(rows)[i])
    decreases |rows|
  {
    if rows != [] {
      DisksExactly(rows[..|rows| - 1]);
    }
  }
}
