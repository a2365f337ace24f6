/** Reading /proc/meminfo (internal/monitor/checks.go): a scan that stops as soon as both
    wanted values are known, with a fallback for kernels that do not report the second. */
module Memory {
  import opened Text
  import opened Hosts
  import opened Words

  const TOTAL := "MemTotal"
  const AVAILABLE := "MemAvailable"
  const FREE := "MemFree"

  /** A line with at least two fields has a key, and a number if the second field is one. */
  datatype Line = Other | Entry(key: string, number: Option<int>)

  function ReadLine(line: string): Line
  {
    var fields := Fields(line);
    if |fields| < 2 then Other else Entry(TrimSuffix(fields[0], ':'), ParseInt(fields[1]))
  }

  function ReadLines(lines: seq<string>): (read: seq<Line>)
    ensures |read| == |lines|
  {
    if lines == [] then [] else [ReadLine(lines[0])] + ReadLines(lines[1..])
  }

  lemma {:induction false} ReadAt(lines: seq<string>, i: nat)
    requires i < |lines|
    ensures ReadLines(lines)[i] == ReadLine(lines[i])
  {
    if i > 0 {
      ReadAt(lines[1..], i - 1);
    }
  }

  datatype MemResult = MemOk(info: MemInfo) | NoTotal | NoAvailable

  // ---- what the scan is meant to find ----------------------------------------------

  /** The line carries a readable number for the key. */
  predicate Gives(line: Line, key: string)
  {
    line.Entry? && line.key == key && line.number.Some?
  }

  function NumberIn(line: Line, key: string): int
    requires Gives(line, key)
  {
    line.number.value
  }

  ghost predicate Absent(lines: seq<Line>, n: nat, key: string)
  {
    forall i :: 0 <= i < n && i < |lines| ==> !Gives(lines[i], key)
  }

  /** v is the last number given for the key among the first n lines. */
  ghost predicate Latest(lines: seq<Line>, n: nat, key: string, v: int)
  {
    exists i :: 0 <= i < n && i < |lines| && Gives(lines[i], key) && NumberIn(lines[i], key) == v
                && forall j :: i < j < n && j < |lines| ==> !Gives(lines[j], key)
  }

  /** Reading ends behind line n - 1: as soon as both keys have been given, or at the end. */
  ghost predicate StopsAt(lines: seq<Line>, n: nat)
  {
    && n <= |lines|
    && (n < |lines| ==> !Absent(lines, n, TOTAL) && !Absent(lines, n, AVAILABLE))
    && (n > 0 ==> Absent(lines, n - 1, TOTAL) || Absent(lines, n - 1, AVAILABLE))
  }

  predicate IsFree(line: Line)
  {
    line.Entry? && line.key == FREE
  }

  /** The fallback looks at the first MemFree line only, and v is the number there. */
  ghost predicate FirstFree(lines: seq<Line>, v: int)
  {
    exists i :: 0 <= i < |lines| && IsFree(lines[i]) && lines[i].number == Some(v)
                && forall j :: 0 <= j < i ==> !IsFree(lines[j])
  }

  ghost predicate FreeUsable(lines: seq<Line>)
  {
    exists v :: FirstFree(lines, v)
  }

  ghost predicate Found(lines: seq<Line>, n: nat, info: MemInfo)
  {
    && Latest(lines, n, TOTAL, info.totalKB)
    && (if Absent(lines, |lines|, AVAILABLE) then FirstFree(lines, info.availableKB)
        else Latest(lines, n, AVAILABLE, info.availableKB))
  }

  /** The whole promise. */
  ghost predicate Reported(lines: seq<Line>, r: MemResult)
  {
    match r
    case NoTotal => Absent(lines, |lines|, TOTAL)
    case NoAvailable =>
      && !Absent(lines, |lines|, TOTAL) && Absent(lines, |lines|, AVAILABLE)
      && !FreeUsable(lines)
    case MemOk(info) => exists n: nat :: StopsAt(lines, n) && Found(lines, n, info)
  }

  // ---- the scan --------------------------------------------------------------------

  /** What has been seen of one key in the first n lines. */
  ghost predicate Seen(lines: seq<Line>, n: nat, key: string, saw: bool, v: int)
  {
    if saw then Latest(lines, n, key, v) && !Absent(lines, n, key) else Absent(lines, n, key)
  }

  lemma LatestSkips(lines: seq<Line>, n: nat, key: string, v: int)
    requires n < |lines| && Latest(lines, n, key, v) && !Gives(lines[n], key)
    ensures Latest(lines, n + 1, key, v)
  {
    var i :| 0 <= i < n && Gives(lines[i], key) && NumberIn(lines[i], key) == v
             && forall j :: i < j < n && j < |lines| ==> !Gives(lines[j], key);
    assert forall j :: i < j < n + 1 && j < |lines| ==> !Gives(lines[j], key);
  }

  lemma SeeLine(lines: seq<Line>, n: nat, key: string, saw: bool, v: int)
    requires n < |lines| && Seen(lines, n, key, saw, v)
    ensures if Gives(lines[n], key) then Seen(lines, n + 1, key, true, NumberIn(lines[n], key))
            else Seen(lines, n + 1, key, saw, v)
  {
    if Gives(lines[n], key) {
      var w := NumberIn(lines[n], key);
      assert Latest(lines, n + 1, key, w);
    } else if saw {
      LatestSkips(lines, n, key, v);
    } else {
      assert Absent(lines, n + 1, key);
    }
  }

  method ScanLines(text: seq<string>)
      returns (sawTotal: bool, total: int, sawAvailable: bool, available: int, ghost n: nat)
    ensures var lines := ReadLines(text);
            && StopsAt(lines, n)
            && Seen(lines, n, TOTAL, sawTotal, total)
            && Seen(lines, n, AVAILABLE, sawAvailable, available)
            && (sawTotal <==> !Absent(lines, |lines|, TOTAL))
            && (sawAvailable <==> !Absent(lines, |lines|, AVAILABLE))
  {
    ghost var lines := ReadLines(text);
    sawTotal, total, sawAvailable, available, n := false, 0, false, 0, 0;
    for i := 0 to |text|
      invariant n == i && !(sawTotal && sawAvailable)
      invariant Seen(lines, i, TOTAL, sawTotal, total)
      invariant Seen(lines, i, AVAILABLE, sawAvailable, available)
    {
      SeeLine(lines, i, TOTAL, sawTotal, total);
      SeeLine(lines, i, AVAILABLE, sawAvailable, available);
      n := i + 1;
      var line := ReadLine(text[i]);
      ReadAt(text, i);
      if line.Other? || line.number.None? {
        continue;
      }
      if line.key == TOTAL {
        total, sawTotal := line.number.value, true;
      } else if line.key == AVAILABLE {
        available, sawAvailable := line.number.value, true;
      }
      if sawTotal && sawAvailable {
        return;
      }
    }
  }

  ghost predicate Fallback(lines: seq<Line>, found: Option<int>)
  {
    if found.Some? then FirstFree(lines, found.value) else !FreeUsable(lines)
  }

  /** The first MemFree line decides the fallback. */
  lemma FreeDecided(lines: seq<Line>, i: nat)
    requires i < |lines| && IsFree(lines[i])
    requires forall j :: 0 <= j < i ==> !IsFree(lines[j])
    ensures Fallback(lines, lines[i].number)
  {
    if FreeUsable(lines) {
      var v :| FirstFree(lines, v);
      var k :| 0 <= k < |lines| && IsFree(lines[k]) && lines[k].number == Some(v)
               && forall j :: 0 <= j < k ==> !IsFree(lines[j]);
      assert k == i;
    }
  }

  lemma NoFree(lines: seq<Line>)
    requires forall j :: 0 <= j < |lines| ==> !IsFree(lines[j])
    ensures Fallback(lines, None)
  {
  }

  method ScanFree(text: seq<string>) returns (found: Option<int>)
    ensures Fallback(ReadLines(text), found)
  {
    ghost var lines := ReadLines(text);
    found := None;
    for i := 0 to |text|
      invariant forall j :: 0 <= j < i ==> !IsFree(lines[j])
    {
      var line := ReadLine(text[i]);
      ReadAt(text, i);
      if line.Entry? && line.key == FREE {
        FreeDecided(lines, i);
        found := line.number;
        return;
      }
    }
    NoFree(lines);
  }

  /** The parser keeps the promise, and (OneReport) only one result does. */
  method ParseMemInfo(s: string) returns (r: MemResult)
    ensures Reported(ReadLines(Split(s, '\n')), r)
  {
    var text := Split(s, '\n');
    var sawTotal, total, sawAvailable, available, n := ScanLines(text);
    if !sawTotal {
      return NoTotal;
    }
    if !sawAvailable {
      var free := ScanFree(text);
      if free.Some? {
        available, sawAvailable := free.value, true;
      }
    }
    if !sawAvailable {
      return NoAvailable;
    }
    r := MemOk(MemInfo(total, available));
    assert Found(ReadLines(text), n, r.info);
  }

  // ---- what that means -------------------------------------------------------------

  lemma LatestUnique(lines: seq<Line>, n: nat, key: string, v: int, w: int)
    requires Latest(lines, n, key, v) && Latest(lines, n, key, w)
    ensures v == w
  {
  }

  lemma StopUnique(lines: seq<Line>, m: nat, n: nat)
    requires StopsAt(lines, m) && StopsAt(lines, n)
    ensures m == n
  {
  }

  lemma FreeUnique(lines: seq<Line>, v: int, w: int)
    requires FirstFree(lines, v) && FirstFree(lines, w)
    ensures v == w
  {
    var i :| 0 <= i < |lines| && IsFree(lines[i]) && lines[i].number == Some(v)
             && forall j :: 0 <= j < i ==> !IsFree(lines[j]);
    var k :| 0 <= k < |lines| && IsFree(lines[k]) && lines[k].number == Some(w)
             && forall j :: 0 <= j < k ==> !IsFree(lines[j]);
    assert i == k;
  }

  /** The promise fixes the result: no two different results keep it. */
  lemma OneReport(lines: seq<Line>, r: MemResult, t: MemResult)
    requires Reported(lines, r) && Reported(lines, t)
    ensures r == t
  {
    if r.MemOk? && t.MemOk? {
      var m: nat :| StopsAt(lines, m) && Found(lines, m, r.info);
      var n: nat :| StopsAt(lines, n) && Found(lines, n, t.info);
      StopUnique(lines, m, n);
      LatestUnique(lines, n, TOTAL, r.info.totalKB, t.info.totalKB);
      if Absent(lines, |lines|, AVAILABLE) {
        FreeUnique(lines, r.info.availableKB, t.info.availableKB);
      } else {
        LatestUnique(lines, n, AVAILABLE, r.info.availableKB, t.info.availableKB);
      }
    }
  }

  /** The only line that gives the key. */
  ghost predicate OnlyAt(lines: seq<Line>, p: nat, key: string)
  {
    p < |lines| && Gives(lines[p], key)
    && forall i :: 0 <= i < |lines| && i != p ==> !Gives(lines[i], key)
  }

  lemma OnlyLatest(lines: seq<Line>, p: nat, n: nat, key: string, v: int)
    requires OnlyAt(lines, p, key) && Latest(lines, n, key, v)
    ensures v == NumberIn(lines[p], key)
  {
  }

  /** On a report that gives each value once, in either order and among any other lines, the
      result is that pair. */
  lemma KernelReport(lines: seq<Line>, p: nat, q: nat, r: MemResult)
    requires OnlyAt(lines, p, TOTAL) && OnlyAt(lines, q, AVAILABLE) && Reported(lines, r)
    ensures r == MemOk(MemInfo(NumberIn(lines[p], TOTAL), NumberIn(lines[q], AVAILABLE)))
  {
    assert !Absent(lines, |lines|, TOTAL) && !Absent(lines, |lines|, AVAILABLE);
    var n: nat :| StopsAt(lines, n) && Found(lines, n, r.info);
    OnlyLatest(lines, p, n, TOTAL, r.info.totalKB);
    OnlyLatest(lines, q, n, AVAILABLE, r.info.availableKB);
  }

  /** When MemAvailable is never given, the first MemFree line alone decides: a readable one is
      the answer, an unreadable one is an error whatever the later ones say. */
  lemma FirstFreeDecides(lines: seq<Line>, i: nat, r: MemResult)
    requires !Absent(lines, |lines|, TOTAL) && Absent(lines, |lines|, AVAILABLE)
    requires i < |lines| && IsFree(lines[i]) && forall j :: 0 <= j < i ==> !IsFree(lines[j])
    requires Reported(lines, r)
    ensures if lines[i].number.Some? then r.MemOk? && r.info.availableKB == lines[i].number.value
            else r == NoAvailable
  {
    FreeDecided(lines, i);
    if r.MemOk? && lines[i].number.Some? {
      FreeUnique(lines, r.info.availableKB, lines[i].number.value);
    }
  }

  /** A report with a usable MemFree line that is not used, the first one being unreadable. */
  lemma SecondFreeUnused(total: int, free: int, r: MemResult)
    requires Reported([Entry(TOTAL, Some(total)), Entry(FREE, None), Entry(FREE, Some(free))], r)
    ensures r == NoAvailable
  {
    var lines := [Entry(TOTAL, Some(total)), Entry(FREE, None), Entry(FREE, Some(free))];
    assert TOTAL[3] != FREE[3];
    assert Gives(lines[0], TOTAL) && IsFree(lines[1]) && |AVAILABLE| > |TOTAL| > |FREE|;
    FirstFreeDecides(lines, 1, r);
  }

  lemma AbsentExtends(head: seq<Line>, tail: seq<Line>, n: nat, key: string)
    requires n <= |head|
    ensures Absent(head + tail, n, key) <==> Absent(head, n, key)
  {
    if Absent(head + tail, n, key) {
      forall i | 0 <= i < n ensures !Gives(head[i], key) {
        assert (head + tail)[i] == head[i];
      }
    }
  }

  lemma LatestExtends(head: seq<Line>, tail: seq<Line>, n: nat, key: string, v: int)
    requires n <= |head| && Latest(head, n, key, v)
    ensures Latest(head + tail, n, key, v)
  {
    var i :| 0 <= i < n && Gives(head[i], key) && NumberIn(head[i], key) == v
             && forall j :: i < j < n && j < |head| ==> !Gives(head[j], key);
    var lines := head + tail;
    assert lines[i] == head[i];
    forall j | i < j < n ensures !Gives(lines[j], key) {
      assert lines[j] == head[j];
    }
  }

  lemma StopExtends(head: seq<Line>, tail: seq<Line>, n: nat)
    requires !Absent(head, |head|, TOTAL) && !Absent(head, |head|, AVAILABLE)
    requires StopsAt(head, n)
    ensures StopsAt(head + tail, n)
  {
    AbsentExtends(head, tail, n, TOTAL);
    AbsentExtends(head, tail, n, AVAILABLE);
    if n > 0 {
      AbsentExtends(head, tail, n - 1, TOTAL);
      AbsentExtends(head, tail, n - 1, AVAILABLE);
    }
  }

  /** Once both values have been given, nothing that follows matters: an unreadable or
      contradicting line further down cannot change the result. */
  lemma RestIgnored(head: seq<Line>, tail: seq<Line>, r: MemResult, t: MemResult)
    requires !Absent(head, |head|, TOTAL) && !Absent(head, |head|, AVAILABLE)
    requires Reported(head, r) && Reported(head + tail, t)
    ensures r == t
  {
    var lines := head + tail;
    var n: nat :| StopsAt(head, n) && Found(head, n, r.info);
    StopExtends(head, tail, n);
    LatestExtends(head, tail, n, TOTAL, r.info.totalKB);
    LatestExtends(head, tail, n, AVAILABLE, r.info.availableKB);
    AbsentExtends(head, tail, |head|, AVAILABLE);
    assert !Absent(lines, |lines|, AVAILABLE);
    assert Found(lines, n, r.info);
    OneReport(lines, r, t);
  }

  // ---- what a line says ------------------------------------------------------------

  /** A line says something from its second word on: its key is the first word without a
      colon at its end, its number the second word if that is one. */
  lemma LineExactly(line: string, words: seq<string>)
    requires IsLine(line, words)
    ensures |words| < 2 <==> ReadLine(line) == Other
    ensures forall key, n :: ReadLine(line) == Entry(key, n) <==>
              |words| >= 2 && n == ParseInt(words[1])
              && (words[0] == key + ":" || (words[0] == key && key[|key| - 1] != ':'))
  {
    FieldsExactly(line, words);
    if |words| >= 2 {
      assert IsWord(words[0]) by {
        var gaps :| Fit(gaps, words) && Spaced(gaps, words) == line;
      }
    }
  }

  lemma KeyLine(line: string, words: seq<string>, key: string)
    requires IsLine(line, words) && |words| >= 2 && words[0] == key + ":"
    ensures ReadLine(line) == Entry(key, ParseInt(words[1]))
  {
    LineExactly(line, words);
  }

  /** The keys as the kernel writes them. */
  lemma KernelKeys(line: string, words: seq<string>, n: int)
    requires IsLine(line, words) && |words| >= 2 && ParseInt(words[1]) == Some(n)
    ensures words[0] == "MemTotal:" ==> Gives(ReadLine(line), TOTAL)
    ensures words[0] == "MemAvailable:" ==> Gives(ReadLine(line), AVAILABLE)
    ensures words[0] == "MemFree:" ==> IsFree(ReadLine(line)) && ReadLine(line).number == Some(n)
  {
    if words[0] == "MemTotal:" {
      assert words[0] == TOTAL + ":";
      KeyLine(line, words, TOTAL);
    } else if words[0] == "MemAvailable:" {
      assert words[0] == AVAILABLE + ":";
      KeyLine(line, words, AVAILABLE);
    } else if words[0] == "MemFree:" {
      assert words[0] == FREE + ":";
      KeyLine(line, words, FREE);
    }
    assert |"MemTotal:"| == 9 && |"MemAvailable:"| == 13 && |"MemFree:"| == 8;
  }
}
