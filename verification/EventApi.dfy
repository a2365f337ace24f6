/** The paged event endpoint of internal/server/api_events.go: one page, and walking the pages
    by their cursors while the bounded log goes on. */
module EventApi {
  import opened Text
  import opened Seqs
  import opened Events

  const DEFAULT_LIMIT := 200
  const MAX_LIMIT := 1000

  function ClampLimit(limit: int): (l: nat)
    ensures 1 <= l <= MAX_LIMIT
  {
    if limit <= 0 then DEFAULT_LIMIT else if limit > MAX_LIMIT then MAX_LIMIT else limit
  }

  /** The visibility rule both endpoints share. */
  function HostFilter(only: string, canSee: string -> bool): Event -> bool
  {
    (e: Event) => (only == "" || e.host == only) && canSee(e.host)
  }

  /** The events of one page. */
  function Page(h: seq<Event>, cap: nat, since: nat, limit: int, keep: Event -> bool): seq<Event>
  {
    Limited(Filter(h[Resume(h, cap, since)..], keep), ClampLimit(limit))
  }

  /** The cursor a page hands back. */
  function NextId(since: nat, page: seq<Event>): nat
  {
    if page == [] then since else page[|page| - 1].id
  }

  datatype EventsPage = EventsPage(events: seq<Event>, latestId: nat, nextId: nat)

  lemma PageEvent(h: seq<Event>, cap: nat, since: nat, limit: int, keep: Event -> bool, i: nat)
    requires Numbered(h) && i < |Page(h, cap, since, limit, keep)|
    ensures var e := Page(h, cap, since, limit, keep)[i];
            since < e.id <= |h| && e == h[e.id - 1] && keep(e)
  {
    var r := Resume(h, cap, since);
    var e := Page(h, cap, since, limit, keep)[i];
    FilterMember(h[r..], keep, e);
    var k :| 0 <= k < |h[r..]| && h[r..][k] == e;
    assert h[r + k] == e;
  }

  /** The events at positions a..b of a history. */
  function Span(h: seq<Event>, a: nat, b: nat): seq<Event>
  {
    if a < b <= |h| then h[a..b] else []
  }

  /** A non-empty page is every wanted event from the resume point to the new cursor. */
  lemma PageIsSpan(h: seq<Event>, cap: nat, since: nat, limit: int, keep: Event -> bool)
    requires Numbered(h)
    ensures var page := Page(h, cap, since, limit, keep);
            var r, next := Resume(h, cap, since), NextId(since, page);
            if page == [] then Filter(h[r..], keep) == []
            else since <= r < next <= |h| && page == Filter(h[r..next], keep)
  {
    var page := Page(h, cap, since, limit, keep);
    var r := Resume(h, cap, since);
    if page != [] {
      var k := FilterPrefix(h[r..], keep, |page|);
      assert h[r..][k - 1] == h[r + k - 1];
      assert h[r..][..k] == h[r..r + k];
    }
  }

  /** How many events a page has at most. */
  function MostEvents(limit: int): nat
  {
    if limit <= 0 then 200 else if limit > 1000 then 1000 else limit
  }

  /** What a caller who may see these hosts asks for: events of the one host, if one is named. */
  predicate Asked(e: Event, only: string, canSee: string -> bool)
  {
    canSee(e.host) && (only != "" ==> e.host == only)
  }

  /** A retained, wanted event past the cursor is missing from a page only if the page is full
      and ends before it. */
  lemma PageHasAll(h: seq<Event>, cap: nat, since: nat, limit: int, keep: Event -> bool, e: Event)
    requires Numbered(h) && e in Retained(h, cap) && e.id > since && keep(e)
    ensures var page := Page(h, cap, since, limit, keep);
            e in page || (|page| == ClampLimit(limit) && e.id > NextId(since, page))
  {
    var page, r := Page(h, cap, since, limit, keep), Resume(h, cap, since);
    assert e == h[e.id - 1] && r < e.id;
    if |page| < ClampLimit(limit) {
      assert page == Filter(h[r..], keep);
      assert h[r..][e.id - 1 - r] == e;
      FilterMember(h[r..], keep, e);
    } else if e.id <= NextId(since, page) {
      var next := NextId(since, page);
      PageIsSpan(h, cap, since, limit, keep);
      assert h[r..next][e.id - 1 - r] == e;
      FilterMember(h[r..next], keep, e);
    }
  }

  /** What a page with the shared visibility rule holds, and what it does not. */
  ghost predicate Answers(events: seq<Event>, h: seq<Event>, cap: nat, since: nat, limit: int,
                          only: string, canSee: string -> bool)
  {
    && |events| <= MostEvents(limit)
    && (forall e :: e in events ==> e in h && since < e.id <= |h| && Asked(e, only, canSee))
    && (forall e :: e in Retained(h, cap) && e.id > since && Asked(e, only, canSee) ==>
          e in events || (|events| == MostEvents(limit) && e.id > NextId(since, events)))
  }

  lemma PageAnswers(h: seq<Event>, cap: nat, since: nat, limit: int, only: string,
                    canSee: string -> bool)
    requires Numbered(h)
    ensures Answers(Page(h, cap, since, limit, HostFilter(only, canSee)), h, cap, since, limit, only,
                    canSee)
  {
    var keep := HostFilter(only, canSee);
    var page := Page(h, cap, since, limit, keep);
    forall e | e in page ensures e in h && since < e.id <= |h| && Asked(e, only, canSee) {
      var i :| 0 <= i < |page| && page[i] == e;
      PageEvent(h, cap, since, limit, keep, i);
    }
    forall e | e in Retained(h, cap) && e.id > since && Asked(e, only, canSee)
      ensures e in page || (|page| == MostEvents(limit) && e.id > NextId(since, page))
    {
      PageHasAll(h, cap, since, limit, keep, e);
    }
  }

  /** Other goroutines at work on the log. */
  method AppendAll(log: Log, es: seq<(Event, int)>)
    requires log.Valid()
    modifies log, log.subs.subs
    ensures log.Valid() && old(log.history) <= log.history
    ensures |log.history| == |old(log.history)| + |es|
  {
    for i := 0 to |es|
      invariant log.Valid() && old(log.history) <= log.history
      invariant |log.history| == |old(log.history)| + i
    {
      var _ := log.Append(es[i].0, es[i].1);
    }
  }

  /** GET /api/v1/events. The log is read twice, once for the page and once for the newest ID;
      `meanwhile` is what others append between the two. */
  method HandleEvents(log: Log, since: nat, limit: int, only: string, canSee: string -> bool,
                      meanwhile: seq<(Event, int)>) returns (page: EventsPage)
    requires log.Valid()
    modifies log, log.subs.subs
    ensures log.Valid() && old(log.history) <= log.history
    ensures page.events == Page(old(log.history), log.cap, since, limit, HostFilter(only, canSee))
    ensures page.nextId == NextId(since, page.events)
    ensures page.latestId == |log.history| == |old(log.history)| + |meanwhile|
    ensures forall e :: e in page.events ==> since < e.id <= page.latestId
    ensures Answers(page.events, old(log.history), log.cap, since, limit, only, canSee)
  {
    ghost var h := log.history;
    var keep := HostFilter(only, canSee);
    var lim := if limit <= 0 then DEFAULT_LIMIT else limit;
    if lim > MAX_LIMIT {
      lim := MAX_LIMIT;
    }
    var events := log.Since(since, lim, Some(keep));
    assert events == Page(h, log.cap, since, limit, keep);
    AppendAll(log, meanwhile);
    var latest := log.LatestID();
    var next := since;
    if |events| > 0 {
      next := events[|events| - 1].id;
    }
    PageAnswers(h, log.cap, since, limit, only, canSee);
    page := EventsPage(events, latest, next);
  }

  // ---- walking the pages of a quiet log --------------------------------------------

  /** Follow next_id until a page comes back empty. */
  function Walk(h: seq<Event>, cap: nat, since: nat, limit: int, keep: Event -> bool)
      : (pages: seq<seq<Event>>)
    requires Numbered(h)
    decreases if since < |h| then |h| - since else 0
  {
    var page := Page(h, cap, since, limit, keep);
    if page == [] then []
    else
      PageIsSpan(h, cap, since, limit, keep);
      [page] + Walk(h, cap, NextId(since, page), limit, keep)
  }

  lemma JoinCons<T>(first: seq<T>, rest: seq<seq<T>>)
    ensures Join([first] + rest, []) == first + Join(rest, [])
  {
    assert ([first] + rest)[1..] == rest;
    assert first + [] == first;
  }

  /** On a quiet log the walk ends (Walk is total), and its pages concatenate to exactly the
      wanted events the log still holds past the cursor. */
  lemma {:induction false} QuietWalk(h: seq<Event>, cap: nat, since: nat, limit: int,
                                     keep: Event -> bool)
    requires Numbered(h)
    ensures Join(Walk(h, cap, since, limit, keep), [])
         == Filter(h[Resume(h, cap, since)..], keep)
    decreases if since < |h| then |h| - since else 0
  {
    var page := Page(h, cap, since, limit, keep);
    PageIsSpan(h, cap, since, limit, keep);
    if page != [] {
      var r, next := Resume(h, cap, since), NextId(since, page);
      QuietWalk(h, cap, next, limit, keep);
      assert Resume(h, cap, next) == next;
      assert h[r..] == h[r..next] + h[next..];
      FilterConcat(h[r..next], h[next..], keep);
      JoinCons(page, Walk(h, cap, next, limit, keep));
    }
  }

  // ---- walking while events are appended -------------------------------------------

  datatype WalkStep = Appended(e: Event) | Fetched(limit: int, keep: Event -> bool)

  /** `skipped`: some page that returned events had already lost a wanted event past its
      cursor to eviction. */
  datatype Walker = Walker(history: seq<Event>, cap: nat, start: nat, cursor: nat,
                           got: seq<Event>, skipped: bool)

  function WalkNext(w: Walker, s: WalkStep): Walker
  {
    match s
    case Appended(e) => w.(history := w.history + [e.(id := |w.history| + 1)])
    case Fetched(limit, keep) =>
      var page := Page(w.history, w.cap, w.cursor, limit, keep);
      var lost := Filter(Span(w.history, w.cursor, Resume(w.history, w.cap, w.cursor)), keep);
      w.(got := w.got + page, cursor := NextId(w.cursor, page),
         skipped := w.skipped || (page != [] && lost != []))
  }

  function WalkAfter(cap: nat, start: nat, steps: seq<WalkStep>): Walker
    decreases |steps|
  {
    if steps == [] then Walker([], cap, start, start, [], false)
    else WalkNext(WalkAfter(cap, start, steps[..|steps| - 1]), steps[|steps| - 1])
  }

  /** What is appended joins the history. A fetch moves the cursor past what it returns, and
      returns something if the log holds anything wanted past the cursor. */
  lemma WalkProgress(w: Walker, e: Event, limit: int, keep: Event -> bool)
    requires Numbered(w.history)
    ensures WalkNext(w, Appended(e)).history == w.history + [e.(id := |w.history| + 1)]
    ensures var t := WalkNext(w, Fetched(limit, keep));
            && t.history == w.history && w.got <= t.got
            && (t.cursor == w.cursor <==> t.got == w.got)
            && (t.got == w.got ==> forall x :: x in Retained(w.history, w.cap) && keep(x) ==>
                  x.id <= w.cursor)
            && (|t.got| > |w.got| ==> t.cursor == t.got[|t.got| - 1].id)
  {
    var page := Page(w.history, w.cap, w.cursor, limit, keep);
    if page == [] {
      assert w.got + page == w.got;
      forall x | x in Retained(w.history, w.cap) && keep(x) ensures x.id <= w.cursor {
        if x.id > w.cursor {
          PageHasAll(w.history, w.cap, w.cursor, limit, keep, x);
        }
      }
    } else {
      PageEvent(w.history, w.cap, w.cursor, limit, keep, |page| - 1);
    }
  }

  /** Strictly increasing IDs, all from `lo` exclusive to `hi` inclusive. */
  ghost predicate Increasing(es: seq<Event>, lo: nat, hi: nat)
  {
    && (forall i :: 0 <= i < |es| ==> lo < es[i].id <= hi)
    && (forall i, j :: 0 <= i < j < |es| ==> es[i].id < es[j].id)
  }

  lemma IncreasingConcat(a: seq<Event>, b: seq<Event>, lo: nat, mid: nat, hi: nat)
    requires lo <= mid <= hi && Increasing(a, lo, mid) && Increasing(b, mid, hi)
    ensures Increasing(a + b, lo, hi)
  {
  }

  lemma {:induction false} FilterIncreasing(s: seq<Event>, keep: Event -> bool, lo: nat, hi: nat)
    requires Increasing(s, lo, hi)
    ensures Increasing(Filter(s, keep), lo, hi)
    decreases |s|
  {
    if s != [] {
      var n := |s| - 1;
      var f := Filter(s[..n], keep);
      FilterIncreasing(s[..n], keep, lo, hi);
      forall i | 0 <= i < |f| ensures f[i].id < s[n].id {
        FilterMember(s[..n], keep, f[i]);
      }
    }
  }

  lemma SpanIncreasing(h: seq<Event>, a: nat, b: nat)
    requires Numbered(h) && a <= b <= |h|
    ensures Increasing(h[a..b], a, b)
  {
  }

  /** Events of this history, each under its own ID. */
  ghost predicate Genuine(es: seq<Event>, h: seq<Event>)
  {
    forall i :: 0 <= i < |es| ==> 0 < es[i].id <= |h| && es[i] == h[es[i].id - 1]
  }

  lemma GenuineConcat(a: seq<Event>, b: seq<Event>, h: seq<Event>)
    requires Genuine(a, h) && Genuine(b, h)
    ensures Genuine(a + b, h)
  {
  }

  ghost predicate WalkInvariant(w: Walker)
  {
    && Numbered(w.history)
    && w.start <= w.cursor && (w.cursor == w.start || w.cursor <= |w.history|)
    && Increasing(w.got, w.start, w.cursor)
    && Genuine(w.got, w.history)
  }

  lemma PageIncreasing(h: seq<Event>, cap: nat, since: nat, limit: int, keep: Event -> bool)
    requires Numbered(h)
    ensures var page := Page(h, cap, since, limit, keep);
            Increasing(page, since, NextId(since, page))
  {
    var page := Page(h, cap, since, limit, keep);
    PageIsSpan(h, cap, since, limit, keep);
    if page != [] {
      var r, next := Resume(h, cap, since), NextId(since, page);
      SpanIncreasing(h, r, next);
      FilterIncreasing(h[r..next], keep, r, next);
    }
  }

  lemma PageGenuine(h: seq<Event>, cap: nat, since: nat, limit: int, keep: Event -> bool)
    requires Numbered(h)
    ensures var page := Page(h, cap, since, limit, keep);
            Increasing(page, since, NextId(since, page)) && Genuine(page, h)
  {
    var page := Page(h, cap, since, limit, keep);
    PageIncreasing(h, cap, since, limit, keep);
    forall i | 0 <= i < |page|
      ensures since < page[i].id <= |h| && page[i] == h[page[i].id - 1]
    {
      PageEvent(h, cap, since, limit, keep, i);
    }
  }

  lemma FetchKeeps(w: Walker, limit: int, keep: Event -> bool)
    requires WalkInvariant(w)
    ensures WalkInvariant(WalkNext(w, Fetched(limit, keep)))
  {
    var page := Page(w.history, w.cap, w.cursor, limit, keep);
    PageIsSpan(w.history, w.cap, w.cursor, limit, keep);
    PageGenuine(w.history, w.cap, w.cursor, limit, keep);
    IncreasingConcat(w.got, page, w.start, w.cursor, NextId(w.cursor, page));
    GenuineConcat(w.got, page, w.history);
  }

  lemma WalkStepKeeps(w: Walker, s: WalkStep)
    requires WalkInvariant(w)
    ensures WalkInvariant(WalkNext(w, s))
  {
    if s.Fetched? {
      FetchKeeps(w, s.limit, s.keep);
    }
  }

  /** However appends, evictions and permission changes interleave with the page requests,
      the walk returns genuine events with strictly increasing IDs past the first cursor,
      none beyond the newest ID in the log. */
  lemma {:induction false} WalkIncreasing(cap: nat, start: nat, steps: seq<WalkStep>)
    ensures WalkInvariant(WalkAfter(cap, start, steps))
    decreases |steps|
  {
    if steps != [] {
      var before := steps[..|steps| - 1];
      WalkIncreasing(cap, start, before);
      WalkStepKeeps(WalkAfter(cap, start, before), steps[|steps| - 1]);
    }
  }

  /** Every wanted event from the first cursor to the current one. */
  function AllWanted(w: Walker, keep: Event -> bool): seq<Event>
  {
    Filter(Span(w.history, w.start, w.cursor), keep)
  }

  ghost predicate WalkComplete(w: Walker, keep: Event -> bool)
  {
    && (!w.skipped ==> w.got == AllWanted(w, keep))
    && (w.skipped ==> |w.got| < |AllWanted(w, keep)|)
  }

  lemma SpanConcat(h: seq<Event>, a: nat, b: nat, c: nat)
    requires a <= b <= c <= |h|
    ensures Span(h, a, c) == Span(h, a, b) + Span(h, b, c)
  {
  }

  lemma SpanSplit(h: seq<Event>, a: nat, b: nat, c: nat, keep: Event -> bool)
    requires a <= b <= c <= |h|
    ensures Filter(Span(h, a, c), keep) == Filter(Span(h, a, b), keep) + Filter(Span(h, b, c), keep)
  {
    SpanConcat(h, a, b, c);
    FilterConcat(Span(h, a, b), Span(h, b, c), keep);
  }

  /** A page taken from r on extends the walk from its cursor to `next`. */
  lemma PageCompletes(w: Walker, r: nat, next: nat, page: seq<Event>, keep: Event -> bool)
    requires w.start <= w.cursor <= r <= next <= |w.history|
    requires WalkComplete(w, keep) && page == Filter(w.history[r..next], keep)
    ensures var all := Filter(Span(w.history, w.start, next), keep);
            var gap := Filter(Span(w.history, w.cursor, r), keep);
            && all == AllWanted(w, keep) + (gap + page)
            && |all| == |AllWanted(w, keep)| + |gap| + |page|
            && (gap == [] && !w.skipped ==> all == w.got + page)
  {
    SpanSplit(w.history, w.cursor, r, next, keep);
    SpanSplit(w.history, w.start, w.cursor, next, keep);
    assert Span(w.history, r, next) == w.history[r..next];
  }

  lemma FetchComplete(w: Walker, limit: int, keep: Event -> bool)
    requires WalkInvariant(w) && WalkComplete(w, keep)
    ensures WalkComplete(WalkNext(w, Fetched(limit, keep)), keep)
  {
    var h := w.history;
    var page := Page(h, w.cap, w.cursor, limit, keep);
    var r, next := Resume(h, w.cap, w.cursor), NextId(w.cursor, page);
    PageIsSpan(h, w.cap, w.cursor, limit, keep);
    if page != [] {
      PageCompletes(w, r, next, page, keep);
    } else {
      assert w.got + page == w.got;
    }
  }

  /** With one filter throughout, the pages concatenate to exactly the wanted events of the
      unbounded history up to the final cursor if and only if no page skipped an eviction. */
  lemma {:induction false} WalkExact(cap: nat, start: nat, steps: seq<WalkStep>,
                                     keep: Event -> bool)
    requires forall i :: 0 <= i < |steps| && steps[i].Fetched? ==> steps[i].keep == keep
    ensures WalkComplete(WalkAfter(cap, start, steps), keep)
    ensures var w := WalkAfter(cap, start, steps); w.got == AllWanted(w, keep) <==> !w.skipped
    decreases |steps|
  {
    if steps != [] {
      var n := |steps| - 1;
      WalkExact(cap, start, steps[..n], keep);
      WalkIncreasing(cap, start, steps[..n]);
      var w := WalkAfter(cap, start, steps[..n]);
      match steps[n]
      case Fetched(limit, k) => FetchComplete(w, limit, keep);
      case Appended(e) =>
        var v := WalkNext(w, steps[n]);
        assert Span(v.history, v.start, v.cursor) == Span(w.history, w.start, w.cursor);
    }
  }
}
