/** The streaming endpoint of internal/server/api_events.go: an optional replay of the log
    since a cursor, then a subscription drained to the client, with appends interleaved
    everywhere. */
module EventStream {
  import opened Seqs
  import opened Events
  import opened EventApi
  import opened PubSub

  datatype Phase = Connected | Replayed | Live

  /** `since` is the replay cursor (|history| at that moment when there is no replay),
      `resumedAt` the resume point, `replayedAt` and `joinedAt` the lengths of the history
      when the replay query and the subscription took place. */
  datatype Stream = Stream(history: seq<Event>, cap: nat, phase: Phase, since: nat,
                           resumedAt: nat, replayedAt: nat, joinedAt: nat,
                           queue: Queue<Event>, written: seq<Event>)

  /** `keep` is the visibility rule at the time of the step. */
  datatype Step =
    | Append(e: Event)
    | Replay(since: nat, keep: Event -> bool)
    | NoReplay
    | Subscribe
    | Deliver(keep: Event -> bool)

  predicate Enabled(s: Stream, step: Step)
  {
    match step
    case Append(_) => true
    case Replay(_, _) => s.phase == Connected
    case NoReplay => s.phase == Connected
    case Subscribe => s.phase == Replayed
    case Deliver(_) => s.phase == Live && s.queue.buf != []
  }

  function Next(s: Stream, step: Step): Stream
    requires Enabled(s, step)
  {
    var now := |s.history|;
    match step
    case Append(e) =>
      var stored := e.(id := now + 1);
      s.(history := s.history + [stored],
         queue := if s.phase == Live then s.queue.Offer(stored) else s.queue)
    case Replay(since, keep) =>
      s.(phase := Replayed, since := since, resumedAt := Resume(s.history, s.cap, since),
         replayedAt := now, written := Page(s.history, s.cap, since, MAX_LIMIT, keep))
    case NoReplay => s.(phase := Replayed, since := now, resumedAt := now, replayedAt := now)
    case Subscribe => s.(phase := Live, joinedAt := now, queue := EmptyQueue(64))
    case Deliver(keep) =>
      var x := s.queue.buf[0];
      s.(queue := s.queue.Take(), written := s.written + if keep(x) then [x] else [])
  }

  ghost predicate IsRun(cap: nat, steps: seq<Step>, states: seq<Stream>)
  {
    && |states| == |steps| + 1
    && states[0] == Stream([], cap, Connected, 0, 0, 0, 0, EmptyQueue(64), [])
    && forall i :: 0 <= i < |steps| ==>
         Enabled(states[i], steps[i]) && states[i + 1] == Next(states[i], steps[i])
  }

  // ---- order -----------------------------------------------------------------------

  /** What the client has and what is on its way to it, in the order it will see it. */
  function Outgoing(s: Stream): seq<Event>
  {
    s.written + s.queue.buf
  }

  /** The cursor, if the log had reached it when the replay query was made. */
  function Floor(s: Stream): nat
  {
    if s.since <= s.replayedAt then s.since else 0
  }

  ghost predicate OrderInvariant(s: Stream)
  {
    && Numbered(s.history)
    && s.replayedAt <= |s.history|
    && Increasing(Outgoing(s), Floor(s), |s.history|)
    && (s.phase == Connected ==> s.written == [])
    && (s.phase != Live ==> s.queue == EmptyQueue(64))
  }

  lemma AppendOrder(s: Stream, e: Event)
    requires OrderInvariant(s)
    ensures OrderInvariant(Next(s, Append(e)))
  {
    var t := Next(s, Append(e));
    if s.phase == Live && |s.queue.buf| < s.queue.cap {
      assert Outgoing(t) == Outgoing(s) + [t.history[|s.history|]];
    } else {
      assert Outgoing(t) == Outgoing(s);
    }
  }

  lemma ReplayOrder(s: Stream, since: nat, keep: Event -> bool)
    requires OrderInvariant(s) && s.phase == Connected
    ensures OrderInvariant(Next(s, Replay(since, keep)))
  {
    var page := Page(s.history, s.cap, since, MAX_LIMIT, keep);
    PageIsSpan(s.history, s.cap, since, MAX_LIMIT, keep);
    if page != [] {
      var r, next := Resume(s.history, s.cap, since), NextId(since, page);
      SpanIncreasing(s.history, r, next);
      FilterIncreasing(s.history[r..next], keep, r, next);
    }
    assert Outgoing(Next(s, Replay(since, keep))) == page;
  }

  lemma WithoutOne(es: seq<Event>, n: nat, lo: nat, hi: nat)
    requires n < |es| && Increasing(es, lo, hi)
    ensures Increasing(es[..n] + es[n + 1..], lo, hi)
  {
  }

  lemma DeliverOrder(s: Stream, keep: Event -> bool)
    requires OrderInvariant(s) && Enabled(s, Deliver(keep))
    ensures OrderInvariant(Next(s, Deliver(keep)))
  {
    var t := Next(s, Deliver(keep));
    var n := |s.written|;
    if keep(s.queue.buf[0]) {
      assert Outgoing(t) == Outgoing(s);
    } else {
      assert Outgoing(t) == Outgoing(s)[..n] + Outgoing(s)[n + 1..];
      WithoutOne(Outgoing(s), n, Floor(s), |s.history|);
    }
  }

  lemma OrderKept(s: Stream, step: Step)
    requires OrderInvariant(s) && Enabled(s, step)
    ensures OrderInvariant(Next(s, step))
  {
    match step
    case Append(e) => AppendOrder(s, e);
    case Replay(since, keep) => ReplayOrder(s, since, keep);
    case Deliver(keep) => DeliverOrder(s, keep);
    case _ => assert Outgoing(Next(s, step)) == Outgoing(s);
  }

  /** On one connection the IDs written are strictly increasing, across replay and live
      phases and whatever is appended, evicted or dropped meanwhile; and all of them are past
      the cursor if the log had reached it when the replay query was made. */
  lemma {:induction false} StreamIncreasing(cap: nat, steps: seq<Step>, states: seq<Stream>, i: nat)
    requires IsRun(cap, steps, states) && i < |states|
    ensures OrderInvariant(states[i])
    ensures Increasing(states[i].written, Floor(states[i]), |states[i].history|)
  {
    if i > 0 {
      StreamIncreasing(cap, steps, states, i - 1);
      OrderKept(states[i - 1], steps[i - 1]);
    } else {
      assert Outgoing(states[0]) == [];
    }
    forall j | 0 <= j < |states[i].written| ensures states[i].written[j] == Outgoing(states[i])[j] {}
  }

  // ---- completeness ----------------------------------------------------------------

  /** The four ways a visible event past the cursor can fail to reach the client. */
  predicate Lossless(s: Stream, keep: Event -> bool)
  {
    // it was evicted before the replay query
    && Filter(Span(s.history, s.since, s.resumedAt), keep) == []
    // it was past the replay limit
    && |Filter(Span(s.history, s.resumedAt, s.replayedAt), keep)| <= MAX_LIMIT
    // it was appended between the replay query and the subscription
    && Filter(Span(s.history, s.replayedAt, s.joinedAt), keep) == []
    // it was dropped because the channel buffer was full
    && Filter(s.queue.dropped, keep) == []
  }

  /** All steps judge visibility by `keep`. */
  ghost predicate Uses(step: Step, keep: Event -> bool)
  {
    (step.Replay? || step.Deliver?) ==> step.keep == keep
  }

  /** What the replay query returned. */
  function ReplayPart(s: Stream, keep: Event -> bool): seq<Event>
  {
    Limited(Filter(Span(s.history, s.resumedAt, s.replayedAt), keep), MAX_LIMIT)
  }

  ghost predicate Balanced(q: Queue<Event>, keep: Event -> bool)
  {
    && |Filter(q.Received(), keep)| + |Filter(q.dropped, keep)| == |Filter(q.offered, keep)|
    && (Filter(q.dropped, keep) == [] ==> Filter(q.Received(), keep) == Filter(q.offered, keep))
  }

  ghost predicate Completeness(s: Stream, keep: Event -> bool)
  {
    var n := |s.history|;
    match s.phase
    case Connected => s.written == []
    case Replayed =>
      s.resumedAt <= s.replayedAt <= n && s.written == ReplayPart(s, keep)
    case Live =>
      && s.resumedAt <= s.replayedAt <= s.joinedAt <= n
      && s.queue.offered == s.history[s.joinedAt..]
      && s.written + Filter(s.queue.buf, keep)
         == ReplayPart(s, keep) + Filter(s.queue.Received(), keep)
      && Balanced(s.queue, keep)
  }

  lemma OfferReceived(q: Queue<Event>, x: Event)
    requires |q.buf| < q.cap
    ensures q.Offer(x).buf == q.buf + [x] && q.Offer(x).Received() == q.Received() + [x]
  {
  }

  lemma OfferBalanced(q: Queue<Event>, x: Event, keep: Event -> bool)
    requires Balanced(q, keep)
    ensures Balanced(q.Offer(x), keep)
  {
    FilterAppend(q.offered, x, keep);
    FilterAppend(q.Received(), x, keep);
    FilterAppend(q.dropped, x, keep);
    if |q.buf| < q.cap {
      OfferReceived(q, x);
    }
  }

  lemma SpanOfPrefix(h: seq<Event>, x: Event, a: nat, b: nat)
    requires b <= |h|
    ensures Span(h + [x], a, b) == Span(h, a, b)
  {
  }

  lemma SameTail(a: seq<Event>, b: seq<Event>, c: seq<Event>, d: seq<Event>, tail: seq<Event>)
    requires a + b == c + d
    ensures a + (b + tail) == c + (d + tail)
  {
    assert a + (b + tail) == (a + b) + tail && c + (d + tail) == (c + d) + tail;
  }

  /** Offering to the channel adds the same to what is queued and to what was received. */
  lemma OfferSent(q: Queue<Event>, sent: seq<Event>, base: seq<Event>, x: Event,
                  keep: Event -> bool)
    requires sent + Filter(q.buf, keep) == base + Filter(q.Received(), keep)
    ensures sent + Filter(q.Offer(x).buf, keep) == base + Filter(q.Offer(x).Received(), keep)
  {
    if |q.buf| < q.cap {
      var tail := if keep(x) then [x] else [];
      FilterAppend(q.buf, x, keep);
      FilterAppend(q.Received(), x, keep);
      OfferReceived(q, x);
      assert Filter(q.Offer(x).buf, keep) == Filter(q.buf, keep) + tail;
      assert Filter(q.Offer(x).Received(), keep) == Filter(q.Received(), keep) + tail;
      SameTail(sent, Filter(q.buf, keep), base, Filter(q.Received(), keep), tail);
    }
  }

  lemma AppendKeepsReplay(s: Stream, e: Event, keep: Event -> bool)
    requires s.replayedAt <= |s.history|
    ensures ReplayPart(Next(s, Append(e)), keep) == ReplayPart(s, keep)
  {
    SpanOfPrefix(s.history, e.(id := |s.history| + 1), s.resumedAt, s.replayedAt);
  }

  lemma AppendLive(s: Stream, e: Event, keep: Event -> bool)
    requires Completeness(s, keep) && s.phase == Live
    ensures Completeness(Next(s, Append(e)), keep)
  {
    var x := e.(id := |s.history| + 1);
    var t := Next(s, Append(e));
    assert t.queue == s.queue.Offer(x);
    assert t.queue.offered == t.history[t.joinedAt..] by {
      assert (s.history + [x])[s.joinedAt..] == s.history[s.joinedAt..] + [x];
    }
    AppendKeepsReplay(s, e, keep);
    assert Balanced(t.queue, keep) by {
      OfferBalanced(s.queue, x, keep);
    }
    OfferSent(s.queue, s.written, ReplayPart(s, keep), x, keep);
  }

  lemma AppendComplete(s: Stream, e: Event, keep: Event -> bool)
    requires Completeness(s, keep)
    ensures Completeness(Next(s, Append(e)), keep)
  {
    if s.phase == Live {
      AppendLive(s, e, keep);
    } else if s.phase == Replayed {
      AppendKeepsReplay(s, e, keep);
    }
  }

  /** Taking from the channel moves what is wanted from what is queued to what is sent. */
  lemma TakeSent(q: Queue<Event>, sent: seq<Event>, keep: Event -> bool)
    requires q.buf != []
    ensures var x := q.buf[0];
            (sent + if keep(x) then [x] else []) + Filter(q.Take().buf, keep)
            == sent + Filter(q.buf, keep)
  {
    var x := q.buf[0];
    assert q.buf == [x] + q.buf[1..];
    FilterConcat([x], q.buf[1..], keep);
    FilterAppend([], x, keep);
    assert [] + [x] == [x];
  }

  lemma DeliverComplete(s: Stream, keep: Event -> bool)
    requires Completeness(s, keep) && Enabled(s, Deliver(keep))
    ensures Completeness(Next(s, Deliver(keep)), keep)
  {
    var t := Next(s, Deliver(keep));
    assert t.queue.Received() == s.queue.Received();
    assert ReplayPart(t, keep) == ReplayPart(s, keep);
    TakeSent(s.queue, s.written, keep);
  }

  lemma ReplayComplete(s: Stream, step: Step, keep: Event -> bool)
    requires Completeness(s, keep) && Enabled(s, step) && Uses(step, keep)
    requires step.Replay? || step.NoReplay?
    ensures Completeness(Next(s, step), keep)
  {
    if step.Replay? {
      var r := Resume(s.history, s.cap, step.since);
      assert Span(s.history, r, |s.history|) == s.history[r..];
    }
  }

  lemma StepComplete(s: Stream, step: Step, keep: Event -> bool)
    requires Completeness(s, keep) && Enabled(s, step) && Uses(step, keep)
    ensures Completeness(Next(s, step), keep)
  {
    match step
    case Append(e) => AppendComplete(s, e, keep);
    case Deliver(_) => DeliverComplete(s, keep);
    case Subscribe => assert ReplayPart(Next(s, step), keep) == ReplayPart(s, keep);
    case _ => ReplayComplete(s, step, keep);
  }

  lemma {:induction false} RunComplete(cap: nat, steps: seq<Step>, states: seq<Stream>,
                                       keep: Event -> bool, i: nat)
    requires IsRun(cap, steps, states) && i < |states|
    requires forall j :: 0 <= j < |steps| ==> Uses(steps[j], keep)
    ensures Completeness(states[i], keep)
  {
    if i > 0 {
      RunComplete(cap, steps, states, keep, i - 1);
      StepComplete(states[i - 1], steps[i - 1], keep);
    }
  }

  /** The visible history past the cursor. */
  function AllVisible(s: Stream, keep: Event -> bool): seq<Event>
  {
    Filter(Span(s.history, s.since, |s.history|), keep)
  }

  lemma Regroup(a: seq<Event>, b: seq<Event>, c: seq<Event>, d: seq<Event>)
    ensures a + (b + (c + d)) == a + b + c + d
  {
  }

  /** The history past the cursor, cut at the resume, replay and subscription points. */
  lemma VisibleParts(s: Stream, keep: Event -> bool)
    requires s.since <= s.resumedAt <= s.replayedAt <= s.joinedAt <= |s.history|
    ensures AllVisible(s, keep)
         == Filter(Span(s.history, s.since, s.resumedAt), keep)
          + Filter(Span(s.history, s.resumedAt, s.replayedAt), keep)
          + Filter(Span(s.history, s.replayedAt, s.joinedAt), keep)
          + Filter(s.history[s.joinedAt..], keep)
  {
    var n := |s.history|;
    SpanSplit(s.history, s.since, s.resumedAt, n, keep);
    SpanSplit(s.history, s.resumedAt, s.replayedAt, n, keep);
    SpanSplit(s.history, s.replayedAt, s.joinedAt, n, keep);
    assert Span(s.history, s.joinedAt, n) == s.history[s.joinedAt..];
    Regroup(Filter(Span(s.history, s.since, s.resumedAt), keep),
            Filter(Span(s.history, s.resumedAt, s.replayedAt), keep),
            Filter(Span(s.history, s.replayedAt, s.joinedAt), keep),
            Filter(s.history[s.joinedAt..], keep));
  }

  /** Once live, what the client has been sent together with what is queued for it is the
      full visible history past its cursor if and only if nothing was lost to eviction, the
      replay limit, the gap before the subscription, or a full buffer. The cursor is one
      this log could have handed out. */
  lemma StreamExact(cap: nat, steps: seq<Step>, states: seq<Stream>, keep: Event -> bool, i: nat)
    requires IsRun(cap, steps, states) && i < |states| && states[i].phase == Live
    requires forall j :: 0 <= j < |steps| ==> Uses(steps[j], keep)
    requires states[i].since <= states[i].resumedAt
    ensures var s := states[i];
            s.written + Filter(s.queue.buf, keep) == AllVisible(s, keep) <==> Lossless(s, keep)
  {
    RunComplete(cap, steps, states, keep, i);
    var s := states[i];
    VisibleParts(s, keep);
    var evicted := Filter(Span(s.history, s.since, s.resumedAt), keep);
    var replay := Filter(Span(s.history, s.resumedAt, s.replayedAt), keep);
    var gap := Filter(Span(s.history, s.replayedAt, s.joinedAt), keep);
    var live := Filter(s.queue.offered, keep);
    var sent := s.written + Filter(s.queue.buf, keep);
    assert |sent| == |ReplayPart(s, keep)| + |live| - |Filter(s.queue.dropped, keep)|;
    assert |AllVisible(s, keep)| == |evicted| + |replay| + |gap| + |live|;
    if Lossless(s, keep) {
      assert AllVisible(s, keep) == [] + replay + [] + live;
      assert sent == replay + live;
    }
  }

  lemma {:induction false} RoomFor64(cap: nat, steps: seq<Step>, states: seq<Stream>, i: nat)
    requires IsRun(cap, steps, states) && i < |states|
    ensures states[i].queue.cap == 64 && |states[i].queue.buf| <= 64
  {
    if i > 0 {
      RoomFor64(cap, steps, states, i - 1);
    }
  }

  /** An event is dropped exactly if it comes while 64 are waiting to be written. */
  lemma DroppedWhenFull(cap: nat, steps: seq<Step>, states: seq<Stream>, i: nat, e: Event)
    requires IsRun(cap, steps, states) && i < |states| && states[i].phase == Live
    ensures var q, stored := Next(states[i], Append(e)).queue, e.(id := |states[i].history| + 1);
            if |states[i].queue.buf| == 64 then q.dropped == states[i].queue.dropped + [stored]
            else q.dropped == states[i].queue.dropped && q.buf == states[i].queue.buf + [stored]
  {
    RoomFor64(cap, steps, states, i);
  }

  /** A connection replays once, at most. */
  lemma {:induction false} CursorStays(cap: nat, steps: seq<Step>, states: seq<Stream>, i: nat,
                                       k: nat)
    requires IsRun(cap, steps, states) && i <= k < |states| && states[i].phase != Connected
    ensures states[k].phase != Connected
    ensures states[k].since == states[i].since && states[k].replayedAt == states[i].replayedAt
    ensures states[k].resumedAt == states[i].resumedAt
  {
    if i < k {
      CursorStays(cap, steps, states, i, k - 1);
    }
  }

  /** A client that names no cursor gets what is appended after it connected, and that is
      where its part of the history begins. */
  lemma WithoutCursor(cap: nat, steps: seq<Step>, states: seq<Stream>, j: nat, i: nat)
    requires IsRun(cap, steps, states) && j < i < |states| && steps[j] == NoReplay
    ensures states[i].since == states[i].resumedAt == |states[j].history|
    ensures forall k :: 0 <= k < |states[i].written| ==>
              states[i].written[k].id > |states[j].history|
  {
    CursorStays(cap, steps, states, j + 1, i);
    StreamIncreasing(cap, steps, states, i);
  }

  // ---- with the shared visibility rule ---------------------------------------------

  /** The rule of the step is the shared one for this ?host=, with permissions of the moment
      that never exceed `may`. */
  ghost predicate Permits(step: Step, only: string, may: string -> bool)
  {
    step.Replay? || step.Deliver? ==>
      exists canSee: string -> bool ::
        step.keep == HostFilter(only, canSee) && forall h :: canSee(h) ==> may(h)
  }

  ghost predicate AllAsked(es: seq<Event>, only: string, may: string -> bool)
  {
    forall e :: e in es ==> Asked(e, only, may)
  }

  lemma StepAsked(s: Stream, step: Step, only: string, may: string -> bool)
    requires Enabled(s, step) && Permits(step, only, may)
    requires OrderInvariant(s) && AllAsked(s.written, only, may)
    ensures AllAsked(Next(s, step).written, only, may)
  {
    if step.Replay? || step.Deliver? {
      var canSee: string -> bool :|
        step.keep == HostFilter(only, canSee) && forall h :: canSee(h) ==> may(h);
      if step.Replay? {
        var page := Page(s.history, s.cap, step.since, MAX_LIMIT, step.keep);
        forall e | e in page ensures Asked(e, only, may) {
          PageEvent(s.history, s.cap, step.since, MAX_LIMIT, step.keep,
                    var i :| 0 <= i < |page| && page[i] == e; i);
        }
      }
    }
  }

  /** However the permissions change during a connection, an event of a host that the caller
      may never see in its course, or of another host than the one asked for, is never
      written. */
  lemma {:induction false} StreamVisible(cap: nat, steps: seq<Step>, states: seq<Stream>,
                                         only: string, may: string -> bool, i: nat)
    requires IsRun(cap, steps, states) && i < |states|
    requires forall j :: 0 <= j < |steps| ==> Permits(steps[j], only, may)
    ensures AllAsked(states[i].written, only, may)
  {
    if i > 0 {
      StreamVisible(cap, steps, states, only, may, i - 1);
      StreamIncreasing(cap, steps, states, i - 1);
      StepAsked(states[i - 1], steps[i - 1], only, may);
    }
  }

  lemma AskedIsVisible(s: Stream, only: string, canSee: string -> bool, e: Event)
    requires Numbered(s.history) && e in s.history && e.id > s.since && Asked(e, only, canSee)
    ensures e in AllVisible(s, HostFilter(only, canSee))
  {
    var past := Span(s.history, s.since, |s.history|);
    assert e == s.history[e.id - 1] && past[e.id - 1 - s.since] == e;
    FilterMember(past, HostFilter(only, canSee), e);
  }

  /** And with permissions that stay, every event past the cursor that the caller may see and
      asked for is written or queued, if none of the four losses occurred. */
  lemma StreamTellsAll(cap: nat, steps: seq<Step>, states: seq<Stream>, only: string,
                       canSee: string -> bool, i: nat, e: Event)
    requires IsRun(cap, steps, states) && i < |states| && states[i].phase == Live
    requires forall j :: 0 <= j < |steps| ==> Uses(steps[j], HostFilter(only, canSee))
    requires states[i].since <= states[i].resumedAt
    requires Lossless(states[i], HostFilter(only, canSee))
    requires e in states[i].history && e.id > states[i].since && Asked(e, only, canSee)
    ensures e in states[i].written || e in states[i].queue.buf
  {
    var s, keep := states[i], HostFilter(only, canSee);
    StreamExact(cap, steps, states, keep, i);
    StreamIncreasing(cap, steps, states, i);
    AskedIsVisible(s, only, canSee, e);
    FilterMember(s.queue.buf, keep, e);
    assert e in s.written + Filter(s.queue.buf, keep);
  }

  // ---- the cursor ------------------------------------------------------------------

  /** A connection that replays from this cursor after `steps`. */
  ghost predicate Resumes(cap: nat, steps: seq<Step>, since: nat, keep: Event -> bool,
                          more: seq<Step>, states: seq<Stream>)
  {
    IsRun(cap, steps + [Replay(since, keep)] + more, states)
  }

  ghost predicate AllPast(es: seq<Event>, since: nat)
  {
    forall j :: 0 <= j < |es| ==> es[j].id > since
  }

  /** A client that connects with this cursor after `steps` never gets an event that does not
      exceed it, whatever happens on its connection. */
  ghost predicate Honoured(cap: nat, steps: seq<Step>, since: nat)
  {
    forall keep: Event -> bool, more: seq<Step>, states: seq<Stream> ::
      Resumes(cap, steps, since, keep, more, states) ==>
        AllPast(states[|states| - 1].written, since)
  }

  /** The same steps lead to the same states. */
  lemma {:induction false} SameSteps(cap: nat, steps: seq<Step>, states: seq<Stream>,
                                     all: seq<Step>, through: seq<Stream>, i: nat)
    requires IsRun(cap, steps, states) && IsRun(cap, all, through) && steps <= all
    requires i <= |steps|
    ensures through[i] == states[i]
  {
    if i > 0 {
      SameSteps(cap, steps, states, all, through, i - 1);
      assert all[i - 1] == steps[i - 1];
    }
  }

  /** Connecting with a cursor past the newest ID, then subscribing in time for the next event. */
  function FutureCursor(s: Stream, since: nat, e: Event, keep: Event -> bool)
      : (path: seq<Stream>)
    requires s.phase == Connected
    ensures |path| == 4
  {
    var s1 := Next(s, Replay(since, keep));
    var s2 := Next(s1, Subscribe);
    var s3 := Next(s2, Append(e));
    assert s3.queue.buf == [e.(id := |s.history| + 1)];
    [s1, s2, s3, Next(s3, Deliver(keep))]
  }

  lemma FutureCursorWrites(s: Stream, since: nat, e: Event, keep: Event -> bool)
    requires OrderInvariant(s) && s.phase == Connected
    requires since > |s.history| && keep(e.(id := |s.history| + 1))
    ensures FutureCursor(s, since, e, keep)[3].written == [e.(id := |s.history| + 1)]
  {
    PageIsSpan(s.history, s.cap, since, MAX_LIMIT, keep);
    assert Next(s, Replay(since, keep)).written == [];
  }

  lemma RunOn(cap: nat, steps: seq<Step>, states: seq<Stream>, step: Step)
    requires IsRun(cap, steps, states) && Enabled(states[|steps|], step)
    ensures IsRun(cap, steps + [step], states + [Next(states[|steps|], step)])
  {
  }

  lemma FutureCursorRun(cap: nat, steps: seq<Step>, states: seq<Stream>, since: nat, e: Event,
                        keep: Event -> bool)
    requires IsRun(cap, steps, states) && states[|steps|].phase == Connected
    ensures Resumes(cap, steps, since, keep, [Subscribe, Append(e), Deliver(keep)],
                    states + FutureCursor(states[|steps|], since, e, keep))
  {
    var path := FutureCursor(states[|steps|], since, e, keep);
    var r := steps + [Replay(since, keep)];
    RunOn(cap, steps, states, Replay(since, keep));
    RunOn(cap, r, states + [path[0]], Subscribe);
    RunOn(cap, r + [Subscribe], states + [path[0]] + [path[1]], Append(e));
    RunOn(cap, r + [Subscribe] + [Append(e)], states + [path[0]] + [path[1]] + [path[2]],
          Deliver(keep));
    assert r + [Subscribe] + [Append(e)] + [Deliver(keep)]
        == r + [Subscribe, Append(e), Deliver(keep)];
    assert states + [path[0]] + [path[1]] + [path[2]] + [path[3]] == states + path;
  }

  lemma ReachedCursorHonoured(cap: nat, steps: seq<Step>, states: seq<Stream>, since: nat,
                              keep: Event -> bool, more: seq<Step>, through: seq<Stream>)
    requires IsRun(cap, steps, states) && since <= |states[|steps|].history|
    requires Resumes(cap, steps, since, keep, more, through)
    ensures AllPast(through[|through| - 1].written, since)
  {
    var n, last := |steps|, |through| - 1;
    var all := steps + [Replay(since, keep)] + more;
    SameSteps(cap, steps, states, all, through, n);
    assert all[n] == Replay(since, keep) && through[n + 1] == Next(through[n], all[n]);
    CursorStays(cap, all, through, n + 1, last);
    StreamIncreasing(cap, all, through, last);
    assert Floor(through[last]) == since;
  }

  lemma FutureCursorNotHonoured(cap: nat, steps: seq<Step>, states: seq<Stream>, since: nat)
    requires IsRun(cap, steps, states) && states[|steps|].phase == Connected
    requires since > |states[|steps|].history|
    ensures !Honoured(cap, steps, since)
  {
    var s := states[|steps|];
    var e := Event(0, 0, "", "", "", "", "", "", "");
    var keep := (x: Event) => true;
    StreamIncreasing(cap, steps, states, |steps|);
    FutureCursorRun(cap, steps, states, since, e, keep);
    FutureCursorWrites(s, since, e, keep);
    var through := states + FutureCursor(s, since, e, keep);
    assert through[|through| - 1].written[0].id <= since;
  }

  /** The cursor is honoured exactly if it does not exceed the newest ID at the time of the
      replay query. Beyond it only the replay looks at the cursor, and the next event is
      delivered although its ID does not exceed it. */
  lemma CursorHonouredExactly(cap: nat, steps: seq<Step>, states: seq<Stream>, since: nat)
    requires IsRun(cap, steps, states) && states[|steps|].phase == Connected
    ensures Honoured(cap, steps, since) <==> since <= |states[|steps|].history|
  {
    if since <= |states[|steps|].history| {
      forall keep: Event -> bool, more: seq<Step>, through: seq<Stream>
        | Resumes(cap, steps, since, keep, more, through)
        ensures AllPast(through[|through| - 1].written, since)
      {
        ReachedCursorHonoured(cap, steps, states, since, keep, more, through);
      }
    } else {
      FutureCursorNotHonoured(cap, steps, states, since);
    }
  }
}
