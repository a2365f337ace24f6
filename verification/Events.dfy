/** The bounded event log of internal/events/events.go. */
module Events {
  import opened Text
  import opened Seqs
  import PubSub

  const KIND_STATE_CHANGE := "state_change"

  datatype Event = Event(id: nat, ts: int, host: string, kind: string, from: string,
                         to: string, actor: string, actionId: string, error: string)

  /** Everything ever appended carries its position, counted from 1. */
  ghost predicate Numbered(history: seq<Event>)
  {
    forall i :: 0 <= i < |history| ==> history[i].id == i + 1
  }

  /** What a log of capacity `cap` still holds of its history. */
  function Retained(history: seq<Event>, cap: nat): seq<Event>
  {
    if |history| <= cap then history else history[|history| - cap..]
  }

  /** How much of the history has been evicted. */
  function Evicted(history: seq<Event>, cap: nat): (n: nat)
    ensures n <= |history|
  {
    if |history| <= cap then 0 else |history| - cap
  }

  /** At most `limit` elements, or all of them if the limit is not positive. */
  function Limited(s: seq<Event>, limit: int): seq<Event>
  {
    if 0 < limit < |s| then s[..limit] else s
  }

  function Wanted(since: nat, keep: Event -> bool): Event -> bool
  {
    (e: Event) => e.id > since && keep(e)
  }

  /** Position of the first retained event past `since`. */
  function Resume(history: seq<Event>, cap: nat, since: nat): (n: nat)
    ensures n <= |history|
  {
    var e := Evicted(history, cap);
    if since <= e then e else if since <= |history| then since else |history|
  }

  lemma {:induction false} FilterWanted(s: seq<Event>, since: nat, keep: Event -> bool)
    ensures (forall i :: 0 <= i < |s| ==> s[i].id > since)
        ==> Filter(s, Wanted(since, keep)) == Filter(s, keep)
    ensures (forall i :: 0 <= i < |s| ==> s[i].id <= since)
        ==> Filter(s, Wanted(since, keep)) == []
    decreases |s|
  {
    if s != [] {
      FilterWanted(s[..|s| - 1], since, keep);
    }
  }

  /** In terms of the unbounded history, a query sees the suffix from the resume point. */
  lemma WantedIsSuffix(history: seq<Event>, cap: nat, since: nat, keep: Event -> bool)
    requires Numbered(history)
    ensures Filter(Retained(history, cap), Wanted(since, keep))
         == Filter(history[Resume(history, cap, since)..], keep)
  {
    var e, r := Evicted(history, cap), Resume(history, cap, since);
    assert Retained(history, cap) == history[e..];
    assert history[e..] == history[e..r] + history[r..];
    FilterConcat(history[e..r], history[r..], Wanted(since, keep));
    forall i | 0 <= i < |history[e..r]| ensures history[e..r][i].id <= since {
      assert history[e..r][i] == history[e + i];
    }
    forall i | 0 <= i < |history[r..]| ensures history[r..][i].id > since {
      assert history[r..][i] == history[r + i];
    }
    FilterWanted(history[e..r], since, keep);
    FilterWanted(history[r..], since, keep);
  }

  /** Appending to a bounded log is appending to its history. */
  lemma RetainedAppend(history: seq<Event>, cap: nat, e: Event)
    requires cap >= 1
    ensures Retained(history + [e], cap)
         == (if |Retained(history, cap)| >= cap then Retained(history, cap)[1..]
             else Retained(history, cap)) + [e]
  {
  }

  /** A nil filter keeps everything. */
  function Keep(filter: Option<Event -> bool>): Event -> bool
  {
    match filter
    case Some(f) => f
    case None => (e: Event) => true
  }

  /** Stopping a scan when the limit is reached yields the limited full result. */
  lemma LimitReached(seen: seq<Event>, items: seq<Event>, keep: Event -> bool, limit: int)
    requires seen <= items && limit == |Filter(seen, keep)| > 0
    ensures Filter(seen, keep) == Limited(Filter(items, keep), limit)
  {
    var rest := items[|seen|..];
    FilterConcat(seen, rest, keep);
    assert items == seen + rest;
    var a, b := Filter(seen, keep), Filter(rest, keep);
    assert (a + b)[..|a|] == a;
  }

  /** The loop of Since: skip what is old or unwanted, stop at the limit. */
  method Scan(items: seq<Event>, since: nat, limit: int, filter: Option<Event -> bool>)
      returns (out: seq<Event>)
    ensures out == Limited(Filter(items, Wanted(since, Keep(filter))), limit)
  {
    ghost var wanted, seen: seq<Event> := Wanted(since, Keep(filter)), [];
    out := [];
    for i := 0 to |items|
      invariant seen == items[..i] && out == Filter(seen, wanted)
      invariant limit > 0 ==> |out| < limit
    {
      var e := items[i];
      FilterAppend(seen, e, wanted);
      seen := seen + [e];
      if e.id <= since {
        continue;
      }
      if filter.Some? && !filter.value(e) {
        continue;
      }
      out := out + [e];
      if limit > 0 && |out| >= limit {
        LimitReached(seen, items, wanted, limit);
        return;
      }
    }
    assert seen == items;
  }

  class Log {
    const cap: nat
    var items: seq<Event>
    var nextID: nat
    const subs: PubSub.Subscribers<Event>
    ghost var history: seq<Event>

    ghost predicate Valid()
      reads this, subs, subs.subs
    {
      && cap >= 1 && subs.Valid() && subs.cap == 64
      && Numbered(history) && nextID == |history|
      && items == Retained(history, cap)
    }

    constructor (capacity: int)
      ensures Valid() && fresh(subs) && subs.subs == {} && history == []
      ensures cap == if capacity < 1 then 1024 else capacity
    {
      cap := if capacity < 1 then 1024 else capacity;
      items, nextID, history := [], 0, [];
      subs := new PubSub.Subscribers(64);
    }

    /** Number and stamp e, keep the newest cap events, and offer e to every subscriber. */
    method Append(e: Event, now: int) returns (stored: Event)
      requires Valid()
      modifies this, subs.subs
      ensures Valid() && stored == e.(id := old(nextID) + 1, ts := now)
      ensures history == old(history) + [stored]
      ensures forall ch :: ch in subs.subs ==> ch.queue == old(ch.queue).Offer(stored)
    {
      RetainedAppend(history, cap, e.(id := nextID + 1, ts := now));
      nextID := nextID + 1;
      stored := e.(id := nextID, ts := now);
      if |items| >= cap {
        items := items[1..];
      }
      items := items + [stored];
      history := history + [stored];
      subs.Publish(stored);
    }

    /** Events past `since`, oldest first; None means no filter, a limit <= 0 no limit. */
    method Since(since: nat, limit: int, filter: Option<Event -> bool>) returns (out: seq<Event>)
      requires Valid()
      ensures out == Limited(Filter(history[Resume(history, cap, since)..], Keep(filter)), limit)
    {
      WantedIsSuffix(history, cap, since, Keep(filter));
      out := Scan(items, since, limit, filter);
    }

    method LatestID() returns (id: nat)
      requires Valid()
      ensures id == |history|
    {
      id := nextID;
    }
  }
}
