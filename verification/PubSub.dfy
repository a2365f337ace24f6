/** The publish/subscribe hub that internal/hosts/hosts.go and internal/events/events.go
    both embed: buffered channels, sends that drop instead of blocking, and an
    unsubscribe function that may be called again. */
module PubSub {
  import opened Text

  // ---- one buffered channel, as a value --------------------------------------------

  /** a is b with some elements left out. */
  predicate Subsequence<T(==)>(a: seq<T>, b: seq<T>)
  {
    if a == [] then true
    else if b == [] then false
    else if a[|a| - 1] == b[|b| - 1] && Subsequence(a[..|a| - 1], b[..|b| - 1]) then true
    else Subsequence(a, b[..|b| - 1])
  }

  lemma SubsequenceSkip<T>(a: seq<T>, b: seq<T>, x: T)
    requires Subsequence(a, b)
    ensures Subsequence(a, b + [x])
  {
    assert (b + [x])[..|b|] == b;
  }

  /** Positions in b, in order, at which a is found. */
  ghost predicate Picks<T>(a: seq<T>, b: seq<T>, picks: seq<nat>)
  {
    && |picks| == |a|
    && (forall i :: 0 <= i < |a| ==> picks[i] < |b| && b[picks[i]] == a[i])
    && (forall i, j :: 0 <= i < j < |a| ==> picks[i] < picks[j])
  }

  lemma {:induction false} FindPicks<T>(a: seq<T>, b: seq<T>) returns (picks: seq<nat>)
    requires Subsequence(a, b)
    ensures Picks(a, b, picks)
    decreases |b|
  {
    if a == [] {
      picks := [];
    } else {
      var n, m := |a| - 1, |b| - 1;
      if a[n] == b[m] && Subsequence(a[..n], b[..m]) {
        var front := FindPicks(a[..n], b[..m]);
        assert forall i :: 0 <= i < n ==> a[..n][i] == a[i] && b[..m][front[i]] == b[front[i]];
        picks := front + [m];
      } else {
        picks := FindPicks(a, b[..m]);
        assert forall i :: 0 <= i < |a| ==> b[..m][picks[i]] == b[picks[i]];
      }
    }
  }

  /** What Subsequence means. */
  lemma SubsequenceIsPicked<T>(a: seq<T>, b: seq<T>)
    requires Subsequence(a, b)
    ensures exists picks :: Picks(a, b, picks)
  {
    var picks := FindPicks(a, b);
  }

  lemma SubsequenceKeep<T>(a: seq<T>, b: seq<T>, x: T)
    requires Subsequence(a, b)
    ensures Subsequence(a + [x], b + [x])
  {
    assert (b + [x])[..|b|] == b && (a + [x])[..|a|] == a;
  }

  /** A channel and its history: what was offered to it since it was subscribed, what the
      reader has taken, what is still buffered, and what was dropped. */
  datatype Queue<T> =
    Queue(cap: nat, buf: seq<T>, taken: seq<T>, offered: seq<T>, dropped: seq<T>)
  {
    /** `select { case ch <- x: default: }` */
    function Offer(x: T): Queue<T>
    {
      if |buf| < cap then this.(buf := buf + [x], offered := offered + [x])
      else this.(offered := offered + [x], dropped := dropped + [x])
    }

    function Take(): Queue<T>
      requires buf != []
    {
      this.(buf := buf[1..], taken := taken + [buf[0]])
    }

    function Received(): seq<T> { taken + buf }
  }

  function EmptyQueue<T>(cap: nat): Queue<T> { Queue(cap, [], [], [], []) }

  /** Every channel keeps a subsequence of what it was offered, and accounts for the rest. */
  ghost predicate Accounted<T>(q: Queue<T>)
  {
    && |q.buf| <= q.cap
    && Subsequence(q.Received(), q.offered)
    && |q.Received()| + |q.dropped| == |q.offered|
    && (q.dropped == [] ==> q.Received() == q.offered)
  }

  lemma OfferAccounted<T>(q: Queue<T>, x: T)
    requires Accounted(q)
    ensures Accounted(q.Offer(x))
  {
    if |q.buf| < q.cap {
      SubsequenceKeep(q.Received(), q.offered, x);
      assert q.Offer(x).Received() == q.Received() + [x];
    } else {
      SubsequenceSkip(q.Received(), q.offered, x);
    }
  }

  lemma TakeAccounted<T>(q: Queue<T>)
    requires Accounted(q) && q.buf != []
    ensures Accounted(q.Take()) && q.Take().Received() == q.Received()
  {
    assert q.Take().Received() == q.Received();
  }

  // ---- the hub under every interleaving --------------------------------------------

  /** Subscribing makes a channel and then enters it into the hub under the lock. */
  datatype Stage = Made | Subscribed | Removed

  /** The `sync.Once` of a subscription: a call of Do that finds it Busy waits. */
  datatype Once = Unused | Busy(call: nat) | Done

  datatype Subscriber<T> =
    Subscriber(queue: Queue<T>, stage: Stage, closed: bool, once: Once, from: nat, until: nat)

  /** Where one call of an unsubscribe function stands: about to call Do, about to leave the
      hub under its lock, about to close the channel outside it, about to mark the Once, back. */
  datatype CallPc = Entered | Leaving | Closing | Finishing | Returned

  datatype Call = Call(id: nat, pc: CallPc)

  /** `subs` is what the hub publishes to; `published` is every value published so far. */
  datatype Hub<T> = Hub(cap: nat, subs: set<nat>, subscribers: map<nat, Subscriber<T>>,
                        calls: map<nat, Call>, published: seq<T>)

  datatype Step<T> =
    | Make(id: nat)
    | Join(id: nat)
    | Publish(x: T)
    | Receive(id: nat)
    | Unsubscribe(call: nat, id: nat)
    | Do(call: nat)
    | Leave(call: nat)
    | Close(call: nat)
    | Finish(call: nat)

  /** The call is at pc, on a subscriber of this hub. */
  predicate Stands<T>(h: Hub<T>, call: nat, pc: CallPc)
  {
    call in h.calls && h.calls[call].id in h.subscribers && h.calls[call].pc == pc
  }

  /** The subscriber a call is about. */
  function Subject<T>(h: Hub<T>, call: nat): Subscriber<T>
    requires call in h.calls && h.calls[call].id in h.subscribers
  {
    h.subscribers[h.calls[call].id]
  }

  predicate Enabled<T>(h: Hub<T>, s: Step<T>)
  {
    match s
    case Make(id) => id !in h.subscribers
    case Join(id) => id in h.subscribers && h.subscribers[id].stage == Made
    case Publish(_) => true
    case Receive(id) => id in h.subscribers && h.subscribers[id].queue.buf != []
    case Unsubscribe(call, id) =>
      // the function is handed out when Subscribe returns, and may then be called at any time
      call !in h.calls && id in h.subscribers && h.subscribers[id].stage != Made
    case Do(call) => Stands(h, call, Entered) && !Subject(h, call).once.Busy?
    case Leave(call) => Stands(h, call, Leaving)
    case Close(call) => Stands(h, call, Closing)
    case Finish(call) => Stands(h, call, Finishing)
  }

  /** The run-time panics of Go channels: a send on a closed channel, a second close. */
  predicate Panics<T>(h: Hub<T>, s: Step<T>)
  {
    match s
    case Publish(_) => exists id :: id in h.subs && id in h.subscribers && h.subscribers[id].closed
    case Close(call) => Stands(h, call, Closing) && Subject(h, call).closed
    case _ => false
  }

  function OfferAll<T>(h: Hub<T>, x: T): map<nat, Subscriber<T>>
  {
    map id | id in h.subscribers ::
      if id in h.subs then h.subscribers[id].(queue := h.subscribers[id].queue.Offer(x))
      else h.subscribers[id]
  }

  /** The call moves on, and its subscriber becomes `s`. */
  function Moved<T>(h: Hub<T>, call: nat, pc: CallPc, s: Subscriber<T>): Hub<T>
    requires call in h.calls
  {
    h.(calls := h.calls[call := h.calls[call].(pc := pc)],
       subscribers := h.subscribers[h.calls[call].id := s])
  }

  function Next<T>(h: Hub<T>, s: Step<T>): Hub<T>
    requires Enabled(h, s)
  {
    match s
    case Make(id) =>
      var made := Subscriber(EmptyQueue(h.cap), Made, false, Unused, 0, 0);
      h.(subscribers := h.subscribers[id := made])
    case Join(id) =>
      h.(subs := h.subs + {id},
         subscribers := h.subscribers[id :=
           h.subscribers[id].(stage := Subscribed, from := |h.published|)])
    case Publish(x) => h.(subscribers := OfferAll(h, x), published := h.published + [x])
    case Receive(id) =>
      h.(subscribers := h.subscribers[id :=
           h.subscribers[id].(queue := h.subscribers[id].queue.Take())])
    case Unsubscribe(call, id) => h.(calls := h.calls[call := Call(id, Entered)])
    case Do(call) =>
      var sub := Subject(h, call);
      if sub.once == Unused then Moved(h, call, Leaving, sub.(once := Busy(call)))
      else Moved(h, call, Returned, sub)
    case Leave(call) =>
      Moved(h, call, Closing, Subject(h, call).(stage := Removed, until := |h.published|))
        .(subs := h.subs - {h.calls[call].id})
    case Close(call) => Moved(h, call, Finishing, Subject(h, call).(closed := true))
    case Finish(call) => Moved(h, call, Returned, Subject(h, call).(once := Done))
  }

  function NewHub<T>(cap: nat): Hub<T> { Hub(cap, {}, map[], map[], []) }

  /** The hub after a run of steps, or None if some step was not enabled. */
  function After<T>(cap: nat, steps: seq<Step<T>>): Option<Hub<T>>
    decreases |steps|
  {
    if steps == [] then Some(NewHub(cap))
    else
      match After(cap, steps[..|steps| - 1])
      case None => None
      case Some(h) =>
        var s := steps[|steps| - 1];
        if Enabled(h, s) then Some(Next(h, s)) else None
  }

  /** The publishes a subscriber was registered for. */
  function Window<T>(h: Hub<T>, s: Subscriber<T>): seq<T>
    requires s.from <= |h.published| && s.until <= |h.published|
  {
    match s.stage
    case Made => []
    case Subscribed => h.published[s.from..]
    case _ => if s.from <= s.until then h.published[s.from..s.until] else []
  }

  /** The Once knows how far unsubscribing has come. */
  ghost predicate OnceOk<T>(calls: map<nat, Call>, id: nat, s: Subscriber<T>)
  {
    match s.once
    case Unused => s.stage != Removed && !s.closed
    case Busy(call) =>
      && call in calls && calls[call].id == id
      && (match calls[call].pc
          case Leaving => s.stage == Subscribed && !s.closed
          case Closing => s.stage == Removed && !s.closed
          case Finishing => s.stage == Removed && s.closed
          case _ => false)
    case Done => s.stage == Removed && s.closed
  }

  ghost predicate SubscriberOk<T>(h: Hub<T>, id: nat)
    requires id in h.subscribers
  {
    var s := h.subscribers[id];
    && (id in h.subs <==> s.stage == Subscribed)
    && s.from <= |h.published| && s.until <= |h.published|
    && (s.stage == Removed ==> s.from <= s.until)
    && s.queue.cap == h.cap
    && s.queue.offered == Window(h, s)
    && Accounted(s.queue)
    && OnceOk(h.calls, id, s)
  }

  /** A call inside the function is the one the Once is busy with. */
  ghost predicate CallOk<T>(h: Hub<T>, call: nat)
    requires call in h.calls
  {
    && h.calls[call].id in h.subscribers
    && Subject(h, call).stage != Made
    && match h.calls[call].pc
       case Entered => true
       case Returned => Subject(h, call).once == Done
       case _ => Subject(h, call).once == Busy(call)
  }

  ghost predicate HubInvariant<T>(h: Hub<T>)
  {
    && h.subs <= h.subscribers.Keys
    && (forall id :: id in h.subscribers ==> SubscriberOk(h, id))
    && (forall call :: call in h.calls ==> CallOk(h, call))
  }

  /** A publish widens the window of a subscribed channel, and no other. */
  lemma WindowAfterPublish<T>(h: Hub<T>, x: T, s: Subscriber<T>)
    requires s.from <= |h.published| && s.until <= |h.published|
    ensures Window(Next(h, Publish(x)), s)
         == Window(h, s) + if s.stage == Subscribed then [x] else []
  {
    assert (h.published + [x])[s.from..] == h.published[s.from..] + [x];
    if s.from <= s.until {
      assert (h.published + [x])[s.from..s.until] == h.published[s.from..s.until];
    }
  }

  lemma PublishKeeps<T>(h: Hub<T>, x: T, id: nat)
    requires HubInvariant(h) && id in h.subscribers
    ensures SubscriberOk(Next(h, Publish(x)), id)
  {
    var s := h.subscribers[id];
    assert SubscriberOk(h, id);
    WindowAfterPublish(h, x, s);
    if id in h.subs {
      OfferAccounted(s.queue, x);
    }
  }

  lemma ReceiveKeeps<T>(h: Hub<T>, i: nat, id: nat)
    requires HubInvariant(h) && Enabled(h, Receive(i)) && id in h.subscribers
    ensures SubscriberOk(Next(h, Receive(i)), id)
  {
    assert SubscriberOk(h, id);
    TakeAccounted(h.subscribers[i].queue);
  }

  predicate Subscribes<T>(s: Step<T>) { s.Make? || s.Join? || s.Unsubscribe? }

  lemma SubscribeKeepsOne<T>(h: Hub<T>, s: Step<T>, id: nat)
    requires Enabled(h, s) && Subscribes(s) && h.subs <= h.subscribers.Keys
    requires id in h.subscribers ==> SubscriberOk(h, id)
    requires id in Next(h, s).subscribers
    ensures SubscriberOk(Next(h, s), id)
  {
  }

  lemma SubscribeKeepsCall<T>(h: Hub<T>, s: Step<T>, call: nat)
    requires Enabled(h, s) && Subscribes(s) && call in Next(h, s).calls
    requires call in h.calls ==> CallOk(h, call)
    requires forall id :: id in h.subscribers && h.subscribers[id].stage == Made ==>
               h.subscribers[id].once == Unused
    ensures CallOk(Next(h, s), call)
  {
  }

  /** Subscribing, and entering an unsubscribe call, touch no other subscriber or call. */
  lemma SubscribeKeeps<T>(h: Hub<T>, s: Step<T>)
    requires HubInvariant(h) && Enabled(h, s) && Subscribes(s)
    ensures HubInvariant(Next(h, s))
  {
    var t := Next(h, s);
    forall id | id in h.subscribers && h.subscribers[id].stage == Made
      ensures h.subscribers[id].once == Unused
    {
      assert SubscriberOk(h, id);
    }
    forall id | id in t.subscribers ensures SubscriberOk(t, id) {
      SubscribeKeepsOne(h, s, id);
    }
    forall call | call in t.calls ensures CallOk(t, call) {
      SubscribeKeepsCall(h, s, call);
    }
  }

  predicate Moves<T>(s: Step<T>) { s.Do? || s.Leave? || s.Close? || s.Finish? }

  /** From h to t, one unsubscribe call moves, and nobody else. */
  ghost predicate OnlyMoves<T>(h: Hub<T>, t: Hub<T>, call: nat)
  {
    && call in h.calls && t.cap == h.cap && t.published == h.published && t.subs <= h.subs
    && t.calls.Keys == h.calls.Keys && t.subscribers.Keys == h.subscribers.Keys
    && t.calls[call].id == h.calls[call].id
    && (forall c :: c in h.calls && c != call ==> t.calls[c] == h.calls[c])
    && (forall id :: id in h.subscribers && id != h.calls[call].id ==>
          t.subscribers[id] == h.subscribers[id] && (id in t.subs <==> id in h.subs))
  }

  lemma MovedOnlyMoves<T>(h: Hub<T>, call: nat, pc: CallPc, s: Subscriber<T>, subs: set<nat>)
    requires call in h.calls && h.calls[call].id in h.subscribers
    requires subs == h.subs || subs == h.subs - {h.calls[call].id}
    ensures OnlyMoves(h, Moved(h, call, pc, s).(subs := subs), call)
  {
  }

  lemma MoveOnlyMoves<T>(h: Hub<T>, s: Step<T>)
    requires Enabled(h, s) && Moves(s)
    ensures OnlyMoves(h, Next(h, s), s.call)
  {
    var t := Next(h, s);
    var id := h.calls[s.call].id;
    MovedOnlyMoves(h, s.call, t.calls[s.call].pc, t.subscribers[id], t.subs);
    assert t == Moved(h, s.call, t.calls[s.call].pc, t.subscribers[id]).(subs := t.subs);
  }

  lemma MoveKeepsOthers<T>(h: Hub<T>, t: Hub<T>, call: nat, id: nat)
    requires HubInvariant(h) && OnlyMoves(h, t, call)
    requires id in h.subscribers && id != h.calls[call].id
    ensures SubscriberOk(t, id)
  {
    assert SubscriberOk(h, id);
    assert OnceOk(t.calls, id, h.subscribers[id]);
  }

  lemma DoKeepsOwn<T>(h: Hub<T>, call: nat)
    requires HubInvariant(h) && Enabled(h, Step<T>.Do(call))
    ensures SubscriberOk(Next(h, Do(call)), h.calls[call].id)
  {
    assert CallOk(h, call) && SubscriberOk(h, h.calls[call].id);
  }

  lemma LeaveKeepsOwn<T>(h: Hub<T>, call: nat)
    requires HubInvariant(h) && Enabled(h, Step<T>.Leave(call))
    ensures SubscriberOk(Next(h, Leave(call)), h.calls[call].id)
  {
    assert CallOk(h, call) && SubscriberOk(h, h.calls[call].id);
    var s := Subject(h, call);
    assert h.published[s.from..|h.published|] == h.published[s.from..];
  }

  lemma CloseKeepsOwn<T>(h: Hub<T>, s: Step<T>)
    requires HubInvariant(h) && Enabled(h, s) && (s.Close? || s.Finish?)
    ensures SubscriberOk(Next(h, s), h.calls[s.call].id)
  {
    assert CallOk(h, s.call) && SubscriberOk(h, h.calls[s.call].id);
  }

  /** Where the calls stand after one of them has moved: only one can be inside. */
  lemma MoveKeepsCall<T>(h: Hub<T>, s: Step<T>, call: nat)
    requires Enabled(h, s) && Moves(s) && call in h.calls && CallOk(h, call) && CallOk(h, s.call)
    requires OnceOk(h.calls, h.calls[s.call].id, Subject(h, s.call))
    ensures CallOk(Next(h, s), call)
  {
  }

  lemma MoveKeepsOwn<T>(h: Hub<T>, s: Step<T>)
    requires HubInvariant(h) && Enabled(h, s) && Moves(s)
    ensures h.calls[s.call].id in Next(h, s).subscribers
    ensures SubscriberOk(Next(h, s), h.calls[s.call].id)
  {
    match s
    case Do(call) => DoKeepsOwn(h, call);
    case Leave(call) => LeaveKeepsOwn(h, call);
    case _ => CloseKeepsOwn(h, s);
  }

  lemma MoveKeeps<T>(h: Hub<T>, s: Step<T>)
    requires HubInvariant(h) && Enabled(h, s) && Moves(s)
    ensures HubInvariant(Next(h, s))
  {
    var t := Next(h, s);
    MoveOnlyMoves(h, s);
    MoveKeepsOwn(h, s);
    forall id | id in t.subscribers ensures SubscriberOk(t, id) {
      if id != h.calls[s.call].id {
        MoveKeepsOthers(h, t, s.call, id);
      }
    }
    forall call | call in t.calls ensures CallOk(t, call) {
      assert CallOk(h, call) && CallOk(h, s.call) && SubscriberOk(h, h.calls[s.call].id);
      MoveKeepsCall(h, s, call);
    }
  }

  /** Publishing and receiving concern queues only. */
  lemma QueueKeeps<T>(h: Hub<T>, s: Step<T>)
    requires HubInvariant(h) && Enabled(h, s) && (s.Publish? || s.Receive?)
    ensures HubInvariant(Next(h, s))
  {
    var t := Next(h, s);
    forall id | id in t.subscribers ensures SubscriberOk(t, id) {
      if s.Publish? {
        PublishKeeps(h, s.x, id);
      } else {
        ReceiveKeeps(h, s.id, id);
      }
    }
    forall call | call in t.calls ensures CallOk(t, call) {
      assert CallOk(h, call);
    }
  }

  lemma StepKeeps<T>(h: Hub<T>, s: Step<T>)
    requires HubInvariant(h) && Enabled(h, s)
    ensures HubInvariant(Next(h, s))
  {
    if Moves(s) {
      MoveKeeps(h, s);
    } else if s.Publish? || s.Receive? {
      QueueKeeps(h, s);
    } else {
      SubscribeKeeps(h, s);
    }
  }

  lemma {:induction false} AfterInvariant<T>(cap: nat, steps: seq<Step<T>>)
    requires After(cap, steps).Some?
    ensures HubInvariant(After(cap, steps).value)
    decreases |steps|
  {
    if steps != [] {
      var before := steps[..|steps| - 1];
      AfterInvariant(cap, before);
      StepKeeps(After(cap, before).value, steps[|steps| - 1]);
    }
  }

  /** Under any interleaving, with any number of concurrent and repeated unsubscribe calls, no
      step panics: a publish never meets a closed channel and no channel is closed twice. */
  lemma HubNeverPanics<T>(cap: nat, steps: seq<Step<T>>, next: Step<T>)
    requires After(cap, steps).Some? && Enabled(After(cap, steps).value, next)
    ensures !Panics(After(cap, steps).value, next)
  {
    AfterInvariant(cap, steps);
    var h := After(cap, steps).value;
    if next.Publish? {
      forall id | id in h.subs && id in h.subscribers ensures !h.subscribers[id].closed {
        assert SubscriberOk(h, id);
      }
    } else if next.Close? {
      assert CallOk(h, next.call) && SubscriberOk(h, h.calls[next.call].id);
    }
  }

  /** Whichever of them did the work: once any unsubscribe call has returned, the channel is
      closed and nothing is published to it any more. */
  lemma HubUnsubscribed<T>(cap: nat, steps: seq<Step<T>>, call: nat)
    requires After(cap, steps).Some? && call in After(cap, steps).value.calls
    requires After(cap, steps).value.calls[call].pc == Returned
    ensures var h := After(cap, steps).value;
            var id := h.calls[call].id;
            id in h.subscribers && h.subscribers[id].closed && id !in h.subs
  {
    AfterInvariant(cap, steps);
    var h := After(cap, steps).value;
    assert CallOk(h, call) && SubscriberOk(h, h.calls[call].id);
  }

  /** Delivery: a subscriber holds a subsequence of exactly the publishes made while it was
      registered, and it holds all of them if and only if its buffer never overflowed. */
  lemma HubDelivery<T>(cap: nat, steps: seq<Step<T>>, id: nat)
    requires After(cap, steps).Some? && id in After(cap, steps).value.subscribers
    ensures var h := After(cap, steps).value;
            var s := h.subscribers[id];
            && s.from <= |h.published| && s.until <= |h.published|
            && Subsequence(s.queue.Received(), Window(h, s))
            && |s.queue.Received()| + |s.queue.dropped| == |Window(h, s)|
            && (s.queue.Received() == Window(h, s) <==> s.queue.dropped == [])
  {
    AfterInvariant(cap, steps);
    assert SubscriberOk(After(cap, steps).value, id);
  }

  // ---- no call waits for ever ------------------------------------------------------

  /** From h to t by these steps. */
  ghost predicate Leads<T>(h: Hub<T>, steps: seq<Step<T>>, t: Hub<T>)
    decreases |steps|
  {
    if steps == [] then h == t
    else Enabled(h, steps[0]) && Leads(Next(h, steps[0]), steps[1..], t)
  }

  lemma {:induction false} LeadsThen<T>(h: Hub<T>, a: seq<Step<T>>, t: Hub<T>, b: seq<Step<T>>,
                                        u: Hub<T>)
    requires Leads(h, a, t) && Leads(t, b, u)
    ensures Leads(h, a + b, u)
    decreases |a|
  {
    if a == [] {
      assert a + b == b;
    } else {
      assert (a + b)[1..] == a[1..] + b;
      LeadsThen(Next(h, a[0]), a[1..], t, b, u);
    }
  }

  lemma LeadsOnce<T>(h: Hub<T>, s: Step<T>)
    requires Enabled(h, s)
    ensures Leads(h, [s], Next(h, s))
  {
    assert [s][1..] == [];
  }

  lemma AfterNext<T>(cap: nat, steps: seq<Step<T>>, s: Step<T>)
    requires After(cap, steps).Some? && Enabled(After(cap, steps).value, s)
    ensures After(cap, steps + [s]) == Some(Next(After(cap, steps).value, s))
  {
    assert (steps + [s])[..|steps|] == steps;
  }

  lemma {:induction false} AfterLeads<T>(cap: nat, steps: seq<Step<T>>, more: seq<Step<T>>,
                                         t: Hub<T>)
    requires After(cap, steps).Some? && Leads(After(cap, steps).value, more, t)
    ensures After(cap, steps + more) == Some(t)
    decreases |more|
  {
    if more == [] {
      assert steps + more == steps;
    } else {
      AfterNext(cap, steps, more[0]);
      AfterLeads(cap, steps + [more[0]], more[1..], t);
      assert steps + [more[0]] + more[1..] == steps + more;
    }
  }

  /** Between Do and the end of the function. */
  predicate Inside(pc: CallPc) { pc == Leaving || pc == Closing || pc == Finishing }

  function Onward<T>(call: nat, pc: CallPc): Step<T>
  {
    if pc == Leaving then Leave(call) else if pc == Closing then Close(call) else Finish(call)
  }

  function Left(pc: CallPc): nat
  {
    match pc
    case Leaving => 3
    case Closing => 2
    case Finishing => 1
    case _ => 0
  }

  /** The other calls are where they were. */
  ghost predicate OthersStay<T>(h: Hub<T>, t: Hub<T>, call: nat)
  {
    forall c :: c in h.calls && c != call ==> c in t.calls && t.calls[c] == h.calls[c]
  }

  predicate HasReturned<T>(h: Hub<T>, call: nat) { Stands(h, call, Returned) }

  lemma OnwardEnabled<T>(h: Hub<T>, call: nat)
    requires HubInvariant(h) && call in h.calls && Inside(h.calls[call].pc)
    ensures Enabled(h, Onward(call, h.calls[call].pc))
    ensures var pc, t := h.calls[call].pc, Next(h, Onward(call, h.calls[call].pc));
            && OthersStay(h, t, call)
            && call in t.calls && t.calls[call].id == h.calls[call].id
            && (if pc == Finishing then HasReturned(t, call) && Subject(t, call).once == Done
                else Inside(t.calls[call].pc) && Left(t.calls[call].pc) < Left(pc))
  {
    assert CallOk(h, call);
  }

  /** A call that is inside can be brought to its end, and then the Once is done. */
  lemma {:induction false} InsideEnds<T>(h: Hub<T>, call: nat)
      returns (steps: seq<Step<T>>, t: Hub<T>)
    requires HubInvariant(h) && call in h.calls && Inside(h.calls[call].pc)
    ensures Leads(h, steps, t) && OthersStay(h, t, call)
    ensures HasReturned(t, call) && t.calls[call].id == h.calls[call].id
    ensures Subject(t, call).once == Done
    decreases Left(h.calls[call].pc)
  {
    var s: Step<T> := Onward(call, h.calls[call].pc);
    OnwardEnabled(h, call);
    LeadsOnce(h, s);
    if h.calls[call].pc == Finishing {
      steps, t := [s], Next(h, s);
    } else {
      StepKeeps(h, s);
      var rest: seq<Step<T>>;
      rest, t := InsideEnds(Next(h, s), call);
      LeadsThen(h, [s], Next(h, s), rest, t);
      steps := [s] + rest;
    }
  }

  /** Do finds the Once done and returns at once. */
  lemma DoneReturns<T>(h: Hub<T>, call: nat)
    requires Stands(h, call, Entered) && Subject(h, call).once == Done
    ensures Leads(h, [Do(call)], Next(h, Do(call))) && HasReturned(Next(h, Do(call)), call)
  {
    LeadsOnce(h, Step<T>.Do(call));
  }

  /** Do finds the Once unused and goes in. */
  lemma FirstEnds<T>(h: Hub<T>, call: nat) returns (steps: seq<Step<T>>, t: Hub<T>)
    requires HubInvariant(h) && Stands(h, call, Entered) && Subject(h, call).once == Unused
    ensures Leads(h, steps, t) && HasReturned(t, call)
  {
    var s: Step<T> := Do(call);
    LeadsOnce(h, s);
    StepKeeps(h, s);
    var rest: seq<Step<T>>;
    rest, t := InsideEnds(Next(h, s), call);
    LeadsThen(h, [s], Next(h, s), rest, t);
    steps := [s] + rest;
  }

  /** Do finds the Once busy: once the other call has been brought to its end, it returns. */
  lemma WaitingEnds<T>(h: Hub<T>, call: nat) returns (steps: seq<Step<T>>, t: Hub<T>)
    requires HubInvariant(h) && Stands(h, call, Entered) && Subject(h, call).once.Busy?
    ensures Leads(h, steps, t) && HasReturned(t, call)
  {
    var id, other := h.calls[call].id, Subject(h, call).once.call;
    assert SubscriberOk(h, id);
    var first, u := InsideEnds(h, other);
    assert u.calls[call] == h.calls[call] && Subject(u, call).once == Done;
    DoneReturns(u, call);
    t := Next(u, Do(call));
    LeadsThen(h, first, u, [Do(call)], t);
    steps := first + [Do(call)];
  }

  lemma EnteredEnds<T>(h: Hub<T>, call: nat) returns (steps: seq<Step<T>>, t: Hub<T>)
    requires HubInvariant(h) && Stands(h, call, Entered)
    ensures Leads(h, steps, t) && HasReturned(t, call)
  {
    match Subject(h, call).once
    case Unused => steps, t := FirstEnds(h, call);
    case Busy(_) => steps, t := WaitingEnds(h, call);
    case Done =>
      DoneReturns(h, call);
      steps, t := [Do(call)], Next(h, Do(call));
  }

  /** Whatever has happened and however many calls are under way, an unsubscribe call that has
      begun can be brought to its end: no two of them wait for each other. */
  lemma CallEnds<T>(cap: nat, steps: seq<Step<T>>, call: nat)
    requires After(cap, steps).Some? && call in After(cap, steps).value.calls
    ensures exists more: seq<Step<T>> ::
              After(cap, steps + more).Some? && HasReturned(After(cap, steps + more).value, call)
  {
    var h := After(cap, steps).value;
    AfterInvariant(cap, steps);
    assert CallOk(h, call);
    var more: seq<Step<T>>, t := [], h;
    if Inside(h.calls[call].pc) {
      more, t := InsideEnds(h, call);
    } else if h.calls[call].pc == Entered {
      more, t := EnteredEnds(h, call);
    }
    AfterLeads(cap, steps, more, t);
  }

  /** And every value can be subscribed to and unsubscribed from: the hub is never stuck. */
  lemma AlwaysJoins<T>(h: Hub<T>, id: nat, call: nat)
    requires id !in h.subscribers && call !in h.calls
    ensures Enabled(h, Step<T>.Make(id))
    ensures var t := Next(h, Step<T>.Make(id));
            && Enabled(t, Step<T>.Join(id)) && id in Next(t, Step<T>.Join(id)).subs
            && Enabled(Next(t, Step<T>.Join(id)), Step<T>.Unsubscribe(call, id))
  {
  }

  // ---- the same hub as mutable objects ---------------------------------------------

  /** `chan T` with a buffer. The ghost queue is its history. */
  class Channel<T(==)> {
    const cap: nat
    var buf: seq<T>
    var closed: bool
    ghost var queue: Queue<T>

    ghost predicate Valid()
      reads this
    {
      Accounted(queue) && queue.buf == buf && queue.cap == cap
    }

    constructor (cap: nat)
      ensures Valid() && !closed && this.cap == cap && queue == EmptyQueue(cap)
    {
      this.cap := cap;
      buf, closed, queue := [], false, EmptyQueue(cap);
    }

    /** A send in a select with a default branch. Sending on a closed channel panics. */
    method TrySend(x: T) returns (sent: bool)
      requires Valid() && !closed
      modifies this
      ensures Valid() && !closed
      ensures sent == (|old(buf)| < cap)
      ensures queue == old(queue).Offer(x)
    {
      OfferAccounted(queue, x);
      sent := |buf| < cap;
      if sent {
        buf := buf + [x];
      }
      queue := queue.Offer(x);
    }

    method TryReceive() returns (r: Option<T>)
      requires Valid()
      modifies this
      ensures Valid() && closed == old(closed)
      ensures old(buf) == [] ==> r == None && queue == old(queue)
      ensures old(buf) != [] ==> r == Some(old(buf)[0]) && queue == old(queue).Take()
    {
      if buf == [] {
        r := None;
      } else {
        TakeAccounted(queue);
        r := Some(buf[0]);
        buf, queue := buf[1..], queue.Take();
      }
    }
  }

  /** `sync.Once` together with the channel its function closes. */
  class Subscription<T(==)> {
    const channel: Channel<T>
    var done: bool

    constructor (channel: Channel<T>)
      ensures this.channel == channel && !done
    {
      this.channel := channel;
      done := false;
    }
  }

  /** The `subs` field of a registry or log, with its three operations. */
  class Subscribers<T(==)> {
    const cap: nat
    var subs: set<Channel<T>>

    ghost predicate Valid()
      reads this, subs
    {
      forall ch :: ch in subs ==> ch.Valid() && !ch.closed && ch.cap == cap
    }

    constructor (cap: nat)
      ensures Valid() && this.cap == cap && subs == {}
    {
      this.cap := cap;
      subs := {};
    }

    method Subscribe() returns (sub: Subscription<T>)
      requires Valid()
      modifies this
      ensures Valid() && fresh(sub) && fresh(sub.channel) && !sub.done
      ensures subs == old(subs) + {sub.channel} && sub.channel.queue == EmptyQueue(cap)
    {
      var ch := new Channel<T>(cap);
      subs := subs + {ch};
      sub := new Subscription(ch);
    }

    /** Safe to call repeatedly: only the first call has an effect. */
    method Unsubscribe(sub: Subscription<T>)
      requires Valid() && sub.done == sub.channel.closed
      modifies this, sub, sub.channel
      ensures Valid() && sub.done && sub.channel.closed && sub.channel !in subs
      ensures subs == old(subs) - {sub.channel}
      ensures sub.channel.queue == old(sub.channel.queue)
      ensures old(sub.done) ==> subs == old(subs)
    {
      if !sub.done {
        subs := subs - {sub.channel};
        sub.channel.closed := true;
        sub.done := true;
      }
    }

    /** Offer x to every subscriber, dropping it where the buffer is full. */
    method Publish(x: T)
      requires Valid()
      modifies subs
      ensures Valid()
      ensures forall ch :: ch in subs ==> ch.queue == old(ch.queue).Offer(x)
    {
      var todo := subs;
      while todo != {}
        invariant todo <= subs && Valid()
        invariant forall ch :: ch in todo ==> ch.queue == old(ch.queue)
        invariant forall ch :: ch in subs && ch !in todo ==> ch.queue == old(ch.queue).Offer(x)
        decreases |todo|
      {
        var ch :| ch in todo;
        var _ := ch.TrySend(x);
        todo := todo - {ch};
      }
    }
  }
}
