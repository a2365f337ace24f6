/** One dashboard connection of internal/server/sse.go: subscribe, render a snapshot host by
    host, then drain the channel, while the registry and the configuration change. */
module Viewer {
  import opened Text
  import opened Hosts
  import opened PubSub

  datatype Phase =
    | Connected
    | Snapshot(next: nat, count: nat)
    | Looking(next: nat, count: nat, host: string)
    | Rendering(next: nat, count: nat, host: string, status: Status, registered: bool)
    | Draining
    | Crashed

  /** `shown` is the card the browser displays for each host. `seen` holds the hosts whose
      card was rendered from a registered status; `dropped` those whose latest publish since
      the subscription met a full buffer. */
  datatype State = State(statuses: map<string, Status>, config: seq<string>,
                         visible: set<string>, phase: Phase, queue: Queue<Status>,
                         shown: map<string, Status>, seen: set<string>, dropped: set<string>)

  datatype Step =
    | Register(name: string)
    | Update(name: string, status: Status)
    | Reload(config: seq<string>, visible: set<string>)
    | Subscribe
    | Pick
    | Look
    | Render
    | EndSnapshot
    | Receive

  predicate Enabled(s: State, step: Step)
  {
    match step
    case Register(_) => true
    case Update(name, status) => name in s.statuses && status.name == name
    case Reload(_, _) => true
    case Subscribe => s.phase == Connected
    case Pick => s.phase.Snapshot? && s.phase.next < s.phase.count
    case Look => s.phase.Looking?
    case Render => s.phase.Rendering?
    case EndSnapshot => s.phase.Snapshot? && s.phase.next == s.phase.count
    case Receive => s.phase == Draining && s.queue.buf != []
  }

  predicate Subscribed(s: State) { s.phase != Connected }

  function Publish(s: State, status: Status): State
  {
    if Subscribed(s) then
      s.(queue := s.queue.Offer(status),
         dropped := if |s.queue.buf| < s.queue.cap then s.dropped - {status.name}
                    else s.dropped + {status.name})
    else s
  }

  /** Render a card, unless the host is gone from the configuration or hidden. */
  function Show(s: State, status: Status): State
  {
    if status.name in s.config && status.name in s.visible then
      s.(shown := s.shown[status.name := status], seen := s.seen + {status.name})
    else s
  }

  function Next(s: State, step: Step): State
    requires Enabled(s, step)
  {
    match step
    case Register(name) =>
      if name in s.statuses then s else s.(statuses := s.statuses[name := NewStatus(name)])
    case Update(name, status) => Publish(s.(statuses := s.statuses[name := status]), status)
    case Reload(config, visible) => s.(config := config, visible := visible)
    case Subscribe => s.(phase := Snapshot(0, |s.config|), queue := EmptyQueue(16))
    case Pick =>
      // the loop bound was read once, the host list is read again for every index
      var Snapshot(next, count) := s.phase;
      if next >= |s.config| then s.(phase := Crashed)
      else if s.config[next] !in s.visible then s.(phase := Snapshot(next + 1, count))
      else s.(phase := Looking(next, count, s.config[next]))
    case Look =>
      var Looking(next, count, host) := s.phase;
      var status := if host in s.statuses then s.statuses[host] else ZERO_STATUS;
      s.(phase := Rendering(next, count, host, status, host in s.statuses))
    case Render =>
      var Rendering(next, count, host, status, registered) := s.phase;
      s.(phase := Snapshot(next + 1, count), shown := s.shown[host := status],
         seen := if registered then s.seen + {host} else s.seen)
    case EndSnapshot => s.(phase := Draining)
    case Receive => Show(s.(queue := s.queue.Take()), s.queue.buf[0])
  }

  /** At any moment a host may be registered or updated and the configuration reloaded. */
  lemma AtAnyMoment(s: State, name: string, status: Status, config: seq<string>,
                    visible: set<string>)
    requires status.name == name
    ensures Enabled(s, Register(name)) && name in Next(s, Register(name)).statuses
    ensures Enabled(Next(s, Register(name)), Update(name, status))
    ensures Enabled(s, Reload(config, visible))
  {
  }

  ghost predicate IsPath(steps: seq<Step>, states: seq<State>)
  {
    && |states| == |steps| + 1
    && forall i :: 0 <= i < |steps| ==>
         Enabled(states[i], steps[i]) && states[i + 1] == Next(states[i], steps[i])
  }

  /** A run of one connection. */
  ghost predicate IsRun(steps: seq<Step>, states: seq<State>)
  {
    && IsPath(steps, states)
    && states[0].phase == Connected && states[0].seen == {} && states[0].dropped == {}
    && forall n :: n in states[0].statuses ==> states[0].statuses[n].name == n
  }

  /** The last queued status of a host. */
  function LastFor(buf: seq<Status>, host: string): Option<Status>
  {
    if buf == [] then None
    else if buf[|buf| - 1].name == host then Some(buf[|buf| - 1])
    else LastFor(buf[..|buf| - 1], host)
  }

  lemma {:induction false} LastForTail(buf: seq<Status>, host: string)
    requires buf != []
    ensures LastFor(buf[1..], host).Some? ==> LastFor(buf, host) == LastFor(buf[1..], host)
    ensures LastFor(buf[1..], host).None? ==>
              LastFor(buf, host) == if buf[0].name == host then Some(buf[0]) else None
    decreases |buf|
  {
    var n := |buf| - 1;
    if n > 0 && buf[n].name != host {
      LastForTail(buf[..n], host);
      assert buf[..n][1..] == buf[1..][..n - 1];
    }
  }

  // ---- convergence -----------------------------------------------------------------

  /** What will be on screen for `host` once everything in flight is rendered is what the
      registry holds. */
  ghost predicate OnTrack(s: State, host: string)
  {
    match LastFor(s.queue.buf, host)
    case Some(last) => host in s.statuses && last == s.statuses[host]
    case None =>
      if s.phase.Rendering? && s.phase.host == host && s.phase.registered
      then host in s.statuses && s.phase.status == s.statuses[host]
      else host in s.seen ==>
             host in s.statuses && host in s.shown && s.shown[host] == s.statuses[host]
  }

  ghost predicate Converging(s: State, host: string)
  {
    && (forall n :: n in s.statuses ==> s.statuses[n].name == n)
    && (s.phase == Connected ==> s.seen == {} && s.dropped == {})
    && (host in s.seen ==> host in s.statuses)
    && (LastFor(s.queue.buf, host).Some? && Subscribed(s) ==> host in s.statuses)
    && (s.phase.Rendering? && s.phase.registered ==> s.phase.host in s.statuses)
    && (s.phase.Rendering? && s.phase.host == host && !s.phase.registered ==> host !in s.seen)
    && (Subscribed(s) && host !in s.dropped ==> OnTrack(s, host))
  }

  /** host stays configured and visible to this viewer. */
  predicate Keeps(step: Step, host: string)
  {
    step.Reload? ==> host in step.config && host in step.visible
  }

  lemma UpdateConverges(s: State, name: string, status: Status, host: string)
    requires Converging(s, host) && Enabled(s, Update(name, status))
    ensures Converging(Next(s, Update(name, status)), host)
  {
    var t := Next(s, Update(name, status));
    if Subscribed(s) && |s.queue.buf| < s.queue.cap {
      assert t.queue.buf[..|s.queue.buf|] == s.queue.buf;
    }
  }

  lemma ReceiveConverges(s: State, host: string)
    requires Converging(s, host) && Enabled(s, Step.Receive)
    requires host in s.config && host in s.visible
    ensures Converging(Next(s, Step.Receive), host)
  {
    LastForTail(s.queue.buf, host);
  }

  lemma StepConverges(s: State, step: Step, host: string)
    requires Converging(s, host) && Enabled(s, step)
    requires host in s.config && host in s.visible
    ensures Converging(Next(s, step), host)
  {
    match step
    case Update(name, status) => UpdateConverges(s, name, status, host);
    case Receive => ReceiveConverges(s, host);
    case _ =>
  }

  lemma {:induction false} RunConverges(steps: seq<Step>, states: seq<State>, host: string, i: nat)
    requires IsRun(steps, states) && i < |states|
    requires host in states[0].config && host in states[0].visible
    requires forall j :: 0 <= j < |steps| ==> Keeps(steps[j], host)
    ensures Converging(states[i], host) && host in states[i].config && host in states[i].visible
  {
    if i > 0 {
      RunConverges(steps, states, host, i - 1);
      StepConverges(states[i - 1], steps[i - 1], host);
    }
  }

  /** A host whose card was rendered since the subscription is shown as the registry has it
      once the channel is drained, unless its latest publish was dropped. */
  lemma SeenConverges(steps: seq<Step>, states: seq<State>, host: string, i: nat)
    requires IsRun(steps, states) && i < |states|
    requires host in states[0].config && host in states[0].visible
    requires forall j :: 0 <= j < |steps| ==> Keeps(steps[j], host)
    requires states[i].phase == Draining && states[i].queue.buf == []
    requires host in states[i].seen && host !in states[i].dropped
    ensures host in states[i].shown && host in states[i].statuses
    ensures states[i].shown[host] == states[i].statuses[host]
  {
    RunConverges(steps, states, host, i);
  }

  // ---- nothing without permission --------------------------------------------------

  function Card(s: State, host: string): Option<Status>
  {
    if host in s.shown then Some(s.shown[host]) else None
  }

  /** The latest look-up before step i was of this host, configured and visible then. */
  ghost predicate Picked(steps: seq<Step>, states: seq<State>, i: nat, host: string)
    requires IsRun(steps, states) && i <= |steps|
  {
    exists j :: 0 <= j < i && steps[j] == Pick
                && host in states[j].config && host in states[j].visible
                && forall k :: j < k < i ==> steps[k] != Pick
  }

  predicate AtCard(phase: Phase) { phase.Looking? || phase.Rendering? }

  lemma ToCard(s: State, step: Step)
    requires Enabled(s, step) && AtCard(Next(s, step).phase)
    ensures var host := Next(s, step).phase.host;
            if step == Pick then host in s.config && host in s.visible
            else AtCard(s.phase) && s.phase.host == host
  {
  }

  lemma PickedStill(steps: seq<Step>, states: seq<State>, i: nat, host: string)
    requires IsRun(steps, states) && i < |steps| && steps[i] != Pick
    requires Picked(steps, states, i, host)
    ensures Picked(steps, states, i + 1, host)
  {
  }

  lemma {:induction false} RenderedWasPicked(steps: seq<Step>, states: seq<State>, i: nat)
    requires IsRun(steps, states) && i < |states| && AtCard(states[i].phase)
    ensures Picked(steps, states, i, states[i].phase.host)
  {
    if i > 0 {
      ToCard(states[i - 1], steps[i - 1]);
      if steps[i - 1] != Pick {
        RenderedWasPicked(steps, states, i - 1);
        PickedStill(steps, states, i - 1, states[i].phase.host);
      }
    }
  }

  /** A card changes on the screen only by an update that is received while the host is
      configured and visible to this viewer, or by the rendering of a host that was both when
      the loop looked it up. */
  lemma CardNeedsPermission(steps: seq<Step>, states: seq<State>, i: nat, host: string)
    requires IsRun(steps, states) && i < |steps|
    requires Card(states[i + 1], host) != Card(states[i], host)
    ensures (steps[i] == Step.Receive && host in states[i].config && host in states[i].visible)
         || (steps[i] == Render && Picked(steps, states, i, host))
  {
    if AtCard(states[i].phase) {
      RenderedWasPicked(steps, states, i);
    }
  }

  lemma {:induction false} StaysHidden(steps: seq<Step>, states: seq<State>, host: string, i: nat)
    requires IsRun(steps, states) && i < |states| && host !in states[0].visible
    requires forall j :: 0 <= j < |steps| && steps[j].Reload? ==> host !in steps[j].visible
    ensures host !in states[i].visible
  {
    if i > 0 {
      StaysHidden(steps, states, host, i - 1);
    }
  }

  /** A host this viewer may not see, from the start and through all reloads, never appears on
      the screen, whatever is published about it. */
  lemma {:induction false} HiddenIsNeverShown(steps: seq<Step>, states: seq<State>, host: string,
                                              i: nat)
    requires IsRun(steps, states) && i < |states|
    requires host !in states[0].shown && host !in states[0].visible
    requires forall j :: 0 <= j < |steps| && steps[j].Reload? ==> host !in steps[j].visible
    ensures host !in states[i].shown
  {
    if i > 0 {
      HiddenIsNeverShown(steps, states, host, i - 1);
      forall j | 0 <= j < i ensures host !in states[j].visible {
        StaysHidden(steps, states, host, j);
      }
      if Card(states[i], host) != Card(states[i - 1], host) {
        CardNeedsPermission(steps, states, i - 1, host);
      }
    }
  }

  // ---- the snapshot loop -----------------------------------------------------------

  /** No reload lands while the snapshot loop runs. */
  ghost predicate QuietSnapshot(steps: seq<Step>, states: seq<State>)
    requires IsRun(steps, states)
  {
    forall i :: 0 <= i < |steps| && steps[i].Reload? ==>
      states[i].phase == Connected || states[i].phase == Draining
  }

  function Progress(phase: Phase): nat
  {
    match phase
    case Snapshot(next, _) => next
    case Looking(next, _, _) => next
    case Rendering(next, _, _, _, _) => next
    case _ => 0
  }

  predicate InLoop(phase: Phase) { phase.Snapshot? || phase.Looking? || phase.Rendering? }

  ghost predicate Covering(s: State, always: set<string>)
  {
    && always <= s.statuses.Keys
    && s.phase != Crashed
    && (InLoop(s.phase) ==>
          && Progress(s.phase) <= |s.config|
          && (s.phase.Snapshot? ==> s.phase.count == |s.config|)
          && (!s.phase.Snapshot? ==>
                && Progress(s.phase) < |s.config| == s.phase.count
                && s.phase.host == s.config[Progress(s.phase)])
          && (s.phase.Rendering? && s.phase.host in always ==> s.phase.registered)
          && forall k :: 0 <= k < Progress(s.phase) ==>
               (s.config[k] in s.visible && s.config[k] in always ==> s.config[k] in s.seen))
  }

  lemma StepCovers(s: State, step: Step, always: set<string>)
    requires Covering(s, always) && Enabled(s, step)
    requires step.Reload? ==> !InLoop(s.phase)
    ensures Covering(Next(s, step), always)
  {
  }

  lemma {:induction false} SnapshotCovers(steps: seq<Step>, states: seq<State>,
                                          always: set<string>, i: nat)
    requires IsRun(steps, states) && QuietSnapshot(steps, states) && i < |states|
    requires always <= states[0].statuses.Keys
    ensures Covering(states[i], always)
  {
    if i > 0 {
      SnapshotCovers(steps, states, always, i - 1);
      StepCovers(states[i - 1], steps[i - 1], always);
    }
  }

  /** Without a reload during the loop the handler never indexes past the host list, and when
      the snapshot ends every visible registered host has been rendered. */
  lemma SnapshotComplete(steps: seq<Step>, states: seq<State>, always: set<string>, i: nat)
    requires IsRun(steps, states) && QuietSnapshot(steps, states)
    requires i < |steps| && steps[i] == EndSnapshot
    requires always <= states[0].statuses.Keys
    ensures forall h :: h in states[i].config && h in states[i].visible && h in always
              ==> h in states[i + 1].seen
    ensures forall j :: 0 <= j < |states| ==> states[j].phase != Crashed
  {
    SnapshotCovers(steps, states, always, i);
    forall j | 0 <= j < |states| ensures states[j].phase != Crashed {
      SnapshotCovers(steps, states, always, j);
    }
  }

  // ---- reloads during the loop -----------------------------------------------------

  /** The first index the loop has still to look up. */
  function Ahead(phase: Phase): nat
    requires InLoop(phase)
  {
    if phase.Snapshot? then phase.next else phase.next + 1
  }

  /** All indexes still to be looked up are within the host list. */
  predicate Roomy(s: State)
    requires InLoop(s.phase)
  {
    Ahead(s.phase) < s.phase.count ==> s.phase.count <= |s.config|
  }

  /** The loop has rendered the host's card, is about to, or has still to come to it. */
  predicate Coming(s: State, host: string)
    requires InLoop(s.phase)
  {
    || host in s.seen
    || (!s.phase.Snapshot? && s.phase.host == host)
    || exists p :: Ahead(s.phase) <= p < s.phase.count && p < |s.config| && s.config[p] == host
  }

  /** As things stand, the loop will end well and with the host's card rendered. */
  predicate OnCourse(s: State, host: string)
    requires InLoop(s.phase)
  {
    Roomy(s) && Coming(s, host)
  }

  /** A reload that leaves room for the rest of a running loop. */
  predicate LeavesRoom(s: State, step: Step)
  {
    step.Reload? && InLoop(s.phase) ==> Roomy(s.(config := step.config))
  }

  /** A reload that leaves a running loop on course for the host. */
  predicate Harmless(s: State, step: Step, host: string)
  {
    step.Reload? && InLoop(s.phase) ==> OnCourse(s.(config := step.config), host)
  }

  ghost predicate Unharmed(s: State)
  {
    && s.phase != Crashed
    && (InLoop(s.phase) ==> Ahead(s.phase) <= s.phase.count && Roomy(s))
  }

  /** The loop never indexes out of range on any run on which every configuration stored while
      it has hosts to look up has at least as many hosts as the loop counted at its start. */
  lemma {:induction false} NeverCrashes(steps: seq<Step>, states: seq<State>, i: nat)
    requires IsRun(steps, states) && i < |states|
    requires forall j :: 0 <= j < |steps| ==> LeavesRoom(states[j], steps[j])
    ensures Unharmed(states[i])
  {
    if i > 0 {
      NeverCrashes(steps, states, i - 1);
    }
  }

  ghost predicate Tracked(s: State, host: string)
  {
    && Unharmed(s) && host in s.statuses
    && (s.phase.Rendering? && s.phase.host == host ==> s.phase.registered)
    && (InLoop(s.phase) ==> Coming(s, host))
    && (s.phase == Draining ==> host in s.seen)
  }

  /** Looking up one index keeps a visible host coming. */
  lemma PickComing(s: State, host: string)
    requires Enabled(s, Pick) && s.phase.next < |s.config|
    requires Coming(s, host) && host in s.visible
    ensures Coming(Next(s, Pick), host)
  {
    var t := Next(s, Pick);
    if host !in s.seen {
      var p :| Ahead(s.phase) <= p < s.phase.count && p < |s.config| && s.config[p] == host;
      assert p == s.phase.next || (Ahead(t.phase) <= p && t.config[p] == host);
    }
  }

  lemma TrackedNext(s: State, step: Step, host: string)
    requires Tracked(s, host) && Enabled(s, step) && host in s.config && host in s.visible
    requires Harmless(s, step, host)
    ensures Tracked(Next(s, step), host)
  {
    if step.Subscribe? {
      var p :| 0 <= p < |s.config| && s.config[p] == host;
      assert Next(s, step).config[p] == host;
    } else if step.Reload? && InLoop(s.phase) {
      assert Next(s, step).config == s.(config := step.config).config;
    } else if step.Pick? {
      PickComing(s, host);
    }
  }

  lemma {:induction false} RunTracked(steps: seq<Step>, states: seq<State>, host: string, i: nat)
    requires IsRun(steps, states) && i < |states|
    requires host in states[0].config && host in states[0].visible && host in states[0].statuses
    requires forall j :: 0 <= j < |steps| ==>
               Keeps(steps[j], host) && Harmless(states[j], steps[j], host)
    ensures Tracked(states[i], host)
  {
    if i > 0 {
      RunTracked(steps, states, host, i - 1);
      RunConverges(steps, states, host, i - 1);
      TrackedNext(states[i - 1], steps[i - 1], host);
    }
  }

  /** Convergence. For a host that is configured, visible and registered when the viewer
      connects and stays configured and visible, and with no reload that throws the snapshot
      loop off its course for the host: when the channel is drained and the latest publish for
      the host was not dropped, the browser shows exactly what the registry holds, however
      updates interleaved with the snapshot. */
  lemma ViewerConverges(steps: seq<Step>, states: seq<State>, host: string, i: nat)
    requires IsRun(steps, states) && i < |states|
    requires host in states[0].config && host in states[0].visible && host in states[0].statuses
    requires forall j :: 0 <= j < |steps| ==>
               Keeps(steps[j], host) && Harmless(states[j], steps[j], host)
    requires states[i].phase == Draining && states[i].queue.buf == []
    requires host !in states[i].dropped
    ensures host in states[i].shown && host in states[i].statuses
    ensures states[i].shown[host] == states[i].statuses[host]
  {
    RunTracked(steps, states, host, i);
    SeenConverges(steps, states, host, i);
  }

  // ---- and no weaker condition will do ---------------------------------------------

  /** Some run of one connection ends in s. */
  ghost predicate Reachable(s: State)
  {
    exists steps, states :: IsRun(steps, states) && states[|states| - 1] == s
  }

  lemma Extend(s: State, step: Step)
    requires Reachable(s) && Enabled(s, step)
    ensures Reachable(Next(s, step))
  {
    var steps, states :| IsRun(steps, states) && states[|states| - 1] == s;
    var t := Next(s, step);
    assert IsRun(steps + [step], states + [t]);
    assert (states + [t])[|states + [t]| - 1] == t;
  }

  predicate Counted(s: State) { InLoop(s.phase) ==> Ahead(s.phase) <= s.phase.count }

  lemma {:induction false} RunCounted(steps: seq<Step>, states: seq<State>, i: nat)
    requires IsRun(steps, states) && i < |states|
    ensures Counted(states[i])
  {
    if i > 0 {
      RunCounted(steps, states, i - 1);
    }
  }

  lemma ReachableCounted(s: State)
    requires Reachable(s)
    ensures Counted(s)
  {
    var steps, states :| IsRun(steps, states) && states[|states| - 1] == s;
    RunCounted(steps, states, |states| - 1);
  }

  /** Run the loop to its end with nothing else happening. */
  function Finish(s: State): State
    requires InLoop(s.phase) && Counted(s)
    decreases s.phase.count - s.phase.next,
              if s.phase.Snapshot? then 2 else if s.phase.Looking? then 1 else 0
  {
    match s.phase
    case Snapshot(next, count) =>
      if next == count then Next(s, EndSnapshot)
      else
        var t := Next(s, Pick);
        if t.phase == Crashed then t else Finish(t)
    case Looking(_, _, _) => Finish(Next(s, Look))
    case Rendering(_, _, _, _, _) => Finish(Next(s, Render))
  }

  lemma {:induction false} FinishReachable(s: State)
    requires Reachable(s) && InLoop(s.phase) && Counted(s)
    ensures Reachable(Finish(s))
    decreases s.phase.count - s.phase.next,
              if s.phase.Snapshot? then 2 else if s.phase.Looking? then 1 else 0
  {
    match s.phase
    case Snapshot(next, count) =>
      if next == count {
        Extend(s, EndSnapshot);
      } else {
        Extend(s, Pick);
        if Next(s, Pick).phase != Crashed {
          FinishReachable(Next(s, Pick));
        }
      }
    case Looking(_, _, _) =>
      Extend(s, Look);
      FinishReachable(Next(s, Look));
    case Rendering(_, _, _, _, _) =>
      Extend(s, Render);
      FinishReachable(Next(s, Render));
  }

  /** The loop left alone crashes exactly when it runs out of hosts. */
  lemma {:induction false} FinishRoomy(s: State)
    requires InLoop(s.phase) && Counted(s)
    ensures Finish(s).phase == if Roomy(s) then Draining else Crashed
    decreases s.phase.count - s.phase.next,
              if s.phase.Snapshot? then 2 else if s.phase.Looking? then 1 else 0
  {
    match s.phase
    case Snapshot(next, count) =>
      if next != count && Next(s, Pick).phase != Crashed {
        FinishRoomy(Next(s, Pick));
      }
    case Looking(_, _, _) => FinishRoomy(Next(s, Look));
    case Rendering(_, _, _, _, _) => FinishRoomy(Next(s, Render));
  }

  /** A card to be rendered shows a registered status. */
  predicate FromRegistry(s: State, host: string)
  {
    s.phase.Rendering? && s.phase.host == host ==> s.phase.registered
  }

  lemma PickComes(s: State, host: string)
    requires Enabled(s, Pick) && s.phase.next < |s.config| && host in s.visible
    ensures Coming(Next(s, Pick), host) <==> Coming(s, host)
  {
    if Coming(s, host) {
      PickComing(s, host);
    }
  }

  /** A well-ended loop left alone has rendered exactly the visible hosts it had coming. */
  lemma {:induction false} FinishComing(s: State, host: string)
    requires InLoop(s.phase) && Counted(s) && Roomy(s)
    requires host in s.statuses && host in s.visible && FromRegistry(s, host)
    ensures host in Finish(s).seen <==> Coming(s, host)
    decreases s.phase.count - s.phase.next,
              if s.phase.Snapshot? then 2 else if s.phase.Looking? then 1 else 0
  {
    match s.phase
    case Snapshot(next, count) =>
      if next != count {
        PickComes(s, host);
        FinishComing(Next(s, Pick), host);
      }
    case Looking(_, _, _) =>
      assert Coming(Next(s, Look), host) <==> Coming(s, host);
      FinishComing(Next(s, Look), host);
    case Rendering(_, _, _, _, _) =>
      assert Coming(Next(s, Render), host) <==> Coming(s, host);
      FinishComing(Next(s, Render), host);
  }

  /** In every reachable state of the loop a reload can cost the connection its handler exactly
      if it stores fewer hosts than were counted at the start of a loop that has hosts still
      to look up: then the loop left alone indexes out of range, and otherwise it ends. */
  lemma ShrinkingReloadCrashes(s: State, config: seq<string>, visible: set<string>)
    requires Reachable(s) && InLoop(s.phase)
    ensures Counted(s)
    ensures var t := Finish(Next(s, Reload(config, visible)));
            && Reachable(t)
            && (t.phase == Crashed <==> Ahead(s.phase) < s.phase.count && |config| < s.phase.count)
            && (t.phase != Crashed ==> t.phase == Draining)
  {
    ReachableCounted(s);
    Extend(s, Reload(config, visible));
    FinishReachable(Next(s, Reload(config, visible)));
    FinishRoomy(Next(s, Reload(config, visible)));
  }

  /** And in every such state a reload that keeps a registered host configured and visible
      lets the loop left alone end with the host's card rendered exactly if it is harmless:
      room for the loop, and the host rendered already or not moved behind the loop. */
  lemma HarmlessExactly(s: State, config: seq<string>, visible: set<string>, host: string)
    requires Reachable(s) && InLoop(s.phase)
    requires host in config && host in visible && host in s.statuses && FromRegistry(s, host)
    ensures Counted(s)
    ensures var t := Finish(Next(s, Reload(config, visible)));
            && Reachable(t)
            && (t.phase == Draining && host in t.seen
                <==> Harmless(s, Reload(config, visible), host))
  {
    ShrinkingReloadCrashes(s, config, visible);
    var r := Next(s, Reload(config, visible));
    assert Coming(r, host) <==> Coming(s.(config := config), host);
    FinishRoomy(r);
    if Roomy(r) {
      FinishComing(r, host);
    }
  }

  // ---- a dropped publish -----------------------------------------------------------

  /** Receive until the channel is empty. */
  function Drain(s: State): State
    requires s.phase == Draining
    decreases |s.queue.buf|
  {
    if s.queue.buf == [] then s else Drain(Next(s, Step.Receive))
  }

  lemma {:induction false} DrainShowsQueued(s: State, host: string, status: Status)
    requires s.phase == Draining && status !in s.queue.buf
    requires host in s.shown ==> s.shown[host] != status
    ensures Drain(s).statuses == s.statuses
    ensures host in Drain(s).shown ==> Drain(s).shown[host] != status
    decreases |s.queue.buf|
  {
    if s.queue.buf != [] {
      DrainShowsQueued(Next(s, Step.Receive), host, status);
    }
  }

  lemma {:induction false} DrainEnds(s: State)
    requires s.phase == Draining
    ensures var t := Drain(s);
            && t.phase == Draining && t.queue.buf == []
            && t.config == s.config && t.visible == s.visible && s.shown.Keys <= t.shown.Keys
    ensures Reachable(s) ==> Reachable(Drain(s))
    decreases |s.queue.buf|
  {
    if s.queue.buf != [] {
      if Reachable(s) {
        Extend(s, Step.Receive);
      }
      DrainEnds(Next(s, Step.Receive));
    }
  }

  /** A status published while the buffer is full, and not already queued or shown, stays off
      the screen however long the viewer drains, until the host is published again. */
  lemma DroppedPublishIsMissed(s: State, host: string, status: Status)
    requires s.phase == Draining && Enabled(s, Update(host, status))
    requires |s.queue.buf| >= s.queue.cap && status !in s.queue.buf
    requires host in s.shown ==> s.shown[host] != status
    ensures var t := Drain(Next(s, Update(host, status)));
            && (Reachable(s) ==> Reachable(t))
            && t.phase == Draining && t.queue.buf == []
            && t.config == s.config && t.visible == s.visible
            && host in t.statuses && t.statuses[host] == status
            && (host in s.shown ==> host in t.shown)
            && (host in t.shown ==> t.shown[host] != t.statuses[host])
  {
    var u := Next(s, Update(host, status));
    if Reachable(s) {
      Extend(s, Update(host, status));
    }
    DrainShowsQueued(u, host, status);
    DrainEnds(u);
  }

  /** One host, which is registered. */
  function OneHost(host: string): State
  {
    State(map[host := NewStatus(host)], [host], {host}, Connected, EmptyQueue(16), map[], {}, {})
  }

  /** The viewer of one host once the snapshot has ended. */
  function OneShown(host: string): State
  {
    OneHost(host).(phase := Draining, shown := map[host := NewStatus(host)], seen := {host})
  }

  lemma OneShownReachable(host: string)
    ensures Reachable(OneShown(host))
  {
    var s, t := OneHost(host), OneShown(host);
    var u := s.(phase := Snapshot(0, 1));
    assert IsRun([], [s]) && [s][0] == s;
    Extend(s, Subscribe);
    assert Finish(u) == t by {
      var v := s.(phase := Rendering(0, 1, host, NewStatus(host), true));
      assert Next(v, Render) == t.(phase := Snapshot(1, 1));
      assert Finish(v) == t;
    }
    FinishReachable(u);
  }

  /** The host after having been up for k seconds. */
  function UpFor(host: string, k: nat): Status { NewStatus(host).(uptime := k) }

  function Updates(host: string, k: nat): seq<Status> { seq(k, i requires 0 <= i => UpFor(host, i + 1)) }

  /** k updates arrive and nothing is received. */
  function Busy(host: string, k: nat): State
    requires k <= 16
  {
    OneShown(host).(statuses := map[host := UpFor(host, k)],
                    queue := Queue(16, Updates(host, k), [], Updates(host, k), []))
  }

  lemma {:induction false} BusyReachable(host: string, k: nat)
    requires k <= 16
    ensures Reachable(Busy(host, k))
  {
    if k == 0 {
      OneShownReachable(host);
      assert Updates(host, 0) == [];
    } else {
      var s := Busy(host, k - 1);
      BusyReachable(host, k - 1);
      Extend(s, Update(host, UpFor(host, k)));
      assert Updates(host, k - 1) + [UpFor(host, k)] == Updates(host, k);
      assert s.statuses[host := UpFor(host, k)] == Busy(host, k).statuses;
      assert s.dropped - {host} == {};
      assert Next(s, Update(host, UpFor(host, k))) == Busy(host, k);
    }
  }

  /** And there is a run to such an end for every host: it connects, and seventeen updates come
      before it receives the first; drained, and the host configured, visible, registered and
      rendered, its card still is not what the registry holds. */
  lemma DroppedPublishRun(host: string)
    ensures exists s :: Reachable(s)
              && s.phase == Draining && s.queue.buf == []
              && host in s.config && host in s.visible && host in s.statuses
              && host in s.shown && s.shown[host] != s.statuses[host]
  {
    var s, status := Busy(host, 16), UpFor(host, 17);
    BusyReachable(host, 16);
    assert forall i :: 0 <= i < |s.queue.buf| ==> s.queue.buf[i].uptime == i + 1;
    DroppedPublishIsMissed(s, host, status);
    assert Reachable(Drain(Next(s, Update(host, status))));
  }

  // ---- two such runs ---------------------------------------------------------------

  /** A viewer that connects to two hosts. */
  function TwoHosts(a: string, b: string): State
  {
    State(map[a := NewStatus(a), b := NewStatus(b)], [a, b], {a, b}, Connected, EmptyQueue(16),
          map[], {}, {})
  }

  const FIRST_CARD := [Subscribe, Pick, Look, Render]

  /** What the viewer of two hosts goes through up to the first card. */
  function FirstCard(a: string, b: string): (states: seq<State>)
    ensures |states| == 5
  {
    var s := TwoHosts(a, b);
    [s, s.(phase := Snapshot(0, 2)), s.(phase := Looking(0, 2, a)),
     s.(phase := Rendering(0, 2, a, NewStatus(a), true)),
     s.(phase := Snapshot(1, 2), shown := map[a := NewStatus(a)], seen := {a})]
  }

  lemma FirstCardRun(a: string, b: string)
    requires a != b
    ensures IsRun(FIRST_CARD, FirstCard(a, b))
  {
    var states := FirstCard(a, b);
    assert [a, b][0] == a && {} + {a} == {a};
    forall i | 0 <= i < 4
      ensures Enabled(states[i], FIRST_CARD[i]) && states[i + 1] == Next(states[i], FIRST_CARD[i])
    {
      assert i == 0 || i == 1 || i == 2 || i == 3;
    }
  }

  lemma RunThen(steps: seq<Step>, states: seq<State>, more: seq<Step>, path: seq<State>)
    requires IsRun(steps, states) && IsPath(more, path) && path[0] == states[|steps|]
    ensures IsRun(steps + more, states + path[1..])
  {
    var n, all, through := |steps|, steps + more, states + path[1..];
    forall i | 0 <= i < |all|
      ensures Enabled(through[i], all[i]) && through[i + 1] == Next(through[i], all[i])
    {
      if i < n {
        assert through[i] == states[i] && through[i + 1] == states[i + 1] && all[i] == steps[i];
      } else {
        var k := i - n;
        assert through[i] == path[k] && through[i + 1] == path[k + 1] && all[i] == more[k];
      }
    }
  }

  /** Two hosts, one rendered, a reload that drops the other: the handler crashes. */
  lemma ShrinkingReloadRun(a: string, b: string)
    requires a != b
    ensures exists steps: seq<Step>, states: seq<State> ::
              IsRun(steps, states) && states[0] == TwoHosts(a, b)
              && |steps| == 6 && steps[4] == Reload([a], {a}) && states[6].phase == Crashed
  {
    FirstCardRun(a, b);
    var s := FirstCard(a, b)[4];
    var t := s.(config := [a], visible := {a});
    var more, path := [Reload([a], {a}), Pick], [s, t, t.(phase := Crashed)];
    forall i | 0 <= i < 2
      ensures Enabled(path[i], more[i]) && path[i + 1] == Next(path[i], more[i])
    {
      assert i == 0 || i == 1;
    }
    RunThen(FIRST_CARD, FirstCard(a, b), more, path);
    var steps, states := FIRST_CARD + more, FirstCard(a, b) + path[1..];
    assert steps[4] == more[0] && states[6] == path[2];
    assert IsRun(steps, states);
  }

  /** The loop's second turn, with the two hosts swapped. */
  const SECOND_TURN := [Pick, Look, Render, EndSnapshot]

  function Swap(a: string, b: string): Step { Reload([b, a], {a, b}) }

  function Swapped(a: string, b: string): (path: seq<State>)
    ensures |path| == 6
  {
    var s := FirstCard(a, b)[4];
    var t := s.(config := [b, a]);
    [s, t, t.(phase := Looking(1, 2, a)), t.(phase := Rendering(1, 2, a, NewStatus(a), true)),
     t.(phase := Snapshot(2, 2)), t.(phase := Draining)]
  }

  lemma SwappedPath(a: string, b: string)
    requires a != b
    ensures IsPath([Swap(a, b)] + SECOND_TURN, Swapped(a, b))
  {
    var more, path := [Swap(a, b)] + SECOND_TURN, Swapped(a, b);
    assert [b, a][1] == a && {a} + {a} == {a};
    assert path[0].shown[a := NewStatus(a)] == path[0].shown;
    forall i | 0 <= i < 5
      ensures Enabled(path[i], more[i]) && path[i + 1] == Next(path[i], more[i])
    {
      assert i == 0 || i == 1 || i == 2 || i == 3 || i == 4;
    }
  }

  /** Two hosts, one rendered, a reload that only swaps them: the loop renders the first again
      and ends, everything is drained and nothing was dropped, and the second host, all the
      while configured, visible and registered, is not on the screen. */
  lemma ReorderingReloadHides(a: string, b: string)
    requires a != b
    ensures exists steps: seq<Step>, states: seq<State> ::
              IsRun(steps, states) && states[0] == TwoHosts(a, b)
              && (forall j :: 0 <= j < |steps| ==> Keeps(steps[j], b))
              && var t := states[|steps|];
                 t.phase == Draining && t.queue.buf == [] && t.dropped == {} && b !in t.shown
  {
    FirstCardRun(a, b);
    SwappedPath(a, b);
    var more, path := [Swap(a, b)] + SECOND_TURN, Swapped(a, b);
    RunThen(FIRST_CARD, FirstCard(a, b), more, path);
    var steps, states := FIRST_CARD + more, FirstCard(a, b) + path[1..];
    assert states[9] == path[5];
    forall j | 0 <= j < 9 ensures Keeps(steps[j], b) {
      assert steps[j] == if j < 4 then FIRST_CARD[j] else more[j - 4];
    }
    assert IsRun(steps, states);
  }
}
