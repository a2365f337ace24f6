/** What the monitor's workers leave behind: the state-change events of a host form a chain
    that agrees with the registry, and a host that is down shows no stale readings. Both
    need that a cancelled worker is not still finishing a check while its successor runs,
    which is so for every host that is not removed and added back; MonitorOverlap shows that
    they fail otherwise. */
module MonitorHistory {
  import opened Seqs
  import opened Hosts
  import opened Config
  import opened Events
  import opened Monitor

  // ---- chains of state changes -----------------------------------------------------

  predicate IsChangeOf(e: Event, name: string) { e.kind == KIND_STATE_CHANGE && e.host == name }

  /** The state-change events of one host, oldest first. */
  function Changes(log: seq<Event>, name: string): seq<Event>
  {
    Filter(log, (e: Event) => IsChangeOf(e, name))
  }

  /** The reachability the last change ended in. */
  function LastTo(es: seq<Event>): string
  {
    if es == [] then "unknown" else es[|es| - 1].to
  }

  /** Starts from "unknown", never stays put, and each change picks up where the previous
      one ended. */
  ghost predicate IsChain(es: seq<Event>)
  {
    forall i :: 0 <= i < |es| ==>
      es[i].from != es[i].to && es[i].from == LastTo(es[..i])
  }

  lemma ChainAppend(es: seq<Event>, e: Event)
    requires IsChain(es) && e.from == LastTo(es) && e.from != e.to
    ensures IsChain(es + [e]) && LastTo(es + [e]) == e.to
  {
    forall i | 0 <= i < |es + [e]|
      ensures (es + [e])[i].from != (es + [e])[i].to
      ensures (es + [e])[i].from == LastTo((es + [e])[..i])
    {
      assert (es + [e])[..i] == if i == |es| then es else es[..i];
    }
  }

  lemma ChangesAppend(log: seq<Event>, e: Event, name: string)
    ensures Changes(log + [e], name)
         == Changes(log, name) + if IsChangeOf(e, name) then [e] else []
  {
    FilterAppend(log, e, (x: Event) => IsChangeOf(x, name));
  }

  // ---- one host's view of a step ---------------------------------------------------

  /** The program counters of all goroutines ever spawned for a host. */
  function Pcs(s: State, name: string): (pcs: seq<Pc>)
    ensures |pcs| == |Workers(s, name)|
    ensures forall i :: 0 <= i < |pcs| ==> pcs[i] == Workers(s, name)[i].pc
  {
    seq(|Workers(s, name)|, i requires 0 <= i < |Workers(s, name)| => Workers(s, name)[i].pc)
  }

  /** A host that is not registered reads as one never polled. */
  function StatusOf(s: State, name: string): Status
  {
    if name in s.statuses then s.statuses[name] else NewStatus(name)
  }

  /** A step of a worker of this host moves that worker only. */
  lemma OwnWork(s: State, syntax: Syntax, name: string, i: nat, act: Act)
    requires Enabled(s, Work(name, i, act))
    ensures var t, w := Next(s, syntax, Work(name, i, act)), Workers(s, name)[i];
            && Pcs(t, name) == Pcs(s, name)[i := NextPc(s, name, w, act)]
            && StatusOf(t, name) == (if name in s.statuses then NextStatuses(s, name, w, act)[name]
                                     else NewStatus(name))
            && t.log == NextLog(s, name, w, act)
  {
  }

  /** A step of a worker of another host is invisible here. */
  lemma OtherWork(s: State, syntax: Syntax, other: string, i: nat, act: Act, name: string)
    requires Enabled(s, Work(other, i, act)) && other != name
    requires Pcs(s, other)[i].Reporting? ==> Pcs(s, other)[i].event.host == other
    ensures var t := Next(s, syntax, Work(other, i, act));
            && Pcs(t, name) == Pcs(s, name) && StatusOf(t, name) == StatusOf(s, name)
            && Changes(t.log, name) == Changes(s.log, name)
  {
    if act == Report {
      ChangesAppend(s.log, Workers(s, other)[i].pc.event.(id := |s.log| + 1), name);
    }
  }

  /** Reconciling adds at most one fresh worker to a host. */
  lemma ReconcileWork(s: State, wanted: set<string>, name: string)
    ensures var t := Reconcile(s, wanted);
            && (Pcs(t, name) == Pcs(s, name) || Pcs(t, name) == Pcs(s, name) + [Top(1)])
            && StatusOf(t, name) == StatusOf(s, name)
  {
  }

  /** Any other step at most adds one fresh worker. */
  lemma SystemWork(s: State, syntax: Syntax, step: Step, name: string)
    requires Enabled(s, step) && !step.Work?
    ensures var t := Next(s, syntax, step);
            && (Pcs(t, name) == Pcs(s, name) || Pcs(t, name) == Pcs(s, name) + [Top(1)])
            && StatusOf(t, name) == StatusOf(s, name)
            && Changes(t.log, name) == Changes(s.log, name)
  {
    if step.Record? {
      ChangesAppend(s.log, step.e.(id := |s.log| + 1), name);
    } else if step.RunApply? || step.HupApply? {
      ReconcileWork(s, s.lock.wanted, name);
    }
  }

  /** Workers report on their own host. */
  ghost predicate OwnReports(pcs: seq<Pc>, name: string)
  {
    forall i :: 0 <= i < |pcs| && pcs[i].Reporting? ==> IsChangeOf(pcs[i].event, name)
  }

  ghost predicate OwnEvents(s: State)
  {
    forall n: string :: OwnReports(Pcs(s, n), n)
  }

  lemma OwnEventsKept(s: State, syntax: Syntax, step: Step)
    requires OwnEvents(s) && Enabled(s, step)
    ensures OwnEvents(Next(s, syntax, step))
  {
    forall n: string ensures OwnReports(Pcs(Next(s, syntax, step), n), n) {
      assert OwnReports(Pcs(s, n), n);
      if !step.Work? {
        SystemWork(s, syntax, step, n);
      } else if step.name == n {
        OwnWork(s, syntax, n, step.i, step.act);
      } else {
        assert OwnReports(Pcs(s, step.name), step.name);
        OtherWork(s, syntax, step.name, step.i, step.act, n);
      }
    }
  }

  // ---- state changes form a chain --------------------------------------------------

  /** Between writing a ping result and having reported it. */
  predicate InReport(pc: Pc) { pc.Updated? || pc.Reporting? }

  /** At most one of the workers is between its Update and its report. */
  ghost predicate ReportsApart(pcs: seq<Pc>)
  {
    forall i, j :: 0 <= i < j < |pcs| ==> !(InReport(pcs[i]) && InReport(pcs[j]))
  }

  ghost predicate Idle(pcs: seq<Pc>)
  {
    forall i :: 0 <= i < |pcs| ==> !InReport(pcs[i])
  }

  lemma ToStringDiffers(a: Reachability, b: Reachability)
    ensures a.ToString() == b.ToString() <==> a == b
  {
    if a.ToString() == b.ToString() {
      ToStringInjective(a, b);
    }
  }

  /** What a worker in its report knows about the chain. */
  ghost predicate PcOnChain(pc: Pc, es: seq<Event>, reach: Reachability)
  {
    match pc
    case Updated(_, _, _, prev) => prev.ToString() == LastTo(es)
    case Reporting(_, _, _, e) =>
      e.from == LastTo(es) && e.to == reach.ToString() && e.from != e.to
    case _ => true
  }

  ghost predicate OnChain(pcs: seq<Pc>, es: seq<Event>, reach: Reachability)
  {
    && IsChain(es)
    && (forall i :: 0 <= i < |pcs| ==> PcOnChain(pcs[i], es, reach))
    && (Idle(pcs) ==> LastTo(es) == reach.ToString())
  }

  ghost predicate HostOnChain(s: State, name: string)
  {
    OnChain(Pcs(s, name), Changes(s.log, name), StatusOf(s, name).reachable)
  }

  /** Writing a ping result: nobody else is reporting, so the chain ends where it starts. */
  lemma CommitOnChain(pcs: seq<Pc>, es: seq<Event>, reach: Reachability, i: nat, pc: Pc,
                      next: Reachability)
    requires OnChain(pcs, es, reach) && i < |pcs| && !InReport(pcs[i])
    requires pc.Updated? && pc.prev == reach && ReportsApart(pcs[i := pc])
    ensures OnChain(pcs[i := pc], es, next)
  {
    forall k | 0 <= k < |pcs| ensures !InReport(pcs[k]) {
      assert pcs[i := pc][i] == pc;
      assert k != i ==> pcs[i := pc][k] == pcs[k];
    }
    assert Idle(pcs);
    assert !Idle(pcs[i := pc]) by {
      assert InReport(pcs[i := pc][i]);
    }
  }

  /** Reading the status back, and possibly preparing a report. */
  lemma ObserveOnChain(pcs: seq<Pc>, es: seq<Event>, reach: Reachability, i: nat, pc: Pc)
    requires OnChain(pcs, es, reach) && ReportsApart(pcs) && i < |pcs| && pcs[i].Updated?
    requires if pcs[i].prev == reach then !InReport(pc)
             else pc.Reporting? && pc.event.from == pcs[i].prev.ToString()
                  && pc.event.to == reach.ToString()
    ensures OnChain(pcs[i := pc], es, reach)
  {
    ToStringDiffers(pcs[i].prev, reach);
    assert PcOnChain(pcs[i], es, reach);
    if InReport(pc) {
      assert InReport(pcs[i := pc][i]);
    }
  }

  /** Appending the report extends the chain to the registry's value. */
  lemma ReportOnChain(pcs: seq<Pc>, es: seq<Event>, reach: Reachability, i: nat, pc: Pc, e: Event)
    requires OnChain(pcs, es, reach) && ReportsApart(pcs) && i < |pcs| && pcs[i].Reporting?
    requires !InReport(pc) && e.from == pcs[i].event.from && e.to == pcs[i].event.to
    ensures OnChain(pcs[i := pc], es + [e], reach)
  {
    assert PcOnChain(pcs[i], es, reach);
    ChainAppend(es, e);
    var moved := pcs[i := pc];
    forall k | 0 <= k < |moved| ensures !InReport(moved[k]) {
      if k != i {
        assert moved[k] == pcs[k];
      }
    }
  }

  /** Any other move of a worker that is not reporting. */
  lemma MoveOnChain(pcs: seq<Pc>, es: seq<Event>, reach: Reachability, i: nat, pc: Pc)
    requires OnChain(pcs, es, reach) && i < |pcs| && !InReport(pcs[i]) && !InReport(pc)
    ensures OnChain(pcs[i := pc], es, reach)
  {
    if Idle(pcs[i := pc]) {
      forall k | 0 <= k < |pcs| ensures !InReport(pcs[k]) {
        assert k != i ==> pcs[i := pc][k] == pcs[k];
      }
    }
  }

  lemma SpawnOnChain(pcs: seq<Pc>, es: seq<Event>, reach: Reachability)
    requires OnChain(pcs, es, reach)
    ensures OnChain(pcs + [Top(1)], es, reach)
  {
    if Idle(pcs + [Top(1)]) {
      forall k | 0 <= k < |pcs| ensures !InReport(pcs[k]) {
        assert (pcs + [Top(1)])[k] == pcs[k];
      }
    }
  }

  lemma OwnCommit(s: State, syntax: Syntax, name: string, i: nat)
    requires HostOnChain(s, name) && Enabled(s, Work(name, i, Commit))
    requires ReportsApart(Pcs(Next(s, syntax, Work(name, i, Commit)), name))
    ensures HostOnChain(Next(s, syntax, Work(name, i, Commit)), name)
  {
    OwnWork(s, syntax, name, i, Commit);
    CommitOnChain(Pcs(s, name), Changes(s.log, name), StatusOf(s, name).reachable, i,
                  NextPc(s, name, Workers(s, name)[i], Commit),
                  StatusOf(Next(s, syntax, Work(name, i, Commit)), name).reachable);
  }

  lemma OwnObserve(s: State, syntax: Syntax, name: string, i: nat)
    requires HostOnChain(s, name) && Enabled(s, Work(name, i, Observe))
    requires ReportsApart(Pcs(s, name))
    ensures HostOnChain(Next(s, syntax, Work(name, i, Observe)), name)
  {
    OwnWork(s, syntax, name, i, Observe);
    ObserveOnChain(Pcs(s, name), Changes(s.log, name), StatusOf(s, name).reachable, i,
                   NextPc(s, name, Workers(s, name)[i], Observe));
  }

  lemma ReportView(s: State, syntax: Syntax, name: string, i: nat)
    requires Enabled(s, Work(name, i, Report)) && OwnReports(Pcs(s, name), name)
    ensures Pcs(s, name)[i].Reporting?
    ensures var t, pc := Next(s, syntax, Work(name, i, Report)),
                         NextPc(s, name, Workers(s, name)[i], Report);
            && Pcs(t, name) == Pcs(s, name)[i := pc] && !InReport(pc)
            && StatusOf(t, name).reachable == StatusOf(s, name).reachable
            && Changes(t.log, name)
               == Changes(s.log, name) + [Pcs(s, name)[i].event.(id := |s.log| + 1)]
  {
    OwnWork(s, syntax, name, i, Report);
    ChangesAppend(s.log, Pcs(s, name)[i].event.(id := |s.log| + 1), name);
  }

  lemma OwnReport(s: State, syntax: Syntax, name: string, i: nat)
    requires HostOnChain(s, name) && Enabled(s, Work(name, i, Report))
    requires ReportsApart(Pcs(s, name)) && OwnReports(Pcs(s, name), name)
    ensures HostOnChain(Next(s, syntax, Work(name, i, Report)), name)
  {
    ReportView(s, syntax, name, i);
    ReportOnChain(Pcs(s, name), Changes(s.log, name), StatusOf(s, name).reachable, i,
                  NextPc(s, name, Workers(s, name)[i], Report),
                  Pcs(s, name)[i].event.(id := |s.log| + 1));
  }

  lemma MoveView(s: State, syntax: Syntax, name: string, i: nat, act: Act)
    requires Enabled(s, Work(name, i, act))
    requires !act.Commit? && !act.Observe? && !act.Report?
    ensures var t, pc := Next(s, syntax, Work(name, i, act)),
                         NextPc(s, name, Workers(s, name)[i], act);
            && Pcs(t, name) == Pcs(s, name)[i := pc] && !InReport(pc) && !InReport(Pcs(s, name)[i])
            && StatusOf(t, name).reachable == StatusOf(s, name).reachable
            && Changes(t.log, name) == Changes(s.log, name)
  {
    OwnWork(s, syntax, name, i, act);
  }

  lemma OwnMove(s: State, syntax: Syntax, name: string, i: nat, act: Act)
    requires HostOnChain(s, name) && Enabled(s, Work(name, i, act))
    requires !act.Commit? && !act.Observe? && !act.Report?
    ensures HostOnChain(Next(s, syntax, Work(name, i, act)), name)
  {
    MoveView(s, syntax, name, i, act);
    MoveOnChain(Pcs(s, name), Changes(s.log, name), StatusOf(s, name).reachable, i,
                NextPc(s, name, Workers(s, name)[i], act));
  }

  lemma ChainStep(s: State, syntax: Syntax, step: Step, name: string)
    requires HostOnChain(s, name) && OwnEvents(s) && Enabled(s, step)
    requires ReportsApart(Pcs(s, name)) && ReportsApart(Pcs(Next(s, syntax, step), name))
    ensures HostOnChain(Next(s, syntax, step), name)
  {
    if !step.Work? {
      SystemWork(s, syntax, step, name);
      SpawnOnChain(Pcs(s, name), Changes(s.log, name), StatusOf(s, name).reachable);
    } else if step.name != name {
      assert OwnReports(Pcs(s, step.name), step.name);
      OtherWork(s, syntax, step.name, step.i, step.act, name);
    } else {
      assert OwnReports(Pcs(s, name), name);
      match step.act
      case Commit => OwnCommit(s, syntax, name, step.i);
      case Observe => OwnObserve(s, syntax, name, step.i);
      case Report => OwnReport(s, syntax, name, step.i);
      case _ => OwnMove(s, syntax, name, step.i, step.act);
    }
  }

  lemma {:induction false} RunOnChain(cfg: Settings, syntax: Syntax, steps: seq<Step>,
                                      states: seq<State>, name: string, k: nat)
    requires IsRun(cfg, syntax, steps, states) && k < |states|
    requires forall j :: 0 <= j < |states| ==> ReportsApart(Pcs(states[j], name))
    ensures HostOnChain(states[k], name) && OwnEvents(states[k])
  {
    if k > 0 {
      RunOnChain(cfg, syntax, steps, states, name, k - 1);
      ChainStep(states[k - 1], syntax, steps[k - 1], name);
      OwnEventsKept(states[k - 1], syntax, steps[k - 1]);
    }
  }

  /** On every run on which no two workers of a host report at once, whatever other hosts,
      reloads and HTTP handlers do: the host's state changes form a chain from "unknown", and
      while no worker of it is reporting the chain ends in the registry's reachability. The
      chain goes on across removal and re-adding of the host. */
  lemma StateChangesFormChain(cfg: Settings, syntax: Syntax, steps: seq<Step>,
                              states: seq<State>, name: string, k: nat)
    requires IsRun(cfg, syntax, steps, states) && k < |states|
    requires forall j :: 0 <= j < |states| ==> ReportsApart(Pcs(states[j], name))
    ensures IsChain(Changes(states[k].log, name))
    ensures Idle(Pcs(states[k], name)) ==>
              LastTo(Changes(states[k].log, name)) == Reach(states[k], name).ToString()
  {
    RunOnChain(cfg, syntax, steps, states, name, k);
  }

  // ---- down means cleared ----------------------------------------------------------

  /** After writing a ping result, until the pass is over. */
  predicate InPass(pc: Pc) { InReport(pc) || pc.Dialing? || pc.Querying? }

  /** At most one of the workers is in the second half of a pass. */
  ghost predicate PassesApart(pcs: seq<Pc>)
  {
    forall i, j :: 0 <= i < j < |pcs| ==> !(InPass(pcs[i]) && InPass(pcs[j]))
  }

  predicate Cleared(s: Status)
  {
    s.uptime == 0 && s.load == NO_LOAD && s.memory == NO_MEM && s.disks == []
  }

  /** A worker that has seen the host answer, or is already talking to it. */
  predicate SawUp(pc: Pc)
  {
    match pc
    case Updated(_, _, ping, _) => ping == Reachable
    case Reporting(_, _, ping, _) => ping == Reachable
    case Dialing(_, _) => true
    case Querying(_, _) => true
    case _ => false
  }

  ghost predicate DownCleared(pcs: seq<Pc>, status: Status)
  {
    && (status.reachable == Down ==> Cleared(status))
    && forall i :: 0 <= i < |pcs| && SawUp(pcs[i]) ==> status.reachable == Up
  }

  ghost predicate HostDownCleared(s: State, name: string)
  {
    DownCleared(Pcs(s, name), StatusOf(s, name))
  }

  /** Writing a ping result while nobody else is mid-pass. */
  lemma CommitDown(pcs: seq<Pc>, before: Status, i: nat, pc: Pc, at: Time)
    requires i < |pcs| && pc.Updated? && PassesApart(pcs[i := pc])
    ensures DownCleared(pcs[i := pc], Stamp(before, ApplyPing(before, at, pc.ping)))
  {
    var moved := pcs[i := pc];
    forall k | 0 <= k < |moved| && SawUp(moved[k]) ensures k == i {
      assert moved[i] == pc;
    }
  }

  lemma OwnDownStep(s: State, syntax: Syntax, name: string, i: nat, act: Act)
    requires HostDownCleared(s, name) && Enabled(s, Work(name, i, act))
    requires PassesApart(Pcs(Next(s, syntax, Work(name, i, act)), name))
    ensures HostDownCleared(Next(s, syntax, Work(name, i, act)), name)
  {
    var pcs := Pcs(s, name);
    var pc := NextPc(s, name, Workers(s, name)[i], act);
    OwnWork(s, syntax, name, i, act);
    if act.Commit? {
      CommitDown(pcs, StatusOf(s, name), i, pc, pcs[i].at);
    } else {
      assert SawUp(pc) ==> SawUp(pcs[i]);
    }
  }

  lemma DownStep(s: State, syntax: Syntax, step: Step, name: string)
    requires HostDownCleared(s, name) && OwnEvents(s) && Enabled(s, step)
    requires PassesApart(Pcs(Next(s, syntax, step), name))
    ensures HostDownCleared(Next(s, syntax, step), name)
  {
    if !step.Work? {
      SystemWork(s, syntax, step, name);
    } else if step.name != name {
      assert OwnReports(Pcs(s, step.name), step.name);
      OtherWork(s, syntax, step.name, step.i, step.act, name);
    } else {
      OwnDownStep(s, syntax, name, step.i, step.act);
    }
  }

  lemma {:induction false} RunDownCleared(cfg: Settings, syntax: Syntax, steps: seq<Step>,
                                          states: seq<State>, name: string, k: nat)
    requires IsRun(cfg, syntax, steps, states) && k < |states|
    requires forall j :: 0 <= j < |states| ==> PassesApart(Pcs(states[j], name))
    ensures HostDownCleared(states[k], name) && OwnEvents(states[k])
  {
    if k > 0 {
      RunDownCleared(cfg, syntax, steps, states, name, k - 1);
      DownStep(states[k - 1], syntax, steps[k - 1], name);
      OwnEventsKept(states[k - 1], syntax, steps[k - 1]);
    }
  }

  /** On every run on which no two workers of a host are in the second half of a pass at
      once, a host that is down has no uptime, load, memory or disk readings. */
  lemma DownMeansCleared(cfg: Settings, syntax: Syntax, steps: seq<Step>, states: seq<State>,
                         name: string, k: nat)
    requires IsRun(cfg, syntax, steps, states) && k < |states|
    requires forall j :: 0 <= j < |states| ==> PassesApart(Pcs(states[j], name))
    requires name in states[k].statuses && states[k].statuses[name].reachable == Down
    ensures Cleared(states[k].statuses[name])
  {
    RunDownCleared(cfg, syntax, steps, states, name, k);
  }

  // ---- when workers can overlap ----------------------------------------------------

  /** A cancelled worker that is still in the middle of a pass. */
  ghost predicate HasStraggler(s: State, name: string)
  {
    exists i :: 0 <= i < |Workers(s, name)|
      && Workers(s, name)[i].cancelled && InPass(Workers(s, name)[i].pc)
  }

  /** Workers of a host overlap only while a cancelled one is still finishing its pass. */
  lemma OverlapNeedsStraggler(cfg: Settings, syntax: Syntax, steps: seq<Step>,
                              states: seq<State>, name: string, k: nat)
    requires IsRun(cfg, syntax, steps, states) && k < |states|
    requires !HasStraggler(states[k], name)
    ensures PassesApart(Pcs(states[k], name)) && ReportsApart(Pcs(states[k], name))
  {
    RunKeeps(cfg, syntax, steps, states, k);
    var s := states[k];
    forall i | 0 <= i < |Pcs(s, name)| && InPass(Pcs(s, name)[i])
      ensures name in s.workers && s.workers[name] == i
    {
      assert !Workers(s, name)[i].cancelled;
    }
  }

  /** Along these configurations the host is there, then gone, then back. */
  ghost predicate Returns(cs: seq<Settings>, name: string)
  {
    exists i, j, k :: 0 <= i < j < k < |cs|
      && name in Names(cs[i]) && name !in Names(cs[j]) && name in Names(cs[k])
  }

  /** The configurations in force along a run. */
  function Configs(states: seq<State>): (cs: seq<Settings>)
    ensures |cs| == |states| && forall k :: 0 <= k < |cs| ==> cs[k] == states[k].cfg
  {
    seq(|states|, k requires 0 <= k < |states| => states[k].cfg)
  }

  /** At most one goroutine was ever spawned for the host, and as long as a reconcile may want
      the host it is the one in the map. `ever`: the host has been configured before. */
  ghost predicate SpawnedOnce(s: State, name: string, ever: bool)
  {
    var wanted := s.lock.Reconciling? && name in s.lock.wanted;
    var spawned := |Workers(s, name)| == 1;
    && |Workers(s, name)| <= 1
    && (!ever ==> !spawned && !wanted && name !in Names(s.cfg))
    && (spawned && (wanted || name in Names(s.cfg)) ==> name in s.workers)
    && (spawned && s.lock.Reconciling? && name in Names(s.cfg) ==> wanted)
  }

  lemma SpawnedOnceKept(s: State, syntax: Syntax, step: Step, name: string, ever: bool)
    requires SpawnedOnce(s, name, ever) && Enabled(s, step)
    requires var next := Next(s, syntax, step).cfg;
             ever && name in Names(next) ==> name in Names(s.cfg)
    ensures var t := Next(s, syntax, step);
            SpawnedOnce(t, name, ever || name in Names(t.cfg))
  {
  }

  ghost predicate Ever(states: seq<State>, name: string, k: nat)
  {
    exists j :: 0 <= j <= k && j < |states| && name in Names(states[j].cfg)
  }

  lemma EverNext(states: seq<State>, name: string, k: nat)
    requires k + 1 < |states|
    ensures Ever(states, name, k + 1) <==> Ever(states, name, k) || name in Names(states[k + 1].cfg)
  {
  }

  lemma StillThere(states: seq<State>, name: string, k: nat)
    requires k + 1 < |states| && !Returns(Configs(states), name)
    requires Ever(states, name, k) && name in Names(states[k + 1].cfg)
    ensures name in Names(states[k].cfg)
  {
    var j :| 0 <= j <= k && name in Names(states[j].cfg);
    var cs := Configs(states);
    assert name in Names(cs[j]) && name in Names(cs[k + 1]);
    assert name in Names(cs[k]);
  }

  /** A host that is not removed and added back gets at most one goroutine in its whole life. */
  lemma {:induction false} OneSpellOneWorker(cfg: Settings, syntax: Syntax, steps: seq<Step>,
                                             states: seq<State>, name: string, k: nat)
    requires IsRun(cfg, syntax, steps, states) && k < |states|
    requires !Returns(Configs(states), name)
    ensures |Workers(states[k], name)| <= 1
    ensures SpawnedOnce(states[k], name, Ever(states, name, k))
  {
    if k > 0 {
      OneSpellOneWorker(cfg, syntax, steps, states, name, k - 1);
      EverNext(states, name, k - 1);
      if Ever(states, name, k - 1) && name in Names(states[k].cfg) {
        StillThere(states, name, k - 1);
      }
      SpawnedOnceKept(states[k - 1], syntax, steps[k - 1], name, Ever(states, name, k - 1));
    } else {
      assert Ever(states, name, 0) <==> name in Names(states[0].cfg);
    }
  }
}
