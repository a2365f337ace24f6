/** The monitor of internal/monitor/monitor.go as a state machine: Run, the SIGHUP goroutine
    of main.go and one goroutine per host, interleaved step by step. Each step is one atomic
    action of the program: a critical section, an atomic load or store, or the end of a
    blocking call. */
module Monitor {
  import opened Text
  import opened Hosts
  import opened Config
  import opened Events
  import Schedule

  // ---- one worker goroutine --------------------------------------------------------

  /** The outcome of pinging a host. */
  datatype Ping = Failed(err: string) | Reachable | Unreachable

  /** What the SSH checks may read; each check uses its own field. */
  datatype Readings =
    Readings(uptime: int, load: LoadInfo, memory: MemInfo, disks: seq<DiskInfo>)

  /** Where a worker stands: about to load the configuration, about to ping, about to write
      the ping result, about to read it back, about to report a change, about to dial,
      running SSH checks, sleeping, or gone. */
  datatype Pc =
    | Top(tick: nat)
    | Pinging(tick: nat, host: Host)
    | Pinged(tick: nat, host: Host, at: Time, ping: Ping)
    | Updated(tick: nat, host: Host, ping: Ping, prev: Reachability)
    | Reporting(tick: nat, host: Host, ping: Ping, event: Event)
    | Dialing(tick: nat, todo: seq<string>)
    | Querying(tick: nat, todo: seq<string>)
    | Waiting(tick: nat)
    | Exited

  /** `cancelled`: reconcile or Run called this worker's own cancel function. */
  datatype Worker = Worker(pc: Pc, cancelled: bool)

  function ApplyPing(s: Status, at: Time, ping: Ping): Status
  {
    var t := s.(lastChecked := at);
    match ping
    case Failed(err) => t.(reachable := Unknown, lastErr := err)
    case Reachable => t.(reachable := Up, lastErr := "")
    case Unreachable =>
      t.(reachable := Down, lastErr := "", uptime := 0, load := NO_LOAD, memory := NO_MEM,
         disks := [])
  }

  function ApplyReading(s: Status, check: string, r: Readings): Status
  {
    if check == Schedule.UPTIME then s.(uptime := r.uptime)
    else if check == Schedule.LOAD then s.(load := r.load)
    else if check == Schedule.MEMORY then s.(memory := r.memory)
    else if check == Schedule.DISK then s.(disks := r.disks)
    else s
  }

  /** Registry.Update on the status map alone. */
  function UpdateStatus(statuses: map<string, Status>, name: string, mutated: Status)
      : map<string, Status>
    requires name in statuses
  {
    statuses[name := Stamp(statuses[name], mutated)]
  }

  // ---- the whole system ------------------------------------------------------------

  datatype RunPhase = Starting | ContextSet | Running | Stopped

  /** `Stored`: the new configuration is in place, Reload has not finished yet. */
  datatype HupPhase = Quiet | Stored

  /** The monitor's mutex, held between reading the configuration and acting on it. */
  datatype Lock = Free | Reconciling(byRun: bool, wanted: set<string>)

  /** `workers` holds, for each host with a worker, the position of that worker among all
      goroutines ever spawned for the host. */
  datatype State = State(cfg: Settings, run: RunPhase, hup: HupPhase, lock: Lock, done: bool,
                         workers: map<string, nat>, spawned: map<string, seq<Worker>>,
                         statuses: map<string, Status>, log: seq<Event>)

  /** What a worker does next. A worker whose context is done learns nothing from a ping: it
      fails (one that was under way and still got an answer counts as answered before the
      cancellation, since nothing shared lies between). Its sleep and its dialling are left
      freer than the program's: it may wake or connect any number of times. */
  datatype Act =
    | Load
    | PingDone(at: Time, ping: Ping)
    | Commit
    | Observe
    | Report
    | DialFailed(err: string)
    | DialOk
    | Query(result: Option<Readings>)
    | Wake
    | ObserveDone

  datatype Step =
    | SetContext
    | RunRead
    | RunApply
    | Cancel
    | Stop
    | HupLoad(next: Settings)
    | HupRead
    | HupApply
    | HupSkip
    | Work(name: string, i: nat, act: Act)
    | Record(e: Event)

  function Names(c: Settings): set<string> { set h | h in c.hosts :: h.name }

  /** Config.HostByName on a validated configuration. */
  function HostByName(hosts: seq<Host>, name: string): (h: Option<Host>)
    ensures h.Some? ==> h.value in hosts && h.value.name == name
    ensures h.None? ==> forall k :: 0 <= k < |hosts| ==> hosts[k].name != name
  {
    if hosts == [] then None
    else if hosts[0].name == name then Some(hosts[0])
    else HostByName(hosts[1..], name)
  }

  lemma FoundExactly(c: Settings, name: string)
    ensures HostByName(c.hosts, name).Some? <==> name in Names(c)
  {
    var h := HostByName(c.hosts, name);
    if h.Some? {
      assert h.value in c.hosts;
    }
  }

  /** config.ReloadCompatible: the first field that may not change, or None. */
  function ReloadConflict(prev: Settings, next: Settings): Option<string>
  {
    if prev.listen != next.listen then Some("listen")
    else if prev.sshCa.enabled != next.sshCa.enabled then Some("ssh_ca.enabled")
    else if prev.sshCa.keyFile != next.sshCa.keyFile then Some("ssh_ca.key_file")
    else if prev.sshCa.hostCaKeyFile != next.sshCa.hostCaKeyFile
    then Some("ssh_ca.host_ca_key_file")
    else None
  }

  /** The fields that cannot change at run time are the same. */
  predicate RestartFieldsAgree(prev: Settings, next: Settings)
  {
    && prev.listen == next.listen && prev.sshCa.enabled == next.sshCa.enabled
    && prev.sshCa.keyFile == next.sshCa.keyFile
    && prev.sshCa.hostCaKeyFile == next.sshCa.hostCaKeyFile
  }

  /** Nothing but those four fields stands in the way of a reload, and the first that differs
      is the one that is named. */
  lemma ConflictExactly(prev: Settings, next: Settings)
    ensures var r := ReloadConflict(prev, next);
            && (r == None <==> RestartFieldsAgree(prev, next))
            && (r == Some("listen") <==> prev.listen != next.listen)
            && (r == Some("ssh_ca.enabled") <==>
                  prev.listen == next.listen && prev.sshCa.enabled != next.sshCa.enabled)
            && (r == Some("ssh_ca.key_file") <==>
                  prev.listen == next.listen && prev.sshCa.enabled == next.sshCa.enabled
                  && prev.sshCa.keyFile != next.sshCa.keyFile)
            && (r == Some("ssh_ca.host_ca_key_file") <==>
                  prev.listen == next.listen && prev.sshCa.enabled == next.sshCa.enabled
                  && prev.sshCa.keyFile == next.sshCa.keyFile
                  && prev.sshCa.hostCaKeyFile != next.sshCa.hostCaKeyFile)
  {
    assert |"listen"| == 6 && |"ssh_ca.enabled"| == 14 && |"ssh_ca.key_file"| == 15;
    assert |"ssh_ca.host_ca_key_file"| == 23;
  }

  function Workers(s: State, name: string): seq<Worker>
  {
    if name in s.spawned then s.spawned[name] else []
  }

  function Reach(s: State, name: string): Reachability
  {
    if name in s.statuses then s.statuses[name].reachable else Unknown
  }

  // ---- worker steps ----------------------------------------------------------------

  predicate CanAct(s: State, name: string, w: Worker, act: Act)
  {
    match act
    case Load => w.pc.Top?
    case PingDone(_, ping) => w.pc.Pinging? && (w.cancelled || s.done ==> ping.Failed?)
    case Commit => w.pc.Pinged? && name in s.statuses
    case Observe => w.pc.Updated? && name in s.statuses
    case Report => w.pc.Reporting?
    case DialFailed(_) => w.pc.Dialing? && name in s.statuses
    case DialOk => w.pc.Dialing?
    case Query(_) => w.pc.Querying? && w.pc.todo != [] && name in s.statuses
    case Wake => w.pc.Waiting?
    case ObserveDone => w.pc.Waiting? && (w.cancelled || s.done)
  }

  function AfterLoad(c: Settings, name: string, tick: nat): Pc
  {
    match HostByName(c.hosts, name)
    case None => Exited
    case Some(h) => if Schedule.Lookup(h, "ping").enabled then Pinging(tick, h) else Waiting(tick)
  }

  /** After the ping result has been dealt with: SSH checks only on a reachable host. */
  function AfterPing(tick: nat, host: Host, ping: Ping): Pc
  {
    if ping != Reachable then Waiting(tick)
    else
      var todo := Schedule.Due(host, tick);
      if todo == [] then Waiting(tick) else Dialing(tick, todo)
  }

  function StateChange(name: string, prev: Reachability, cur: Status): Event
  {
    Event(0, 0, name, KIND_STATE_CHANGE, prev.ToString(), cur.reachable.ToString(), "", "",
          cur.lastErr)
  }

  function NextPc(s: State, name: string, w: Worker, act: Act): Pc
    requires CanAct(s, name, w, act)
  {
    match act
    case Load => AfterLoad(s.cfg, name, w.pc.tick)
    case PingDone(at, ping) => Pinged(w.pc.tick, w.pc.host, at, ping)
    case Commit => Pc.Updated(w.pc.tick, w.pc.host, w.pc.ping, Reach(s, name))
    case Observe =>
      var cur := s.statuses[name];
      if cur.reachable != w.pc.prev
      then Reporting(w.pc.tick, w.pc.host, w.pc.ping, StateChange(name, w.pc.prev, cur))
      else AfterPing(w.pc.tick, w.pc.host, w.pc.ping)
    case Report => AfterPing(w.pc.tick, w.pc.host, w.pc.ping)
    case DialFailed(_) => Waiting(w.pc.tick)
    case DialOk => Querying(w.pc.tick, w.pc.todo)
    case Query(_) =>
      if |w.pc.todo| == 1 then Waiting(w.pc.tick) else Querying(w.pc.tick, w.pc.todo[1..])
    case Wake => Top(w.pc.tick + 1)
    case ObserveDone => Exited
  }

  function NextStatuses(s: State, name: string, w: Worker, act: Act): map<string, Status>
    requires CanAct(s, name, w, act)
  {
    match act
    case Commit =>
      UpdateStatus(s.statuses, name, ApplyPing(s.statuses[name], w.pc.at, w.pc.ping))
    case DialFailed(err) => UpdateStatus(s.statuses, name, s.statuses[name].(lastErr := err))
    case Query(Some(r)) =>
      UpdateStatus(s.statuses, name, ApplyReading(s.statuses[name], w.pc.todo[0], r))
    case _ => s.statuses
  }

  function NextLog(s: State, name: string, w: Worker, act: Act): seq<Event>
    requires CanAct(s, name, w, act)
  {
    if act == Report then s.log + [w.pc.event.(id := |s.log| + 1)] else s.log
  }

  // ---- reconcile -------------------------------------------------------------------

  /** Cancel a worker if its host has departed. */
  function CancelDeparted(ws: seq<Worker>, i: nat, departed: bool): seq<Worker>
  {
    if departed && i < |ws| then ws[i := ws[i].(cancelled := true)] else ws
  }

  const FRESH := Worker(Top(1), false)

  function ReconcileWorkers(workers: map<string, nat>, spawned: map<string, seq<Worker>>,
                            wanted: set<string>): map<string, nat>
  {
    map n | n in wanted ::
      if n in workers then workers[n] else if n in spawned then |spawned[n]| else 0
  }

  function ReconcileSpawned(workers: map<string, nat>, spawned: map<string, seq<Worker>>,
                            wanted: set<string>): map<string, seq<Worker>>
  {
    map n | n in spawned.Keys + wanted ::
      var ws := if n in spawned then spawned[n] else [];
      if n in workers then CancelDeparted(ws, workers[n], n !in wanted)
      else if n in wanted then ws + [FRESH]
      else ws
  }

  function ReconcileStatuses(workers: map<string, nat>, statuses: map<string, Status>,
                             wanted: set<string>): map<string, Status>
  {
    map n | n in statuses.Keys + (wanted - workers.Keys) ::
      if n in statuses then statuses[n] else NewStatus(n)
  }

  function Reconcile(s: State, wanted: set<string>): State
  {
    s.(workers := ReconcileWorkers(s.workers, s.spawned, wanted),
       spawned := ReconcileSpawned(s.workers, s.spawned, wanted),
       statuses := ReconcileStatuses(s.workers, s.statuses, wanted))
  }

  /** Run's last act: every remaining worker's cancel function is called. */
  function CancelAll(workers: map<string, nat>, spawned: map<string, seq<Worker>>)
      : map<string, seq<Worker>>
  {
    map n | n in spawned ::
      if n in workers then CancelDeparted(spawned[n], workers[n], true) else spawned[n]
  }

  // ---- steps of the system ---------------------------------------------------------

  predicate Enabled(s: State, step: Step)
  {
    match step
    case SetContext => s.run == Starting && s.lock == Free
    case RunRead => s.run == ContextSet && s.lock == Free
    case RunApply => s.lock.Reconciling? && s.lock.byRun
    case Cancel => true
    case Stop => s.run == Running && s.done && s.lock == Free
    case HupLoad(_) => s.hup == Quiet
    case HupRead => s.hup == Stored && s.lock == Free && s.run in {ContextSet, Running}
    case HupApply => s.lock.Reconciling? && !s.lock.byRun
    case HupSkip => s.hup == Stored && s.lock == Free && s.run in {Starting, Stopped}
    case Work(name, i, act) =>
      i < |Workers(s, name)| && CanAct(s, name, Workers(s, name)[i], act)
    case Record(e) => e.kind != KIND_STATE_CHANGE
  }

  ghost function Next(s: State, syntax: Syntax, step: Step): State
    requires Enabled(s, step)
  {
    match step
    case SetContext => s.(run := ContextSet)
    case RunRead => s.(lock := Reconciling(true, Names(s.cfg)))
    case RunApply => Reconcile(s, s.lock.wanted).(lock := Free, run := Running)
    case Cancel => s.(done := true)
    case Stop => s.(run := Stopped, spawned := CancelAll(s.workers, s.spawned))
    case HupLoad(next) =>
      // a file that does not validate or is not compatible leaves everything as it was
      if WellFormed(next, syntax) && ReloadConflict(s.cfg, next) == None
      then s.(cfg := next, hup := Stored) else s
    case HupRead => s.(lock := Reconciling(false, Names(s.cfg)))
    case HupApply => Reconcile(s, s.lock.wanted).(lock := Free, hup := Quiet)
    case HupSkip => s.(hup := Quiet)
    case Work(name, i, act) =>
      var ws := Workers(s, name);
      s.(spawned := s.spawned[name := ws[i := ws[i].(pc := NextPc(s, name, ws[i], act))]],
         statuses := NextStatuses(s, name, ws[i], act),
         log := NextLog(s, name, ws[i], act))
    case Record(e) => s.(log := s.log + [e.(id := |s.log| + 1)])
  }

  function Boot(cfg: Settings): State
  {
    State(cfg, Starting, Quiet, Free, false, map[], map[], map[], [])
  }

  ghost predicate IsRun(cfg: Settings, syntax: Syntax, steps: seq<Step>, states: seq<State>)
  {
    && WellFormed(cfg, syntax)
    && |states| == |steps| + 1
    && states[0] == Boot(cfg)
    && forall k :: 0 <= k < |steps| ==>
         Enabled(states[k], steps[k]) && states[k + 1] == Next(states[k], syntax, steps[k])
  }

  // ---- the workers map is right ----------------------------------------------------

  /** The map entry of a host is its newest goroutine, and the only one not cancelled. */
  ghost predicate EntriesNewest(s: State)
  {
    && (forall n :: n in s.workers ==> n in s.spawned && s.workers[n] + 1 == |s.spawned[n]|)
    && (forall n, i :: n in s.spawned && 0 <= i < |s.spawned[n]| && !s.spawned[n][i].cancelled
          ==> n in s.workers && s.workers[n] == i)
  }

  /** How far the workers map and the configuration may be apart. */
  ghost predicate InStep(s: State)
  {
    && (s.run == Starting ==> s.workers == map[] && s.spawned == map[])
    && (s.run == Stopped ==> s.done)
    && (s.run != Stopped && s.hup == Quiet ==> s.workers.Keys <= Names(s.cfg))
    && (s.run == Running && s.hup == Quiet ==> s.workers.Keys == Names(s.cfg))
    && match s.lock
       case Free => true
       case Reconciling(byRun, wanted) =>
         && (if byRun then s.run == ContextSet
             else s.hup == Stored && s.run in {ContextSet, Running})
         && (wanted == Names(s.cfg) || (byRun && s.hup == Stored))
  }

  /** Until the context is cancelled, a worker in the map is uncancelled; and if it has exited,
      its host has left the configuration and a Reload is on its way. */
  ghost predicate EntriesLive(s: State)
    requires EntriesNewest(s)
  {
    !s.done ==>
      forall n :: n in s.workers ==>
        var w := s.spawned[n][s.workers[n]];
        !w.cancelled && (w.pc == Exited ==> n !in Names(s.cfg) && s.hup == Stored)
  }

  ghost predicate Invariant(s: State)
  {
    && EntriesNewest(s) && InStep(s) && EntriesLive(s)
    && (forall n :: n in s.spawned && s.spawned[n] != [] ==> n in s.statuses)
  }

  lemma ReconcileNewest(s: State, wanted: set<string>)
    requires EntriesNewest(s)
    ensures EntriesNewest(Reconcile(s, wanted))
  {
    var t := Reconcile(s, wanted);
    forall n | n in t.workers ensures n in t.spawned && t.workers[n] + 1 == |t.spawned[n]| {
      if n in s.workers {
        assert t.spawned[n] == s.spawned[n];
      }
    }
  }

  lemma ReconcileKeeps(s: State, wanted: set<string>)
    requires Invariant(s)
    ensures var t := Reconcile(s, wanted);
            && EntriesNewest(t) && t.workers.Keys == wanted
            && (forall n :: n in t.spawned && t.spawned[n] != [] ==> n in t.statuses)
  {
    ReconcileNewest(s, wanted);
  }

  lemma ReconcileLive(s: State, wanted: set<string>)
    requires Invariant(s) && EntriesNewest(Reconcile(s, wanted)) && !s.done
    ensures var t := Reconcile(s, wanted);
            forall n :: n in t.workers ==>
              var w := t.spawned[n][t.workers[n]];
              !w.cancelled && (w.pc == Exited ==> n !in Names(s.cfg) && s.hup == Stored)
  {
    var t := Reconcile(s, wanted);
    forall n | n in t.workers
      ensures var w := t.spawned[n][t.workers[n]];
              !w.cancelled && (w.pc == Exited ==> n !in Names(s.cfg) && s.hup == Stored)
    {
      if n in s.workers {
        assert t.spawned[n] == s.spawned[n];
      }
    }
  }

  /** A worker step replaces one program counter and keeps everything reconcile relies on. */
  lemma WorkEntries(s: State, syntax: Syntax, name: string, i: nat, act: Act)
    requires Invariant(s) && Enabled(s, Work(name, i, act))
    ensures var t := Next(s, syntax, Work(name, i, act));
            && EntriesNewest(t) && InStep(t)
            && forall n :: n in t.spawned && t.spawned[n] != [] ==> n in t.statuses
  {
  }

  /** A worker in the map exits only because its host has left the configuration. */
  lemma WorkLive(s: State, syntax: Syntax, name: string, i: nat, act: Act)
    requires Invariant(s) && Enabled(s, Work(name, i, act))
    requires EntriesNewest(Next(s, syntax, Work(name, i, act)))
    ensures EntriesLive(Next(s, syntax, Work(name, i, act)))
  {
    FoundExactly(s.cfg, name);
  }

  lemma ApplyKeeps(s: State, syntax: Syntax, step: Step)
    requires Invariant(s) && Enabled(s, step) && (step.RunApply? || step.HupApply?)
    ensures Invariant(Next(s, syntax, step))
  {
    ReconcileKeeps(s, s.lock.wanted);
    if !s.done {
      ReconcileLive(s, s.lock.wanted);
    }
  }

  lemma StopKeeps(s: State, syntax: Syntax)
    requires Invariant(s) && Enabled(s, Stop)
    ensures Invariant(Next(s, syntax, Stop))
  {
  }

  /** The steps that touch neither the workers map nor any worker. */
  predicate IsQuiet(step: Step)
  {
    !step.Work? && !step.Stop? && !step.RunApply? && !step.HupApply?
  }

  lemma QuietInStep(s: State, syntax: Syntax, step: Step)
    requires InStep(s) && Enabled(s, step) && IsQuiet(step)
    ensures InStep(Next(s, syntax, step))
  {
  }

  lemma QuietStepKeeps(s: State, syntax: Syntax, step: Step)
    requires Invariant(s) && Enabled(s, step) && IsQuiet(step)
    ensures Invariant(Next(s, syntax, step))
  {
    var t := Next(s, syntax, step);
    assert t.workers == s.workers && t.spawned == s.spawned && t.statuses == s.statuses;
    QuietInStep(s, syntax, step);
    assert EntriesNewest(t);
  }

  lemma StepKeeps(s: State, syntax: Syntax, step: Step)
    requires Invariant(s) && Enabled(s, step)
    ensures Invariant(Next(s, syntax, step))
  {
    match step
    case Work(name, i, act) =>
      WorkEntries(s, syntax, name, i, act);
      WorkLive(s, syntax, name, i, act);
    case Stop => StopKeeps(s, syntax);
    case RunApply => ApplyKeeps(s, syntax, step);
    case HupApply => ApplyKeeps(s, syntax, step);
    case _ => QuietStepKeeps(s, syntax, step);
  }

  lemma {:induction false} RunKeeps(cfg: Settings, syntax: Syntax, steps: seq<Step>,
                                    states: seq<State>, k: nat)
    requires IsRun(cfg, syntax, steps, states) && k < |states|
    ensures Invariant(states[k])
  {
    if k > 0 {
      RunKeeps(cfg, syntax, steps, states, k - 1);
      StepKeeps(states[k - 1], syntax, steps[k - 1]);
    }
  }

  /** In every interleaving a host has at most one uncancelled worker. */
  lemma OneUncancelledWorker(cfg: Settings, syntax: Syntax, steps: seq<Step>,
                             states: seq<State>, k: nat, name: string, i: nat, j: nat)
    requires IsRun(cfg, syntax, steps, states) && k < |states|
    requires i < |Workers(states[k], name)| && j < |Workers(states[k], name)|
    requires !Workers(states[k], name)[i].cancelled && !Workers(states[k], name)[j].cancelled
    ensures i == j
  {
    RunKeeps(cfg, syntax, steps, states, k);
  }

  /** A host has exactly one worker that is neither cancelled nor gone. */
  ghost predicate Served(s: State, name: string)
  {
    exists i :: 0 <= i < |Workers(s, name)| && !Workers(s, name)[i].cancelled
      && Workers(s, name)[i].pc != Exited
      && forall j :: 0 <= j < |Workers(s, name)| && j != i ==> Workers(s, name)[j].cancelled
  }

  /** Once Run's own reconcile is through, and until the context is cancelled, whenever no
      Reload is outstanding the workers map lists exactly the configured hosts, and each of
      them is served: a worker that gave up on a missing host never survives in the map
      until the host comes back. */
  lemma WorkersMatchConfig(cfg: Settings, syntax: Syntax, steps: seq<Step>, states: seq<State>,
                           k: nat)
    requires IsRun(cfg, syntax, steps, states) && k < |states|
    requires states[k].run == Running && states[k].hup == Quiet && !states[k].done
    ensures states[k].workers.Keys == Names(states[k].cfg)
    ensures forall n :: n in Names(states[k].cfg) ==> Served(states[k], n)
  {
    RunKeeps(cfg, syntax, steps, states, k);
    var s := states[k];
    forall n | n in Names(s.cfg) ensures Served(s, n) {
      assert n in s.workers;
      var i := s.workers[n];
      assert !Workers(s, n)[i].cancelled && Workers(s, n)[i].pc != Exited;
    }
  }

  /** Every Reload that takes effect leaves the map equal to the configured host set, even
      while Run has not done its own reconcile yet; no listed worker has exited. */
  lemma ReloadApplied(cfg: Settings, syntax: Syntax, steps: seq<Step>, states: seq<State>, k: nat)
    requires IsRun(cfg, syntax, steps, states) && k < |steps| && steps[k] == HupApply
    ensures var t := states[k + 1];
            && t.workers.Keys == Names(t.cfg)
            && (!t.done ==> forall n :: n in Names(t.cfg) ==> Served(t, n))
  {
    RunKeeps(cfg, syntax, steps, states, k);
    RunKeeps(cfg, syntax, steps, states, k + 1);
    ReconcileKeeps(states[k], states[k].lock.wanted);
    var t := states[k + 1];
    if !t.done {
      forall n | n in Names(t.cfg) ensures Served(t, n) {
        assert n in t.workers;
        var i := t.workers[n];
        assert !Workers(t, n)[i].cancelled && Workers(t, n)[i].pc != Exited;
      }
    }
  }

  lemma ReadStays(s: State, syntax: Syntax, step: Step, wanted: set<string>)
    requires Enabled(s, step)
    requires s.lock == Reconciling(true, wanted) || s.run in {Running, Stopped}
    ensures var t := Next(s, syntax, step);
            t.lock == Reconciling(true, wanted) || t.run in {Running, Stopped}
  {
  }

  /** What Run reads for its own reconcile stays read until it has acted on it, once. */
  lemma {:induction false} RunReadsOnce(cfg: Settings, syntax: Syntax, steps: seq<Step>,
                                        states: seq<State>, j: nat, m: nat)
    requires IsRun(cfg, syntax, steps, states) && j < m < |states| && steps[j] == RunRead
    ensures states[m].lock == Reconciling(true, Names(states[j].cfg))
            || states[m].run in {Running, Stopped}
  {
    if j + 1 < m {
      RunReadsOnce(cfg, syntax, steps, states, j, m - 1);
      ReadStays(states[m - 1], syntax, steps[m - 1], Names(states[j].cfg));
    } else {
      assert states[m] == Next(states[j], syntax, RunRead);
    }
  }

  /** Run's own reconcile leaves the map equal to the configured hosts exactly if the hosts it
      read are still the configured ones. */
  lemma RunApplyExactly(cfg: Settings, syntax: Syntax, steps: seq<Step>, states: seq<State>,
                        j: nat, k: nat)
    requires IsRun(cfg, syntax, steps, states) && j < k < |steps|
    requires steps[j] == RunRead && steps[k] == RunApply
    ensures states[k + 1].workers.Keys == Names(states[k + 1].cfg)
       <==> Names(states[j].cfg) == Names(states[k].cfg)
  {
    RunKeeps(cfg, syntax, steps, states, k);
    RunReadsOnce(cfg, syntax, steps, states, j, k);
    ReconcileKeeps(states[k], states[k].lock.wanted);
  }

  lemma ReconcileNames(s: State, wanted: set<string>)
    ensures Reconcile(s, wanted).workers.Keys == wanted && Reconcile(s, wanted).cfg == s.cfg
  {
  }

  /** They need not be: whenever a reload may change the host set, a SIGHUP can come between
      the two, and then Run is up with a map that is not the configured host set. */
  lemma RunMayBeStale(cfg: Settings, next: Settings, syntax: Syntax)
    requires WellFormed(cfg, syntax) && WellFormed(next, syntax)
    requires ReloadConflict(cfg, next) == None && Names(cfg) != Names(next)
    ensures exists steps: seq<Step>, states: seq<State> ::
              IsRun(cfg, syntax, steps, states) && |steps| == 4
              && states[4].run == Running && states[4].workers.Keys != Names(states[4].cfg)
  {
    var s0 := Boot(cfg);
    var s1 := s0.(run := ContextSet);
    var s2 := s1.(lock := Reconciling(true, Names(cfg)));
    var s3 := s2.(cfg := next, hup := Stored);
    var s4 := Reconcile(s3, Names(cfg)).(lock := Free, run := Running);
    ReconcileNames(s3, Names(cfg));
    var steps := [SetContext, RunRead, HupLoad(next), RunApply];
    var states := [s0, s1, s2, s3, s4];
    assert Next(s2, syntax, HupLoad(next)) == s3;
    assert Next(s3, syntax, RunApply) == s4;
    forall k | 0 <= k < |steps|
      ensures Enabled(states[k], steps[k]) && states[k + 1] == Next(states[k], syntax, steps[k])
    {
      assert k == 0 || k == 1 || k == 2 || k == 3;
    }
    assert IsRun(cfg, syntax, steps, states);
  }

  // ---- the end of Run --------------------------------------------------------------

  ghost predicate AllCancelled(spawned: map<string, seq<Worker>>)
  {
    forall n, i :: n in spawned && 0 <= i < |spawned[n]| ==> spawned[n][i].cancelled
  }

  lemma StopCancels(s: State, syntax: Syntax)
    requires Invariant(s) && Enabled(s, Stop)
    ensures AllCancelled(Next(s, syntax, Stop).spawned)
  {
  }

  /** Run is over, and its goroutines are all told so. */
  ghost predicate Over(s: State)
  {
    s.run == Stopped && s.lock == Free && AllCancelled(s.spawned)
  }

  /** From any state in which Run waits, a cancelled context is enough to end it. */
  lemma CancelEnds(s: State, syntax: Syntax)
    requires Invariant(s) && s.run == Running && s.lock == Free
    ensures Enabled(s, Cancel) && Enabled(Next(s, syntax, Cancel), Stop)
    ensures Over(Next(Next(s, syntax, Cancel), syntax, Stop))
  {
    QuietStepKeeps(s, syntax, Cancel);
    StopCancels(Next(s, syntax, Cancel), syntax);
  }

  lemma StaysOver(s: State, syntax: Syntax, step: Step)
    requires Over(s) && Enabled(s, step)
    ensures Over(Next(s, syntax, step))
    ensures forall n :: |Workers(Next(s, syntax, step), n)| == |Workers(s, n)|
  {
  }

  /** Once Run has returned from its wait, every goroutine of every host is cancelled, those of
      hosts removed long ago included, and no SIGHUP starts another. */
  lemma {:induction false} NothingAfterStop(cfg: Settings, syntax: Syntax, steps: seq<Step>,
                                            states: seq<State>, j: nat, k: nat)
    requires IsRun(cfg, syntax, steps, states) && j < k < |states| && steps[j] == Stop
    ensures Over(states[k])
    ensures forall n :: |Workers(states[k], n)| == |Workers(states[j], n)|
  {
    if k == j + 1 {
      RunKeeps(cfg, syntax, steps, states, j);
      StopCancels(states[j], syntax);
    } else {
      NothingAfterStop(cfg, syntax, steps, states, j, k - 1);
      StaysOver(states[k - 1], syntax, steps[k - 1]);
    }
  }

  lemma StepNumbers(s: State, syntax: Syntax, step: Step)
    requires Numbered(s.log) && Enabled(s, step)
    ensures Numbered(Next(s, syntax, step).log)
  {
  }

  /** The events of every run bear their positions in the log. */
  lemma {:induction false} LogIsNumbered(cfg: Settings, syntax: Syntax, steps: seq<Step>,
                                         states: seq<State>, k: nat)
    requires IsRun(cfg, syntax, steps, states) && k < |states|
    ensures Numbered(states[k].log)
  {
    if k > 0 {
      LogIsNumbered(cfg, syntax, steps, states, k - 1);
      StepNumbers(states[k - 1], syntax, steps[k - 1]);
    }
  }

  // ---- reloads ---------------------------------------------------------------------

  /** A SIGHUP takes effect exactly if the file is acceptable and changes none of the four
      fields; otherwise it has no effect at all. */
  lemma HupLoadExactly(s: State, syntax: Syntax, next: Settings)
    requires Enabled(s, HupLoad(next))
    ensures Next(s, syntax, HupLoad(next))
         == if WellFormed(next, syntax) && RestartFieldsAgree(s.cfg, next)
            then s.(cfg := next, hup := Stored) else s
  {
    ConflictExactly(s.cfg, next);
  }

  lemma ConfigChanges(s: State, syntax: Syntax, step: Step)
    requires Enabled(s, step)
    ensures var c := Next(s, syntax, step).cfg;
            c == s.cfg || (WellFormed(c, syntax) && ReloadConflict(s.cfg, c) == None)
  {
  }

  /** Across any number of reloads the configuration in force is well-formed and agrees with
      the one booted from on every field that cannot change at run time. */
  lemma {:induction false} ReloadsStayCompatible(cfg: Settings, syntax: Syntax, steps: seq<Step>,
                                                 states: seq<State>, k: nat)
    requires IsRun(cfg, syntax, steps, states) && k < |states|
    ensures WellFormed(states[k].cfg, syntax)
    ensures states[k].cfg.listen == cfg.listen
    ensures states[k].cfg.sshCa.enabled == cfg.sshCa.enabled
    ensures states[k].cfg.sshCa.keyFile == cfg.sshCa.keyFile
    ensures states[k].cfg.sshCa.hostCaKeyFile == cfg.sshCa.hostCaKeyFile
  {
    if k > 0 {
      ReloadsStayCompatible(cfg, syntax, steps, states, k - 1);
      ConfigChanges(states[k - 1], syntax, steps[k - 1]);
    }
  }
}
