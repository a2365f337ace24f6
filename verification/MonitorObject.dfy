/** The monitor as the object of internal/monitor/monitor.go: its fields, reconcile with its two
    loops, and one undisturbed pass of checkOnce. Each method is tied to the steps of the
    interleaved machine in Monitor. */
module MonitorObject {
  import opened Text
  import opened Hosts
  import opened Config
  import opened Machine = Monitor
  import opened Events
  import opened Seqs
  import Schedule

  // ---- reconcile, half done --------------------------------------------------------

  /** The workers map while the departed names in `todo` are still to be looked at. */
  function Departing(workers: map<string, nat>, wanted: set<string>, todo: set<string>)
      : map<string, nat>
  {
    map n | n in workers && (n in wanted || n in todo) :: workers[n]
  }

  function DepartingSpawned(workers: map<string, nat>, spawned: map<string, seq<Worker>>,
                            wanted: set<string>, todo: set<string>): map<string, seq<Worker>>
  {
    map n | n in spawned ::
      if n in workers && n !in todo then CancelDeparted(spawned[n], workers[n], n !in wanted)
      else spawned[n]
  }

  /** Every map entry is a goroutine that was spawned. */
  predicate Listed(workers: map<string, nat>, spawned: map<string, seq<Worker>>)
  {
    forall n :: n in workers ==> n in spawned && workers[n] < |spawned[n]|
  }

  lemma DepartedNext(workers: map<string, nat>, spawned: map<string, seq<Worker>>,
                     wanted: set<string>, todo: set<string>, n: string)
    requires Listed(workers, spawned) && todo <= workers.Keys && n in todo
    ensures var w, s := Departing(workers, wanted, todo),
                        DepartingSpawned(workers, spawned, wanted, todo);
            var w', s' := Departing(workers, wanted, todo - {n}),
                          DepartingSpawned(workers, spawned, wanted, todo - {n});
            && n in w && n in s && w[n] < |s[n]|
            && w' == (if n in wanted then w else w - {n})
            && s' == (if n in wanted then s else s[n := CancelDeparted(s[n], w[n], true)])
  {
  }

  /** Reconciling after the departed are gone starts from here... */
  lemma StartFirst(workers: map<string, nat>, spawned: map<string, seq<Worker>>,
                   statuses: map<string, Status>)
    requires Listed(workers, spawned)
    ensures ReconcileWorkers(workers, spawned, workers.Keys) == workers
    ensures ReconcileSpawned(workers, spawned, workers.Keys) == spawned
    ensures ReconcileStatuses(workers, statuses, workers.Keys) == statuses
  {
  }

  /** ...grows by one name at a time... */
  lemma StartNextWorkers(workers: map<string, nat>, spawned: map<string, seq<Worker>>,
                         names: set<string>, n: string)
    requires Listed(workers, spawned) && workers.Keys <= names && n !in names
    ensures n !in ReconcileWorkers(workers, spawned, names)
    ensures ReconcileWorkers(workers, spawned, names + {n})
         == ReconcileWorkers(workers, spawned, names)
              [n := if n in spawned then |spawned[n]| else 0]
  {
  }

  lemma StartNextSpawned(workers: map<string, nat>, spawned: map<string, seq<Worker>>,
                         names: set<string>, n: string)
    requires Listed(workers, spawned) && workers.Keys <= names && n !in names
    ensures var s := ReconcileSpawned(workers, spawned, names);
            var ws := if n in spawned then spawned[n] else [];
            && (n in s <==> n in spawned) && (n in s ==> s[n] == ws)
            && ReconcileSpawned(workers, spawned, names + {n}) == s[n := ws + [FRESH]]
  {
  }

  lemma StartNextStatuses(workers: map<string, nat>, statuses: map<string, Status>,
                          names: set<string>, n: string)
    requires workers.Keys <= names && n !in names
    ensures var t := ReconcileStatuses(workers, statuses, names);
            ReconcileStatuses(workers, statuses, names + {n})
            == if n in t then t else t[n := NewStatus(n)]
  {
  }

  /** w, s and t are what a reconcile to `names` makes of the other three maps. */
  ghost predicate Started(workers: map<string, nat>, spawned: map<string, seq<Worker>>,
                          statuses: map<string, Status>, names: set<string>,
                          w: map<string, nat>, s: map<string, seq<Worker>>, t: map<string, Status>)
  {
    && w == ReconcileWorkers(workers, spawned, names)
    && s == ReconcileSpawned(workers, spawned, names)
    && t == ReconcileStatuses(workers, statuses, names)
  }

  lemma StartNext(workers: map<string, nat>, spawned: map<string, seq<Worker>>,
                  statuses: map<string, Status>, names: set<string>,
                  w: map<string, nat>, s: map<string, seq<Worker>>, t: map<string, Status>,
                  n: string)
    requires Listed(workers, spawned) && workers.Keys <= names && n !in w
    requires Started(workers, spawned, statuses, names, w, s, t)
    ensures n !in names
    ensures var ws := if n in s then s[n] else [];
            Started(workers, spawned, statuses, names + {n}, w[n := |ws|], s[n := ws + [FRESH]],
                    if n in t then t else t[n := NewStatus(n)])
  {
    StartNextWorkers(workers, spawned, names, n);
    StartNextSpawned(workers, spawned, names, n);
    StartNextStatuses(workers, statuses, names, n);
  }

  /** `names` are the names seen to, `todo` the others. */
  ghost predicate Divided(workers: map<string, nat>, names: set<string>, wanted: set<string>,
                          todo: set<string>)
  {
    todo <= wanted && names == workers.Keys + (wanted - todo)
  }

  lemma DividedNext(workers: map<string, nat>, names: set<string>, wanted: set<string>,
                    todo: set<string>, n: string)
    requires Divided(workers, names, wanted, todo) && n in todo
    ensures Divided(workers, names + {n}, wanted, todo - {n})
    ensures n in names ==> names + {n} == names
  {
  }

  /** ...and ends where a single reconcile of the original maps does. */
  lemma StartLastWorkers(workers: map<string, nat>, spawned: map<string, seq<Worker>>,
                         wanted: set<string>)
    requires Listed(workers, spawned)
    ensures var w, s := Departing(workers, wanted, {}),
                        DepartingSpawned(workers, spawned, wanted, {});
            Listed(w, s) && w.Keys <= wanted
            && ReconcileWorkers(w, s, wanted) == ReconcileWorkers(workers, spawned, wanted)
  {
  }

  lemma StartLastSpawned(workers: map<string, nat>, spawned: map<string, seq<Worker>>,
                         wanted: set<string>)
    requires Listed(workers, spawned)
    ensures var w, s := Departing(workers, wanted, {}),
                        DepartingSpawned(workers, spawned, wanted, {});
            ReconcileSpawned(w, s, wanted) == ReconcileSpawned(workers, spawned, wanted)
  {
  }

  lemma StartLastStatuses(workers: map<string, nat>, statuses: map<string, Status>,
                          wanted: set<string>)
    ensures ReconcileStatuses(Departing(workers, wanted, {}), statuses, wanted)
         == ReconcileStatuses(workers, statuses, wanted)
  {
  }

  // ---- one pass of checkOnce -------------------------------------------------------

  /** The status after the due checks have answered, in order; None is a failed check. */
  function Queried(s: Status, todo: seq<string>, answers: seq<Option<Readings>>): Status
    requires |answers| == |todo|
    decreases |todo|
  {
    if todo == [] then s
    else
      var t := if answers[0].Some? then Stamp(s, ApplyReading(s, todo[0], answers[0].value)) else s;
      Queried(t, todo[1..], answers[1..])
  }

  function Answer(statuses: map<string, Status>, name: string, check: string,
                  answer: Option<Readings>): map<string, Status>
  {
    if name in statuses && answer.Some?
    then UpdateStatus(statuses, name, ApplyReading(statuses[name], check, answer.value))
    else statuses
  }

  /** What the SSH connection came to: an error, or the answers of the checks. */
  datatype Ssh = Refused(err: string) | Answered(answers: seq<Option<Readings>>)

  predicate Fits(ssh: Ssh, todo: seq<string>)
  {
    ssh.Answered? ==> |ssh.answers| == |todo|
  }

  function AfterSsh(s: Status, todo: seq<string>, ssh: Ssh): Status
    requires Fits(ssh, todo)
  {
    match ssh
    case Refused(err) => Stamp(s, s.(lastErr := err))
    case Answered(answers) => Queried(s, todo, answers)
  }

  /** The status after a whole pass. */
  function Pass(s: Status, at: Time, ping: Ping, todo: seq<string>, ssh: Ssh): Status
    requires Fits(ssh, todo)
  {
    var t := Stamp(s, ApplyPing(s, at, ping));
    if ping != Ping.Reachable || todo == [] then t else AfterSsh(t, todo, ssh)
  }

  function Change(name: string, prev: Reachability, cur: Status): seq<Event>
  {
    if cur.reachable != prev then [StateChange(name, prev, cur)] else []
  }

  /** The events a pass appends: one if the ping changed the reachability, else none. */
  function Changes(name: string, s: Status, at: Time, ping: Ping): seq<Event>
  {
    Change(name, s.reachable, Stamp(s, ApplyPing(s, at, ping)))
  }

  /** The history with at most one more event, numbered and stamped. */
  function Recorded(history: seq<Event>, events: seq<Event>, now: int): seq<Event>
  {
    if events == [] then history
    else history + [events[0].(id := |history| + 1, ts := now)]
  }

  // ---- what that comes to, field by field ------------------------------------------

  /** One figure of a status: what its check answered, or what was there before if the check
      was not due or failed. */
  ghost predicate Figure<T>(todo: seq<string>, answers: seq<Option<Readings>>, check: string,
                            read: Readings -> T, was: T, now: T)
    requires |answers| == |todo|
  {
    && (forall k :: 0 <= k < |todo| && todo[k] == check && answers[k].Some? ==>
          now == read(answers[k].value))
    && ((forall k :: 0 <= k < |todo| && todo[k] == check ==> answers[k].None?) ==> now == was)
  }

  /** Every check has its own figure, and nothing else changes. */
  ghost predicate Figures(todo: seq<string>, answers: seq<Option<Readings>>, was: Status,
                          now: Status)
    requires |answers| == |todo|
  {
    && Figure(todo, answers, "uptime", (r: Readings) => r.uptime, was.uptime, now.uptime)
    && Figure(todo, answers, "load", (r: Readings) => r.load, was.load, now.load)
    && Figure(todo, answers, "memory", (r: Readings) => r.memory, was.memory, now.memory)
    && Figure(todo, answers, "disk", (r: Readings) => r.disks, was.disks, now.disks)
    && now == was.(uptime := now.uptime, load := now.load, memory := now.memory,
                   disks := now.disks)
  }

  lemma FigureNext<T>(todo: seq<string>, answers: seq<Option<Readings>>, check: string,
                      read: Readings -> T, was: T, mid: T, now: T)
    requires |answers| == |todo| > 0 && NoDuplicates(todo)
    requires mid == if todo[0] == check && answers[0].Some? then read(answers[0].value) else was
    requires Figure(todo[1..], answers[1..], check, read, mid, now)
    ensures Figure(todo, answers, check, read, was, now)
  {
    forall k | 0 <= k < |todo| && todo[k] == check && answers[k].Some?
      ensures now == read(answers[k].value)
    {
      if k > 0 {
        assert todo[1..][k - 1] == todo[k] && answers[1..][k - 1] == answers[k];
      }
    }
    forall k | 0 < k < |todo| ensures todo[1..][k - 1] == todo[k] && answers[1..][k - 1] == answers[k] {}
  }

  /** The answers go, each, into the figure of their check. */
  lemma {:induction false} QueriedFigures(s: Status, todo: seq<string>,
                                          answers: seq<Option<Readings>>)
    requires |answers| == |todo| && NoDuplicates(todo)
    ensures Figures(todo, answers, s, Queried(s, todo, answers))
    decreases |todo|
  {
    if todo != [] {
      var t := if answers[0].Some? then Stamp(s, ApplyReading(s, todo[0], answers[0].value)) else s;
      var u := Queried(s, todo, answers);
      QueriedFigures(t, todo[1..], answers[1..]);
      FigureNext(todo, answers, "uptime", (r: Readings) => r.uptime, s.uptime, t.uptime, u.uptime);
      FigureNext(todo, answers, "load", (r: Readings) => r.load, s.load, t.load, u.load);
      FigureNext(todo, answers, "memory", (r: Readings) => r.memory, s.memory, t.memory, u.memory);
      FigureNext(todo, answers, "disk", (r: Readings) => r.disks, s.disks, t.disks, u.disks);
    }
  }

  /** A ping tells whether the host is up, down or cannot be told, keeps the error of a failed
      one, and leaves no figure of a host that is down. */
  ghost predicate PingResult(was: Status, now: Status, at: Time, ping: Ping)
  {
    && now.name == was.name && now.lastChecked == at
    && (now.reachable == match ping
                         case Failed(_) => Unknown
                         case Reachable => Up
                         case Unreachable => Down)
    && now.lastErr == (if ping.Failed? then ping.err else "")
    && now.lastChange == (if now.reachable == was.reachable then was.lastChange else at)
    && (if ping.Unreachable?
        then now.uptime == 0 && now.load == LoadInfo(0.0, 0.0, 0.0)
             && now.memory == MemInfo(0, 0) && now.disks == []
        else now.uptime == was.uptime && now.load == was.load
             && now.memory == was.memory && now.disks == was.disks)
  }

  lemma PingGives(s: Status, at: Time, ping: Ping)
    ensures PingResult(s, Stamp(s, ApplyPing(s, at, ping)), at, ping)
  {
  }

  /** What a whole pass leaves: the ping's result; after an answer with checks due also the
      error of a refused connection, or the figures that were read. */
  ghost predicate Outcome(was: Status, now: Status, at: Time, ping: Ping, todo: seq<string>,
                          ssh: Ssh)
    requires Fits(ssh, todo)
  {
    if !ping.Reachable? || todo == [] then PingResult(was, now, at, ping)
    else
      match ssh
      case Refused(err) => now.lastErr == err && PingResult(was, now.(lastErr := ""), at, ping)
      case Answered(answers) =>
        exists mid: Status :: PingResult(was, mid, at, ping) && Figures(todo, answers, mid, now)
  }

  lemma PassOutcome(s: Status, at: Time, ping: Ping, todo: seq<string>, ssh: Ssh)
    requires Fits(ssh, todo) && NoDuplicates(todo)
    ensures Outcome(s, Pass(s, at, ping, todo, ssh), at, ping, todo, ssh)
  {
    var t := Stamp(s, ApplyPing(s, at, ping));
    PingGives(s, at, ping);
    if ping.Reachable? && todo != [] && ssh.Answered? {
      QueriedFigures(t, todo, ssh.answers);
    }
  }

  /** The event of a change of reachability, if there was one. */
  ghost predicate Announced(was: seq<Event>, now: seq<Event>, name: string, from: Reachability,
                            to: Reachability, err: string, ts: int)
  {
    now == was + if from == to then []
                 else [Event(|was| + 1, ts, name, "state_change", from.ToString(), to.ToString(),
                             "", "", err)]
  }

  lemma PassAnnounced(history: seq<Event>, name: string, s: Status, at: Time, ping: Ping,
                      todo: seq<string>, ssh: Ssh, now: int)
    requires Fits(ssh, todo) && NoDuplicates(todo)
    ensures Announced(history, Recorded(history, Changes(name, s, at, ping), now), name, s.reachable,
                      Pass(s, at, ping, todo, ssh).reachable, if ping.Failed? then ping.err else "",
                      now)
  {
    PassOutcome(s, at, ping, todo, ssh);
    PingGives(s, at, ping);
    assert history + [] == history;
  }

  lemma {:induction false} FilterDistinct(s: seq<string>, keep: string -> bool)
    requires NoDuplicates(s)
    ensures NoDuplicates(Filter(s, keep))
    decreases |s|
  {
    if s != [] {
      var n := |s| - 1;
      var f := Filter(s[..n], keep);
      FilterDistinct(s[..n], keep);
      forall i | 0 <= i < |f| ensures f[i] != s[n] {
        FilterMember(s[..n], keep, f[i]);
      }
    }
  }

  /** No check is due twice on one tick. */
  lemma DueDistinct(h: Host, tick: nat)
    ensures NoDuplicates(Schedule.Due(h, tick))
  {
    assert |Schedule.UPTIME| == |Schedule.MEMORY| == 6 && |Schedule.LOAD| == |Schedule.DISK| == 4;
    assert Schedule.UPTIME[0] != Schedule.MEMORY[0] && Schedule.LOAD[0] != Schedule.DISK[0];
    FilterDistinct(Schedule.SSH_CHECKS, n => Schedule.IsDue(h, n, tick));
  }

  lemma PassTold(history: seq<Event>, h: Host, tick: nat, s: Status, at: Time, ping: Ping, ssh: Ssh,
                 now: int)
    requires Fits(ssh, Schedule.Due(h, tick))
    ensures var t := Pass(s, at, ping, Schedule.Due(h, tick), ssh);
            && Outcome(s, t, at, ping, Schedule.Due(h, tick), ssh)
            && Announced(history, Recorded(history, Changes(h.name, s, at, ping), now), h.name,
                         s.reachable, t.reachable, if ping.Failed? then ping.err else "", now)
  {
    DueDistinct(h, tick);
    PassOutcome(s, at, ping, Schedule.Due(h, tick), ssh);
    PassAnnounced(history, h.name, s, at, ping, Schedule.Due(h, tick), ssh, now);
  }

  // ---- the object ------------------------------------------------------------------

  /** config.Pointer. */
  class Pointer {
    var current: Settings

    constructor (initial: Settings)
      ensures current == initial
    {
      current := initial;
    }

    method Load() returns (c: Settings)
      ensures c == current
    {
      c := current;
    }

    method Store(next: Settings)
      modifies this
      ensures current == next
    {
      current := next;
    }
  }

  class Monitor {
    const cfg: Pointer
    const registry: Registry
    const log: Log
    var hasContext: bool
    var stopped: bool
    /** For each host with a worker, which of the host's goroutines it is. */
    var workers: map<string, nat>
    /** All goroutines ever started, with their cancel flags. */
    var spawned: map<string, seq<Worker>>

    ghost predicate Valid()
      reads this, registry, registry.subs, registry.subs.subs
    {
      registry.Valid() && Listed(workers, spawned)
    }

    constructor (cfg: Pointer, registry: Registry, log: Log)
      requires registry.Valid()
      ensures Valid() && this.cfg == cfg && this.registry == registry && this.log == log
      ensures !hasContext && !stopped && workers == map[] && spawned == map[]
    {
      this.cfg, this.registry, this.log := cfg, registry, log;
      hasContext, stopped, workers, spawned := false, false, map[], map[];
    }

    /** Call the cancel functions of the departed and drop their entries. */
    method StopDeparted(wanted: set<string>)
      requires Valid()
      modifies `workers, `spawned
      ensures workers == Departing(old(workers), wanted, {})
      ensures spawned == DepartingSpawned(old(workers), old(spawned), wanted, {})
    {
      ghost var w, s := workers, spawned;
      var todo := workers.Keys;
      assert workers == Departing(w, wanted, todo);
      assert spawned == DepartingSpawned(w, s, wanted, todo);
      while todo != {}
        invariant todo <= w.Keys
        invariant workers == Departing(w, wanted, todo)
        invariant spawned == DepartingSpawned(w, s, wanted, todo)
        decreases |todo|
      {
        var name :| name in todo;
        DepartedNext(w, s, wanted, todo, name);
        if name !in wanted {
          var i := workers[name];
          spawned := spawned[name := spawned[name][i := spawned[name][i].(cancelled := true)]];
          workers := workers - {name};
        }
        todo := todo - {name};
      }
    }

    /** Register a host and start a goroutine for it. */
    method Start(name: string)
      requires registry.Valid()
      modifies `workers, `spawned, registry
      ensures registry.Valid()
      ensures var ws := if name in old(spawned) then old(spawned)[name] else [];
              workers == old(workers)[name := |ws|] && spawned == old(spawned)[name := ws + [FRESH]]
      ensures registry.statuses == if name in old(registry.statuses) then old(registry.statuses)
                                   else old(registry.statuses)[name := NewStatus(name)]
      ensures old(Disciplined(registry.history)) ==> Disciplined(registry.history)
    {
      registry.Register(name);
      var running := if name in spawned then spawned[name] else [];
      workers := workers[name := |running|];
      spawned := spawned[name := running + [FRESH]];
    }

    /** Start the hosts that have no worker yet. */
    method StartNew(wanted: set<string>)
      requires Valid() && workers.Keys <= wanted
      modifies `workers, `spawned, registry
      ensures registry.Valid()
      ensures Started(old(workers), old(spawned), old(registry.statuses), wanted, workers, spawned,
                      registry.statuses)
      ensures old(Disciplined(registry.history)) ==> Disciplined(registry.history)
    {
      ghost var w, s, t := workers, spawned, registry.statuses;
      StartFirst(w, s, t);
      ghost var names := workers.Keys;
      var todo := wanted;
      while todo != {}
        invariant Divided(w, names, wanted, todo)
        invariant registry.Valid()
        invariant old(Disciplined(registry.history)) ==> Disciplined(registry.history)
        invariant Started(w, s, t, names, workers, spawned, registry.statuses)
        decreases |todo|
      {
        var name :| name in todo;
        DividedNext(w, names, wanted, todo, name);
        todo := todo - {name};
        if name in workers {
          continue;
        }
        StartNext(w, s, t, names, workers, spawned, registry.statuses, name);
        Start(name);
        names := names + {name};
      }
      assert names == wanted;
    }

    /** reconcile: nothing before Run and after its end; otherwise exactly the machine's step. */
    method Reconcile()
      requires Valid()
      modifies `workers, `spawned, registry
      ensures Valid()
      ensures if stopped || !hasContext
              then workers == old(workers) && spawned == old(spawned)
                   && registry.statuses == old(registry.statuses)
              else Started(old(workers), old(spawned), old(registry.statuses), Names(cfg.current),
                           workers, spawned, registry.statuses)
      ensures old(Disciplined(registry.history)) ==> Disciplined(registry.history)
    {
      if stopped || !hasContext {
        return;
      }
      var c := cfg.Load();
      var wanted := Names(c);
      StartLastWorkers(workers, spawned, wanted);
      StartLastSpawned(workers, spawned, wanted);
      StartLastStatuses(workers, registry.statuses, wanted);
      StopDeparted(wanted);
      StartNew(wanted);
    }

    /** Run before it blocks. */
    method Begin()
      requires Valid()
      modifies `hasContext, `workers, `spawned, registry
      ensures Valid() && hasContext
      ensures if stopped
              then workers == old(workers) && spawned == old(spawned)
                   && registry.statuses == old(registry.statuses)
              else Started(old(workers), old(spawned), old(registry.statuses), Names(cfg.current),
                           workers, spawned, registry.statuses)
      ensures old(Disciplined(registry.history)) ==> Disciplined(registry.history)
    {
      hasContext := true;
      Reconcile();
    }

    /** Call every worker's cancel function. */
    method CancelWorkers()
      requires Valid()
      modifies `spawned
      ensures spawned == CancelAll(workers, old(spawned))
    {
      ghost var w, s := workers, spawned;
      var todo := workers.Keys;
      assert spawned == DepartingSpawned(w, s, {}, todo);
      while todo != {}
        invariant todo <= w.Keys
        invariant spawned == DepartingSpawned(w, s, {}, todo)
        decreases |todo|
      {
        var name :| name in todo;
        DepartedNext(w, s, {}, todo, name);
        var i := workers[name];
        spawned := spawned[name := spawned[name][i := spawned[name][i].(cancelled := true)]];
        todo := todo - {name};
      }
    }

    /** Run after its context is done: cancel every worker, and reconcile no more. */
    method End()
      requires Valid()
      modifies `stopped, `spawned
      ensures Valid() && stopped && spawned == CancelAll(workers, old(spawned))
    {
      CancelWorkers();
      stopped := true;
    }

    /** The SIGHUP goroutine's turn: a file that does not load or is not compatible changes
        nothing; otherwise the pointer is swapped and the workers follow. */
    method Hup(next: Option<Settings>) returns (applied: bool)
      requires Valid()
      modifies cfg, `workers, `spawned, registry
      ensures Valid()
      ensures applied <==> next.Some? && RestartFieldsAgree(old(cfg.current), next.value)
      ensures cfg.current == if applied then next.value else old(cfg.current)
      ensures applied && hasContext && !stopped ==> workers.Keys == Names(cfg.current)
      ensures if !applied || stopped || !hasContext
              then workers == old(workers) && spawned == old(spawned)
                   && registry.statuses == old(registry.statuses)
              else Started(old(workers), old(spawned), old(registry.statuses), Names(cfg.current),
                           workers, spawned, registry.statuses)
      ensures old(Disciplined(registry.history)) ==> Disciplined(registry.history)
    {
      if next.None? {
        return false;
      }
      var current := cfg.Load();
      ConflictExactly(current, next.value);
      if ReloadConflict(current, next.value) != None {
        return false;
      }
      cfg.Store(next.value);
      Reconcile();
      applied := true;
    }

    /** One SSH check: a failure changes nothing, an answer goes into the field it is for. */
    method RunOneCheck(name: string, check: string, answer: Option<Readings>)
      requires registry.Valid()
      modifies registry, registry.subs.subs
      ensures registry.Valid()
      ensures registry.statuses == Answer(old(registry.statuses), name, check, answer)
      ensures old(Disciplined(registry.history)) ==> Disciplined(registry.history)
    {
      if answer.None? {
        return;
      }
      var r := answer.value;
      var _, _ := registry.Update(name, s => ApplyReading(s, check, r));
    }

    method RunSshChecks(name: string, todo: seq<string>, ssh: Ssh)
      requires registry.Valid() && Fits(ssh, todo)
      modifies registry, registry.subs.subs
      ensures registry.Valid()
      ensures name !in old(registry.statuses) ==> registry.statuses == old(registry.statuses)
      ensures name in old(registry.statuses) ==>
                registry.statuses
                == old(registry.statuses)[name := AfterSsh(old(registry.statuses)[name], todo, ssh)]
      ensures name in old(registry.statuses) && NoDuplicates(todo) ==>
                var was, now := old(registry.statuses)[name], registry.statuses[name];
                match ssh
                case Refused(err) => now == was.(lastErr := err)
                case Answered(answers) => Figures(todo, answers, was, now)
      ensures old(Disciplined(registry.history)) ==> Disciplined(registry.history)
    {
      if ssh.Refused? {
        var _, _ := registry.Update(name, (s: Status) => s.(lastErr := ssh.err));
        return;
      }
      ghost var before := registry.statuses;
      var answers := ssh.answers;
      for k := 0 to |todo|
        invariant registry.Valid()
        invariant old(Disciplined(registry.history)) ==> Disciplined(registry.history)
        invariant name !in before ==> registry.statuses == before
        invariant name in before ==>
          && name in registry.statuses
          && registry.statuses == before[name := registry.statuses[name]]
          && Queried(before[name], todo, answers)
             == Queried(registry.statuses[name], todo[k..], answers[k..])
      {
        RunOneCheck(name, todo[k], answers[k]);
        assert todo[k..][1..] == todo[k + 1..] && answers[k..][1..] == answers[k + 1..];
      }
      if name in before && NoDuplicates(todo) {
        QueriedFigures(before[name], todo, answers);
      }
    }

    /** Report a change of reachability, if the ping caused one. */
    method ReportChange(name: string, prev: Reachability, now: int)
      requires log.Valid()
      modifies log, log.subs.subs
      ensures log.Valid()
      ensures var cur := if name in registry.statuses then registry.statuses[name] else ZERO_STATUS;
              log.history == Recorded(old(log.history), Change(name, prev, cur), now)
    {
      var cur, _ := registry.Get(name);
      if cur.reachable != prev {
        var e := StateChange(name, prev, cur);
        var _ := log.Append(e, now);
      }
    }

    /** Write the ping result, then report. */
    method CommitPing(name: string, at: Time, ping: Ping, now: int)
      requires registry.Valid() && log.Valid()
      modifies registry, registry.subs.subs, log, log.subs.subs
      ensures registry.Valid() && log.Valid()
      ensures name !in old(registry.statuses) ==>
                registry.statuses == old(registry.statuses) && log.history == old(log.history)
      ensures name in old(registry.statuses) ==>
                var s := old(registry.statuses)[name];
                && registry.statuses == UpdateStatus(old(registry.statuses), name,
                                                     ApplyPing(s, at, ping))
                && log.history == Recorded(old(log.history), Changes(name, s, at, ping), now)
                && PingResult(s, registry.statuses[name], at, ping)
                && Announced(old(log.history), log.history, name, s.reachable,
                             registry.statuses[name].reachable, registry.statuses[name].lastErr,
                             now)
      ensures old(Disciplined(registry.history)) ==> Disciplined(registry.history)
    {
      var prev, _ := registry.Update(name, s => ApplyPing(s, at, ping));
      ReportChange(name, prev, now);
    }

    /** The second half of a pass: the SSH checks that are due, if any. */
    method RunDueChecks(h: Host, tick: nat, ssh: Ssh)
      requires registry.Valid() && Fits(ssh, Schedule.Due(h, tick))
      modifies registry, registry.subs.subs
      ensures registry.Valid()
      ensures h.name !in old(registry.statuses) ==> registry.statuses == old(registry.statuses)
      ensures h.name in old(registry.statuses) ==>
                var was, todo := old(registry.statuses)[h.name], Schedule.Due(h, tick);
                registry.statuses
                == old(registry.statuses)[h.name := if todo == [] then was
                                                    else AfterSsh(was, todo, ssh)]
      ensures old(Disciplined(registry.history)) ==> Disciplined(registry.history)
    {
      var todo := Schedule.DueSshChecks(h, tick);
      if todo == [] {
        return;
      }
      RunSshChecks(h.name, todo, ssh);
    }

    /** One pass, with nobody else writing to this host: ping, report a change, and run the
        due SSH checks if the host answered. */
    method CheckOnce(h: Host, tick: nat, at: Time, ping: Ping, ssh: Ssh, now: int)
      requires registry.Valid() && log.Valid() && Fits(ssh, Schedule.Due(h, tick))
      modifies registry, registry.subs.subs, log, log.subs.subs
      ensures registry.Valid() && log.Valid()
      ensures !("ping" in h.checks && h.checks["ping"].enabled) || h.name !in old(registry.statuses) ==>
                registry.statuses == old(registry.statuses) && log.history == old(log.history)
      ensures "ping" in h.checks && h.checks["ping"].enabled && h.name in old(registry.statuses) ==>
                var s := old(registry.statuses)[h.name];
                && registry.statuses == old(registry.statuses)
                     [h.name := Pass(s, at, ping, Schedule.Due(h, tick), ssh)]
                && log.history == Recorded(old(log.history), Changes(h.name, s, at, ping), now)
                && Outcome(s, registry.statuses[h.name], at, ping, Schedule.Due(h, tick), ssh)
                && Announced(old(log.history), log.history, h.name, s.reachable,
                             registry.statuses[h.name].reachable,
                             if ping.Failed? then ping.err else "", now)
      ensures old(Disciplined(registry.history)) ==> Disciplined(registry.history)
    {
      if !Schedule.Lookup(h, "ping").enabled {
        return;
      }
      if h.name in registry.statuses {
        PassTold(log.history, h, tick, registry.statuses[h.name], at, ping, ssh, now);
      }
      CommitPing(h.name, at, ping, now);
      if ping != Ping.Reachable {
        return;
      }
      RunDueChecks(h, tick, ssh);
    }
  }
}
