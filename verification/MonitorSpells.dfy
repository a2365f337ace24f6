/** How far the histories of MonitorHistory survive a host that is removed and added back, seen
    from the configurations in force along a run: the state changes as long as the host is not
    pinged again after its removal, the readings as long as it is pinged in one spell only, or
    never checked. MonitorReturn shows that they survive no further. */
module MonitorSpells {
  import opened Hosts
  import opened Config
  import opened Monitor
  import opened MonitorHistory
  import Schedule

  /** The host is configured with its ping enabled. */
  predicate Pings(c: Settings, name: string)
  {
    var h := HostByName(c.hosts, name);
    h.Some? && Schedule.Lookup(h.value, "ping").enabled
  }

  function HostIn(c: Settings, name: string): Host
    requires HostByName(c.hosts, name).Some?
  {
    HostByName(c.hosts, name).value
  }

  predicate HasCheck(h: Host)
  {
    exists check :: check in Schedule.SSH_CHECKS && Schedule.Lookup(h, check).enabled
  }

  /** The host is pinged, and some SSH check of it is enabled. */
  predicate Checks(c: Settings, name: string)
  {
    Pings(c, name) && HasCheck(HostIn(c, name))
  }

  /** Along these configurations the host is there, then gone, then back and pinged. */
  ghost predicate ReturnsPinged(cs: seq<Settings>, name: string)
  {
    exists i, j, k :: 0 <= i < j < k < |cs|
      && name in Names(cs[i]) && name !in Names(cs[j]) && Pings(cs[k], name)
  }

  /** The host is pinged, then gone, then pinged again. */
  ghost predicate PingedAgain(cs: seq<Settings>, name: string)
  {
    exists i, j, k :: 0 <= i < j < k < |cs|
      && Pings(cs[i], name) && name !in Names(cs[j]) && Pings(cs[k], name)
  }

  ghost predicate Checked(cs: seq<Settings>, name: string)
  {
    exists k :: 0 <= k < |cs| && Checks(cs[k], name)
  }

  lemma PingedIsThere(c: Settings, name: string)
    requires Pings(c, name)
    ensures name in Names(c)
  {
    FoundExactly(c, name);
  }

  lemma ReturnsPingedAt(cs: seq<Settings>, name: string, a: nat, b: nat, c: nat)
    requires a <= b <= c < |cs|
    requires name in Names(cs[a]) && name !in Names(cs[b]) && Pings(cs[c], name)
    ensures ReturnsPinged(cs, name)
  {
    PingedIsThere(cs[c], name);
  }

  // ---- not pinged after its return -------------------------------------------------

  /** Up to k the host has been there and then gone. */
  ghost predicate Removed(states: seq<State>, name: string, k: nat)
  {
    exists i, j :: 0 <= i < j <= k && j < |states|
      && name in Names(states[i].cfg) && name !in Names(states[j].cfg)
  }

  predicate Unpinged(pc: Pc) { pc.Top? || pc.Waiting? || pc.Exited? }

  /** Only the first worker ever gets to a ping. */
  ghost predicate Calm(pcs: seq<Pc>)
  {
    forall i :: 1 <= i < |pcs| ==> Unpinged(pcs[i])
  }

  lemma PrefixRun(cfg: Settings, syntax: Syntax, steps: seq<Step>, states: seq<State>, k: nat)
    requires IsRun(cfg, syntax, steps, states) && k < |states|
    ensures IsRun(cfg, syntax, steps[..k], states[..k + 1])
  {
  }

  lemma RemovedAt(states: seq<State>, name: string, k: nat, i: nat, j: nat)
    requires i < j <= k < |states|
    requires name in Names(states[i].cfg) && name !in Names(states[j].cfg)
    ensures Removed(states, name, k)
  {
  }

  lemma ReturnsIsRemoved(states: seq<State>, name: string)
    requires states != [] && Returns(Configs(states), name)
    ensures Removed(states, name, |states| - 1)
  {
    var cs := Configs(states);
    var i, j, l :| 0 <= i < j < l < |cs|
      && name in Names(cs[i]) && name !in Names(cs[j]) && name in Names(cs[l]);
    RemovedAt(states, name, |states| - 1, i, j);
  }

  lemma RemovedLater(states: seq<State>, name: string, k: nat)
    requires k < |states| && Removed(states[..k + 1], name, k)
    ensures Removed(states, name, k)
  {
    var part := states[..k + 1];
    var i, j :| 0 <= i < j <= k && j < |part|
      && name in Names(part[i].cfg) && name !in Names(part[j].cfg);
    RemovedAt(states, name, k, i, j);
  }

  lemma OneUntilRemoved(cfg: Settings, syntax: Syntax, steps: seq<Step>, states: seq<State>,
                        name: string, k: nat)
    requires IsRun(cfg, syntax, steps, states) && k < |states| && !Removed(states, name, k)
    ensures |Workers(states[k], name)| <= 1
  {
    PrefixRun(cfg, syntax, steps, states, k);
    if Returns(Configs(states[..k + 1]), name) {
      ReturnsIsRemoved(states[..k + 1], name);
      RemovedLater(states, name, k);
    } else {
      OneSpellOneWorker(cfg, syntax, steps[..k], states[..k + 1], name, k);
    }
  }

  lemma RemovedThenPinged(states: seq<State>, name: string, k: nat)
    requires k < |states| && Removed(states, name, k) && Pings(states[k].cfg, name)
    ensures ReturnsPinged(Configs(states), name)
  {
    var cs := Configs(states);
    var i, j :| 0 <= i < j <= k
      && name in Names(states[i].cfg) && name !in Names(states[j].cfg);
    assert cs[i] == states[i].cfg && cs[j] == states[j].cfg && cs[k] == states[k].cfg;
    ReturnsPingedAt(cs, name, i, j, k);
  }

  lemma ManyUnpinged(cfg: Settings, syntax: Syntax, steps: seq<Step>, states: seq<State>,
                     name: string, k: nat)
    requires IsRun(cfg, syntax, steps, states) && k < |states|
    requires !ReturnsPinged(Configs(states), name)
    ensures |Workers(states[k], name)| > 1 ==> !Pings(states[k].cfg, name)
  {
    if !Removed(states, name, k) {
      OneUntilRemoved(cfg, syntax, steps, states, name, k);
    } else if Pings(states[k].cfg, name) {
      RemovedThenPinged(states, name, k);
    }
  }

  lemma CalmKept(s: State, syntax: Syntax, step: Step, name: string)
    requires Calm(Pcs(s, name)) && OwnEvents(s) && Enabled(s, step)
    requires |Workers(s, name)| > 1 ==> !Pings(s.cfg, name)
    ensures Calm(Pcs(Next(s, syntax, step), name))
  {
    if !step.Work? {
      SystemWork(s, syntax, step, name);
    } else if step.name != name {
      assert OwnReports(Pcs(s, step.name), step.name);
      OtherWork(s, syntax, step.name, step.i, step.act, name);
    } else {
      OwnWork(s, syntax, name, step.i, step.act);
    }
  }

  lemma CalmAfter(s: State, syntax: Syntax, step: Step, t: State, name: string)
    requires Enabled(s, step) && t == Next(s, syntax, step)
    requires Calm(Pcs(s, name)) && OwnEvents(s)
    requires |Workers(s, name)| > 1 ==> !Pings(s.cfg, name)
    ensures Calm(Pcs(t, name)) && OwnEvents(t)
  {
    CalmKept(s, syntax, step, name);
    OwnEventsKept(s, syntax, step);
  }

  lemma {:induction false} RunCalm(cfg: Settings, syntax: Syntax, steps: seq<Step>,
                                   states: seq<State>, name: string, k: nat)
    requires IsRun(cfg, syntax, steps, states) && k < |states|
    requires !ReturnsPinged(Configs(states), name)
    ensures Calm(Pcs(states[k], name)) && OwnEvents(states[k])
  {
    if k > 0 {
      RunCalm(cfg, syntax, steps, states, name, k - 1);
      ManyUnpinged(cfg, syntax, steps, states, name, k - 1);
      CalmAfter(states[k - 1], syntax, steps[k - 1], states[k], name);
    }
  }

  lemma CalmIsApart(pcs: seq<Pc>)
    requires Calm(pcs)
    ensures ReportsApart(pcs) && PassesApart(pcs)
  {
  }

  /** For a host that is not pinged again once it has been removed - it may be there from the
      start or come later, stay, go for good, or come back without its ping - both histories
      hold on every run, shutdown included, with no further condition. */
  lemma UnpingedReturnHistory(cfg: Settings, syntax: Syntax, steps: seq<Step>,
                              states: seq<State>, name: string, k: nat)
    requires IsRun(cfg, syntax, steps, states) && k < |states|
    requires !ReturnsPinged(Configs(states), name)
    ensures IsChain(Changes(states[k].log, name))
    ensures Idle(Pcs(states[k], name)) ==>
              LastTo(Changes(states[k].log, name)) == Reach(states[k], name).ToString()
    ensures Reach(states[k], name) == Down ==> Cleared(states[k].statuses[name])
  {
    forall j | 0 <= j < |states|
      ensures ReportsApart(Pcs(states[j], name)) && PassesApart(Pcs(states[j], name))
    {
      RunCalm(cfg, syntax, steps, states, name, j);
      CalmIsApart(Pcs(states[j], name));
    }
    StateChangesFormChain(cfg, syntax, steps, states, name, k);
    if Reach(states[k], name) == Down {
      DownMeansCleared(cfg, syntax, steps, states, name, k);
    }
  }

  // ---- pinged in one spell only ----------------------------------------------------

  /** A worker that has nothing to say but that it could not ping. */
  predicate Tame(w: Worker)
  {
    match w.pc
    case Pinging(_, _) => w.cancelled
    case Pinged(_, _, _, ping) => ping.Failed?
    case Updated(_, _, ping, _) => ping.Failed?
    case Reporting(_, _, ping, _) => ping.Failed?
    case Dialing(_, _) => false
    case Querying(_, _) => false
    case _ => true
  }

  /** All workers but number x are tame, and x has checks under way only while the host is not
      down. */
  ghost predicate OneSpeaks(ws: seq<Worker>, x: nat, status: Status)
  {
    && (forall i :: 0 <= i < |ws| && i != x ==> Tame(ws[i]))
    && (status.reachable == Down ==> Cleared(status))
    && (x < |ws| && SawUp(ws[x].pc) ==> status.reachable != Down)
  }

  ghost predicate NonePinged(ws: seq<Worker>)
  {
    forall i :: 0 <= i < |ws| ==> Unpinged(ws[i].pc)
  }

  /** x is the worker of the spell under way: the one in the map, there to stay, or the next. */
  ghost predicate OfThisSpell(s: State, name: string, x: nat)
  {
    if name in s.workers
    then s.workers[name] == x && (s.lock.Reconciling? ==> name in s.lock.wanted)
    else x == |Workers(s, name)|
  }

  /** Before the first spell with pings, during it, and after it. */
  datatype Stage = Before | During | Past

  ghost predicate SpellOk(s: State, name: string, x: nat, stage: Stage)
  {
    && OneSpeaks(Workers(s, name), x, StatusOf(s, name))
    && match stage
       case Before => NonePinged(Workers(s, name)) && !Pings(s.cfg, name)
       case During => OfThisSpell(s, name, x) && name in Names(s.cfg)
       case Past => !Pings(s.cfg, name)
  }

  /** The stage after the configuration in force has become `next`. */
  function StageAfter(stage: Stage, next: Settings, name: string): Stage
  {
    match stage
    case Before => if Pings(next, name) then During else Before
    case During => if name in Names(next) then During else Past
    case Past => Past
  }

  function StageAt(states: seq<State>, name: string, k: nat): Stage
    requires k < |states|
  {
    StageAfter(if k == 0 then Before else StageAt(states, name, k - 1), states[k].cfg, name)
  }

  /** During a spell, or after it, somebody who is not its worker does not ping in earnest. */
  lemma OtherStaysTame(s: State, syntax: Syntax, name: string, x: nat, stage: Stage, i: nat, act: Act)
    requires Invariant(s) && SpellOk(s, name, x, stage) && Enabled(s, Work(name, i, act)) && i != x
    ensures Tame(Workers(s, name)[i].(pc := NextPc(s, name, Workers(s, name)[i], act)))
  {
    assert Tame(Workers(s, name)[i]);
  }

  lemma TameStatus(s: State, syntax: Syntax, name: string, i: nat, act: Act)
    requires Enabled(s, Work(name, i, act)) && Tame(Workers(s, name)[i])
    ensures var now := StatusOf(Next(s, syntax, Work(name, i, act)), name);
            now == StatusOf(s, name) || now.reachable != Down
  {
  }

  lemma OtherSpeaks(s: State, syntax: Syntax, name: string, x: nat, stage: Stage, i: nat, act: Act)
    requires Invariant(s) && SpellOk(s, name, x, stage) && Enabled(s, Work(name, i, act)) && i != x
    ensures var t := Next(s, syntax, Work(name, i, act));
            OneSpeaks(Workers(t, name), x, StatusOf(t, name))
  {
    OtherStaysTame(s, syntax, name, x, stage, i, act);
    assert Tame(Workers(s, name)[i]);
    TameStatus(s, syntax, name, i, act);
  }

  /** While a worker has checks under way the host is not down, and down it has no readings. */
  ghost predicate OneAgrees(w: Worker, status: Status)
  {
    && (status.reachable == Down ==> Cleared(status))
    && (SawUp(w.pc) ==> status.reachable != Down)
  }

  lemma OwnAgrees(s: State, syntax: Syntax, name: string, x: nat, act: Act)
    requires Invariant(s) && Enabled(s, Work(name, x, act))
    requires OneAgrees(Workers(s, name)[x], StatusOf(s, name))
    ensures var t := Next(s, syntax, Work(name, x, act));
            x < |Workers(t, name)| && OneAgrees(Workers(t, name)[x], StatusOf(t, name))
  {
    assert Workers(s, name)[x] in Workers(s, name) && name in s.statuses;
  }

  lemma OwnSpeaks(s: State, syntax: Syntax, name: string, x: nat, act: Act)
    requires Invariant(s) && Enabled(s, Work(name, x, act))
    requires OneSpeaks(Workers(s, name), x, StatusOf(s, name))
    ensures var t := Next(s, syntax, Work(name, x, act));
            OneSpeaks(Workers(t, name), x, StatusOf(t, name))
  {
    OwnAgrees(s, syntax, name, x, act);
    var t := Next(s, syntax, Work(name, x, act));
    forall i | 0 <= i < |Workers(t, name)| && i != x ensures Tame(Workers(t, name)[i]) {
      assert Workers(t, name)[i] == Workers(s, name)[i];
    }
  }

  lemma WorkSpell(s: State, syntax: Syntax, name: string, x: nat, stage: Stage, i: nat, act: Act)
    requires Invariant(s) && SpellOk(s, name, x, stage) && Enabled(s, Work(name, i, act))
    ensures SpellOk(Next(s, syntax, Work(name, i, act)), name, x, stage)
  {
    if i == x {
      OwnSpeaks(s, syntax, name, x, act);
    } else {
      OtherSpeaks(s, syntax, name, x, stage, i, act);
    }
  }

  lemma OtherHostSpell(s: State, syntax: Syntax, other: string, i: nat, act: Act, name: string,
                       x: nat, stage: Stage)
    requires SpellOk(s, name, x, stage) && Enabled(s, Work(other, i, act)) && other != name
    ensures SpellOk(Next(s, syntax, Work(other, i, act)), name, x, stage)
  {
    var t := Next(s, syntax, Work(other, i, act));
    assert Workers(t, name) == Workers(s, name) && StatusOf(t, name) == StatusOf(s, name);
  }

  /** The same workers, perhaps cancelled, and perhaps a fresh one behind them. */
  ghost predicate AtMostOneMore(ws: seq<Worker>, later: seq<Worker>)
  {
    && (later == ws || |later| == |ws| || (|later| == |ws| + 1 && later[|ws|] == FRESH))
    && |ws| <= |later|
    && forall i :: 0 <= i < |ws| ==>
         later[i].pc == ws[i].pc && (ws[i].cancelled ==> later[i].cancelled)
  }

  lemma MoreSpeaks(ws: seq<Worker>, later: seq<Worker>, x: nat, status: Status)
    requires OneSpeaks(ws, x, status) && AtMostOneMore(ws, later)
    ensures OneSpeaks(later, x, status)
    ensures NonePinged(ws) ==> NonePinged(later)
  {
    forall i | 0 <= i < |later| && i != x ensures Tame(later[i]) {
      if i < |ws| {
        assert Tame(ws[i]);
      }
    }
  }

  lemma ReconcileMore(s: State, wanted: set<string>, name: string)
    ensures AtMostOneMore(Workers(s, name), Workers(Reconcile(s, wanted), name))
    ensures StatusOf(Reconcile(s, wanted), name) == StatusOf(s, name)
  {
  }

  lemma ReconcileThisSpell(s: State, wanted: set<string>, name: string, x: nat)
    requires Invariant(s) && OfThisSpell(s, name, x)
    requires name in s.workers ==> name in wanted
    ensures var t := Reconcile(s, wanted).(lock := Free);
            OfThisSpell(t, name, x)
  {
  }

  lemma ApplySpeaks(s: State, syntax: Syntax, step: Step, name: string, x: nat)
    requires OneSpeaks(Workers(s, name), x, StatusOf(s, name)) && Enabled(s, step)
    requires step.RunApply? || step.HupApply?
    ensures var t := Next(s, syntax, step);
            && OneSpeaks(Workers(t, name), x, StatusOf(t, name))
            && (NonePinged(Workers(s, name)) ==> NonePinged(Workers(t, name)))
  {
    var t, r := Next(s, syntax, step), Reconcile(s, s.lock.wanted);
    assert t.spawned == r.spawned && t.statuses == r.statuses;
    ReconcileMore(s, s.lock.wanted, name);
    MoreSpeaks(Workers(s, name), Workers(r, name), x, StatusOf(s, name));
  }

  lemma ApplyThisSpell(s: State, syntax: Syntax, step: Step, name: string, x: nat)
    requires Invariant(s) && OfThisSpell(s, name, x) && Enabled(s, step)
    requires step.RunApply? || step.HupApply?
    ensures OfThisSpell(Next(s, syntax, step), name, x)
  {
    ReconcileThisSpell(s, s.lock.wanted, name, x);
  }

  lemma ApplySpell(s: State, syntax: Syntax, step: Step, name: string, x: nat, stage: Stage)
    requires Invariant(s) && SpellOk(s, name, x, stage) && Enabled(s, step)
    requires step.RunApply? || step.HupApply?
    ensures SpellOk(Next(s, syntax, step), name, x, stage)
  {
    ApplySpeaks(s, syntax, step, name, x);
    if stage == During {
      ApplyThisSpell(s, syntax, step, name, x);
    }
    assert Next(s, syntax, step).cfg == s.cfg;
  }

  lemma StopSpell(s: State, syntax: Syntax, name: string, x: nat, stage: Stage)
    requires SpellOk(s, name, x, stage) && Enabled(s, Stop)
    ensures SpellOk(Next(s, syntax, Stop), name, x, stage)
  {
    var t := Next(s, syntax, Stop);
    assert AtMostOneMore(Workers(s, name), Workers(t, name));
    MoreSpeaks(Workers(s, name), Workers(t, name), x, StatusOf(s, name));
  }

  lemma SpellBegins(s: State, name: string, x: nat, x': nat)
    requires Invariant(s) && SpellOk(s, name, x, Before) && s.hup == Quiet
    requires x' == if name in s.workers then s.workers[name] else |Workers(s, name)|
    ensures OneSpeaks(Workers(s, name), x', StatusOf(s, name)) && OfThisSpell(s, name, x')
  {
    forall i | 0 <= i < |Workers(s, name)| ensures Tame(Workers(s, name)[i]) {
      assert Unpinged(Workers(s, name)[i].pc);
    }
  }

  /** A new configuration: a spell may begin, with the worker that is in the map or the next. */
  lemma LoadSpell(s: State, syntax: Syntax, next: Settings, name: string, x: nat, stage: Stage)
      returns (x': nat)
    requires Invariant(s) && SpellOk(s, name, x, stage) && Enabled(s, HupLoad(next))
    requires var t := Next(s, syntax, HupLoad(next));
             stage == Past || StageAfter(stage, t.cfg, name) == Past ==> !Pings(t.cfg, name)
    ensures var t := Next(s, syntax, HupLoad(next));
            SpellOk(t, name, x', StageAfter(stage, t.cfg, name))
  {
    var t := Next(s, syntax, HupLoad(next));
    assert Workers(t, name) == Workers(s, name) && StatusOf(t, name) == StatusOf(s, name);
    if stage == Before && Pings(t.cfg, name) {
      x' := if name in s.workers then s.workers[name] else |Workers(s, name)|;
      SpellBegins(s, name, x, x');
      PingedIsThere(t.cfg, name);
    } else {
      x' := x;
    }
  }

  /** The steps that touch neither workers nor configuration. */
  lemma QuietSpell(s: State, syntax: Syntax, step: Step, name: string, x: nat, stage: Stage)
    requires SpellOk(s, name, x, stage) && Enabled(s, step)
    requires step.SetContext? || step.RunRead? || step.Cancel? || step.HupRead? || step.HupSkip?
             || step.Record?
    ensures SpellOk(Next(s, syntax, step), name, x, stage)
  {
    var t := Next(s, syntax, step);
    assert Workers(t, name) == Workers(s, name) && StatusOf(t, name) == StatusOf(s, name);
  }

  lemma SameStage(s: State, name: string, x: nat, stage: Stage)
    requires SpellOk(s, name, x, stage)
    ensures StageAfter(stage, s.cfg, name) == stage
  {
  }

  lemma StepSpell(s: State, syntax: Syntax, step: Step, name: string, x: nat, stage: Stage)
      returns (x': nat)
    requires Invariant(s) && SpellOk(s, name, x, stage) && Enabled(s, step)
    requires var c := Next(s, syntax, step).cfg;
             StageAfter(stage, c, name) == Past ==> !Pings(c, name)
    ensures var t := Next(s, syntax, step);
            SpellOk(t, name, x', StageAfter(stage, t.cfg, name))
  {
    SameStage(s, name, x, stage);
    x' := x;
    match step
    case Work(other, i, act) =>
      if other == name {
        WorkSpell(s, syntax, name, x, stage, i, act);
      } else {
        OtherHostSpell(s, syntax, other, i, act, name, x, stage);
      }
    case RunApply => ApplySpell(s, syntax, step, name, x, stage);
    case HupApply => ApplySpell(s, syntax, step, name, x, stage);
    case Stop => StopSpell(s, syntax, name, x, stage);
    case HupLoad(next) => x' := LoadSpell(s, syntax, next, name, x, stage);
    case _ => QuietSpell(s, syntax, step, name, x, stage);
  }

  /** What the stages say about the configurations so far. */
  lemma {:induction false} StageMeans(states: seq<State>, name: string, k: nat)
    requires k < |states|
    ensures StageAt(states, name, k) == During ==>
              exists p :: 0 <= p <= k && Pings(states[p].cfg, name)
    ensures StageAt(states, name, k) == Past ==>
              exists p, j :: 0 <= p < j <= k && Pings(states[p].cfg, name)
                             && name !in Names(states[j].cfg)
  {
    if k > 0 {
      StageMeans(states, name, k - 1);
    }
  }

  lemma PastIsUnpinged(states: seq<State>, name: string, k: nat)
    requires k < |states| && StageAt(states, name, k) == Past
    requires !PingedAgain(Configs(states), name)
    ensures !Pings(states[k].cfg, name)
  {
    StageMeans(states, name, k);
    var cs := Configs(states);
    var p, j :| 0 <= p < j <= k && Pings(states[p].cfg, name) && name !in Names(states[j].cfg);
    assert Pings(cs[p], name) && name !in Names(cs[j]);
    if j == k {
      FoundExactly(states[k].cfg, name);
    }
  }

  lemma BootSpell(cfg: Settings, name: string)
    ensures SpellOk(Boot(cfg), name, 0, StageAfter(Before, cfg, name))
  {
    FoundExactly(cfg, name);
  }

  lemma NextSpell(cfg: Settings, syntax: Syntax, steps: seq<Step>, states: seq<State>,
                  name: string, last: nat, k: nat, before: nat) returns (x: nat)
    requires IsRun(cfg, syntax, steps, states) && k == last + 1 < |states|
    requires !PingedAgain(Configs(states), name)
    requires SpellOk(states[last], name, before, StageAt(states, name, last))
    ensures SpellOk(states[k], name, x, StageAt(states, name, k))
  {
    if StageAt(states, name, k) == Past {
      PastIsUnpinged(states, name, k);
    }
    RunKeeps(cfg, syntax, steps, states, last);
    x := StepSpell(states[last], syntax, steps[last], name, before, StageAt(states, name, last));
  }

  lemma {:induction false} RunSpell(cfg: Settings, syntax: Syntax, steps: seq<Step>,
                                    states: seq<State>, name: string, k: nat) returns (x: nat)
    requires IsRun(cfg, syntax, steps, states) && k < |states|
    requires !PingedAgain(Configs(states), name)
    ensures SpellOk(states[k], name, x, StageAt(states, name, k))
  {
    if k > 0 {
      var last := k - 1;
      var before := RunSpell(cfg, syntax, steps, states, name, last);
      x := NextSpell(cfg, syntax, steps, states, name, last, k, before);
    } else {
      x := 0;
      BootSpell(cfg, name);
    }
  }

  /** For a host that is pinged in one spell only, shown down means cleared on every run. */
  lemma OneSpellCleared(cfg: Settings, syntax: Syntax, steps: seq<Step>, states: seq<State>,
                        name: string, k: nat)
    requires IsRun(cfg, syntax, steps, states) && k < |states|
    requires !PingedAgain(Configs(states), name)
    ensures Reach(states[k], name) == Down ==> Cleared(states[k].statuses[name])
  {
    var _ := RunSpell(cfg, syntax, steps, states, name, k);
  }

  // ---- never checked ---------------------------------------------------------------

  /** The pass of a host that no check is enabled for. */
  predicate Checkless(pc: Pc)
  {
    match pc
    case Pinging(_, h) => !HasCheck(h)
    case Pinged(_, h, _, _) => !HasCheck(h)
    case Updated(_, h, _, _) => !HasCheck(h)
    case Reporting(_, h, _, _) => !HasCheck(h)
    case Dialing(_, _) => false
    case Querying(_, _) => false
    case _ => true
  }

  ghost predicate NeverRead(pcs: seq<Pc>, status: Status)
  {
    Cleared(status) && forall i :: 0 <= i < |pcs| ==> Checkless(pcs[i])
  }

  lemma NothingDue(h: Host, tick: nat)
    requires !HasCheck(h)
    ensures Schedule.Due(h, tick) == []
  {
    var due := Schedule.Due(h, tick);
    if due != [] {
      Schedule.DueMembers(h, tick, due[0]);
    }
  }

  lemma ChecklessNext(s: State, name: string, w: Worker, act: Act)
    requires CanAct(s, name, w, act) && Checkless(w.pc) && !Checks(s.cfg, name)
    ensures Checkless(NextPc(s, name, w, act))
  {
    if w.pc.Updated? || w.pc.Reporting? {
      NothingDue(w.pc.host, w.pc.tick);
    }
  }

  lemma ChecklessStatus(s: State, name: string, w: Worker, act: Act)
    requires CanAct(s, name, w, act) && Checkless(w.pc)
    requires name in s.statuses && Cleared(s.statuses[name])
    ensures name in NextStatuses(s, name, w, act) && Cleared(NextStatuses(s, name, w, act)[name])
  {
  }

  lemma OwnNeverRead(s: State, syntax: Syntax, name: string, i: nat, act: Act)
    requires NeverRead(Pcs(s, name), StatusOf(s, name)) && Enabled(s, Work(name, i, act))
    requires !Checks(s.cfg, name)
    ensures var t := Next(s, syntax, Work(name, i, act));
            NeverRead(Pcs(t, name), StatusOf(t, name))
  {
    OwnWork(s, syntax, name, i, act);
    var w := Workers(s, name)[i];
    assert Checkless(Pcs(s, name)[i]);
    ChecklessNext(s, name, w, act);
    if name in s.statuses {
      ChecklessStatus(s, name, w, act);
    }
  }

  lemma {:induction false} RunNeverRead(cfg: Settings, syntax: Syntax, steps: seq<Step>,
                                        states: seq<State>, name: string, k: nat)
    requires IsRun(cfg, syntax, steps, states) && k < |states|
    requires !Checked(Configs(states), name)
    ensures NeverRead(Pcs(states[k], name), StatusOf(states[k], name)) && OwnEvents(states[k])
  {
    if k > 0 {
      RunNeverRead(cfg, syntax, steps, states, name, k - 1);
      var s, step := states[k - 1], steps[k - 1];
      assert !Checks(Configs(states)[k - 1], name);
      OwnEventsKept(s, syntax, step);
      if !step.Work? {
        SystemWork(s, syntax, step, name);
      } else if step.name != name {
        assert OwnReports(Pcs(s, step.name), step.name);
        OtherWork(s, syntax, step.name, step.i, step.act, name);
      } else {
        OwnNeverRead(s, syntax, name, step.i, step.act);
      }
    }
  }
}
