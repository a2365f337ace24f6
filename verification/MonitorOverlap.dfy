/** Removing a host and adding it back while its old worker is in the middle of a pass. The old
    worker is cancelled but not waited for, so its remaining writes interleave with the new
    worker's, and both histories of MonitorHistory can fail. What one host's workers and the
    reloads can do is worked out on a view of that host alone, and then lifted to runs of the
    whole system. */
module MonitorOverlap {
  import opened Text
  import opened Hosts
  import opened Config
  import opened Events
  import opened Monitor
  import opened MonitorHistory
  import opened MonitorSpells
  import Schedule

  // ---- what one host sees of a run -------------------------------------------------

  function Loaded(step: Step): seq<Settings>
  {
    if step.HupLoad? then [step.next] else []
  }

  /** The configurations that SIGHUPs have loaded, in order. */
  function Loads(steps: seq<Step>): seq<Settings>
  {
    if steps == [] then []
    else Loads(steps[..|steps| - 1]) + Loaded(steps[|steps| - 1])
  }

  /** Some run from cfg through these loads ends in s. */
  ghost predicate Reached(cfg: Settings, syntax: Syntax, loads: seq<Settings>, s: State)
  {
    exists steps, states ::
      IsRun(cfg, syntax, steps, states) && states[|states| - 1] == s && Loads(steps) == loads
  }

  lemma Extend(cfg: Settings, syntax: Syntax, loads: seq<Settings>, s: State, step: Step)
    requires Reached(cfg, syntax, loads, s) && Enabled(s, step)
    ensures Reached(cfg, syntax, loads + Loaded(step), Next(s, syntax, step))
  {
    var steps, states :|
      IsRun(cfg, syntax, steps, states) && states[|states| - 1] == s && Loads(steps) == loads;
    var t := Next(s, syntax, step);
    assert IsRun(cfg, syntax, steps + [step], states + [t]);
    assert (states + [t])[|states + [t]| - 1] == t;
    assert (steps + [step])[..|steps|] == steps;
  }

  lemma ExtendOn(cfg: Settings, syntax: Syntax, loads: seq<Settings>, s: State, step: Step)
    requires Reached(cfg, syntax, loads, s) && Enabled(s, step) && !step.HupLoad?
    ensures Reached(cfg, syntax, loads, Next(s, syntax, step))
  {
    Extend(cfg, syntax, loads, s, step);
    assert loads + [] == loads;
  }

  lemma ReachedInvariant(cfg: Settings, syntax: Syntax, loads: seq<Settings>, s: State)
    requires Reached(cfg, syntax, loads, s)
    ensures Invariant(s)
  {
    var steps, states :|
      IsRun(cfg, syntax, steps, states) && states[|states| - 1] == s && Loads(steps) == loads;
    RunKeeps(cfg, syntax, steps, states, |states| - 1);
  }

  /** From and To of each event. */
  function Hops(es: seq<Event>): (hops: seq<(string, string)>)
    ensures |hops| == |es| && forall i :: 0 <= i < |es| ==> hops[i] == (es[i].from, es[i].to)
  {
    seq(|es|, i requires 0 <= i < |es| => (es[i].from, es[i].to))
  }

  function LastHop(hops: seq<(string, string)>): string
  {
    if hops == [] then "unknown" else hops[|hops| - 1].1
  }

  lemma BrokenHop(es: seq<Event>, hops: seq<(string, string)>, hop: (string, string))
    requires Hops(es) == hops + [hop] && hop.0 != LastHop(hops)
    ensures !IsChain(es)
  {
    var n := |hops|;
    assert Hops(es)[n] == hop;
    if n > 0 {
      assert Hops(es)[n - 1] == hops[n - 1] && es[..n][n - 1] == es[n - 1];
    }
    assert es[n].from != LastTo(es[..n]);
  }

  /** One host in a running system without a reload under way. */
  datatype View = View(cfg: Settings, ws: seq<Worker>, status: Status, hops: seq<(string, string)>)

  ghost predicate Shows(s: State, name: string, v: View)
  {
    && s.run == Running && s.hup == Quiet && s.lock == Free && !s.done
    && s.cfg == v.cfg && Workers(s, name) == v.ws && StatusOf(s, name) == v.status
    && Hops(Changes(s.log, name)) == v.hops
  }

  ghost predicate Seen(cfg: Settings, syntax: Syntax, loads: seq<Settings>, name: string, v: View)
  {
    exists s :: Reached(cfg, syntax, loads, s) && Shows(s, name, v)
  }

  // ---- how it changes --------------------------------------------------------------

  function AtBoot(cfg: Settings, name: string): View
  {
    View(cfg, if name in Names(cfg) then [FRESH] else [], NewStatus(name), [])
  }

  lemma Booted(cfg: Settings, syntax: Syntax, name: string)
    requires WellFormed(cfg, syntax)
    ensures Seen(cfg, syntax, [], name, AtBoot(cfg, name))
  {
    var s0 := Boot(cfg);
    assert IsRun(cfg, syntax, [], [s0]) && [s0][0] == s0;
    ExtendOn(cfg, syntax, [], s0, SetContext);
    var s1 := s0.(run := ContextSet);
    ExtendOn(cfg, syntax, [], s1, RunRead);
    var s2 := s1.(lock := Reconciling(true, Names(cfg)));
    ExtendOn(cfg, syntax, [], s2, RunApply);
    var s3 := Reconcile(s2, Names(cfg)).(lock := Free, run := Running);
    assert Shows(s3, name, AtBoot(cfg, name));
  }

  /** One SIGHUP: a departing host's newest worker is cancelled wherever it stands, an arriving
      host gets a fresh one. */
  function AfterReload(v: View, name: string, next: Settings): View
  {
    var was, will := name in Names(v.cfg), name in Names(next);
    v.(cfg := next,
       ws := if was && !will && v.ws != [] then CancelDeparted(v.ws, |v.ws| - 1, true)
             else if !was && will then v.ws + [FRESH]
             else v.ws)
  }

  lemma ReconcileOne(s: State, wanted: set<string>, name: string)
    requires Invariant(s) && s.run == Running && s.hup == Quiet
    ensures var was, will, ws := name in Names(s.cfg), name in wanted, Workers(s, name);
            Workers(Reconcile(s, wanted), name)
            == if was && !will && ws != [] then CancelDeparted(ws, |ws| - 1, true)
               else if !was && will then ws + [FRESH]
               else ws
  {
  }

  lemma ReconcileShows(s: State, name: string, v: View, next: Settings)
    requires Invariant(s) && Shows(s, name, v)
    ensures Shows(Reconcile(s.(cfg := next), Names(next)), name, AfterReload(v, name, next))
  {
    ReconcileOne(s, Names(next), name);
    ReconcileWork(s, Names(next), name);
    var t := Reconcile(s.(cfg := next), Names(next));
    assert t == Reconcile(s, Names(next)).(cfg := next);
    assert Workers(t, name) == Workers(Reconcile(s, Names(next)), name);
    assert StatusOf(t, name) == StatusOf(Reconcile(s, Names(next)), name);
  }

  lemma ReachedReload(cfg: Settings, syntax: Syntax, loads: seq<Settings>, s: State, next: Settings)
    requires Reached(cfg, syntax, loads, s)
    requires s.run == Running && s.hup == Quiet && s.lock == Free
    requires WellFormed(next, syntax) && ReloadConflict(s.cfg, next) == None
    ensures Reached(cfg, syntax, loads + [next], Reconcile(s.(cfg := next), Names(next)))
  {
    Extend(cfg, syntax, loads, s, HupLoad(next));
    var s1 := s.(cfg := next, hup := Stored);
    ExtendOn(cfg, syntax, loads + [next], s1, HupRead);
    var s2 := s1.(lock := Reconciling(false, Names(next)));
    ExtendOn(cfg, syntax, loads + [next], s2, HupApply);
    assert Next(s2, syntax, HupApply) == Reconcile(s.(cfg := next), Names(next));
  }

  lemma Reloaded(cfg: Settings, syntax: Syntax, loads: seq<Settings>, name: string, v: View,
                 next: Settings)
    requires Seen(cfg, syntax, loads, name, v)
    requires WellFormed(next, syntax) && ReloadConflict(v.cfg, next) == None
    ensures Seen(cfg, syntax, loads + [next], name, AfterReload(v, name, next))
  {
    var s :| Reached(cfg, syntax, loads, s) && Shows(s, name, v);
    ReachedInvariant(cfg, syntax, loads, s);
    ReachedReload(cfg, syntax, loads, s, next);
    ReconcileShows(s, name, v, next);
  }

  /** A system of this one host. */
  function Solo(v: View, name: string): State
  {
    State(v.cfg, Running, Quiet, Free, false, map[], map[name := v.ws], map[name := v.status], [])
  }

  predicate ViewCan(v: View, name: string, i: nat, act: Act)
  {
    && i < |v.ws| && act != ObserveDone && CanAct(Solo(v, name), name, v.ws[i], act)
    && (act == Report ==> IsChangeOf(v.ws[i].pc.event, name))
  }

  /** What worker i of the host does next. */
  function ViewNext(v: View, name: string, i: nat, act: Act): View
    requires ViewCan(v, name, i, act)
  {
    var w := v.ws[i];
    var e := if act == Report then [(w.pc.event.from, w.pc.event.to)] else [];
    View(v.cfg, v.ws[i := w.(pc := NextPc(Solo(v, name), name, w, act))],
         NextStatuses(Solo(v, name), name, w, act)[name], v.hops + e)
  }

  lemma HopsAppend(log: seq<Event>, e: Event, name: string)
    requires IsChangeOf(e, name)
    ensures Hops(Changes(log + [e], name)) == Hops(Changes(log, name)) + [(e.from, e.to)]
  {
    ChangesAppend(log, e, name);
  }

  lemma WorkShows(s: State, syntax: Syntax, name: string, v: View, i: nat, act: Act)
    requires Invariant(s) && Shows(s, name, v) && ViewCan(v, name, i, act)
    ensures Enabled(s, Work(name, i, act))
    ensures Shows(Next(s, syntax, Work(name, i, act)), name, ViewNext(v, name, i, act))
  {
    var t := Next(s, syntax, Work(name, i, act));
    if act == Report {
      HopsAppend(s.log, v.ws[i].pc.event.(id := |s.log| + 1), name);
    } else {
      assert t.log == s.log && v.hops + [] == v.hops;
    }
    assert Hops(Changes(t.log, name)) == ViewNext(v, name, i, act).hops;
  }

  lemma Worked(cfg: Settings, syntax: Syntax, loads: seq<Settings>, name: string, v: View, i: nat,
               act: Act)
    requires Seen(cfg, syntax, loads, name, v) && ViewCan(v, name, i, act)
    ensures Seen(cfg, syntax, loads, name, ViewNext(v, name, i, act))
  {
    var s :| Reached(cfg, syntax, loads, s) && Shows(s, name, v);
    ReachedInvariant(cfg, syntax, loads, s);
    WorkShows(s, syntax, name, v, i, act);
    ExtendOn(cfg, syntax, loads, s, Work(name, i, act));
  }

  // ---- several turns ---------------------------------------------------------------

  /** Something that happens to the host: worker i acts, or a SIGHUP is served. */
  datatype Turn = Does(i: nat, act: Act) | Gets(next: Settings)

  predicate CanTurn(v: View, name: string, turn: Turn)
  {
    turn.Does? ==> ViewCan(v, name, turn.i, turn.act)
  }

  function After(v: View, name: string, turn: Turn): View
    requires CanTurn(v, name, turn)
  {
    match turn
    case Does(i, act) => ViewNext(v, name, i, act)
    case Gets(next) => AfterReload(v, name, next)
  }

  ghost predicate Leads(name: string, v: View, turns: seq<Turn>, w: View)
    decreases |turns|
  {
    if turns == [] then v == w
    else CanTurn(v, name, turns[0]) && Leads(name, After(v, name, turns[0]), turns[1..], w)
  }

  lemma {:induction false} LeadsThen(name: string, u: View, turns: seq<Turn>, v: View,
                                     more: seq<Turn>, w: View)
    requires Leads(name, u, turns, v) && Leads(name, v, more, w)
    ensures Leads(name, u, turns + more, w)
    decreases |turns|
  {
    if turns == [] {
      assert turns + more == more;
    } else {
      assert (turns + more)[1..] == turns[1..] + more;
      LeadsThen(name, After(u, name, turns[0]), turns[1..], v, more, w);
    }
  }

  lemma LeadsOnce(name: string, v: View, turn: Turn)
    requires CanTurn(v, name, turn)
    ensures Leads(name, v, [turn], After(v, name, turn))
  {
    assert [turn][1..] == [];
  }

  /** The configurations a turn loads. */
  function LoadOf(turn: Turn): seq<Settings> { if turn.Gets? then [turn.next] else [] }

  function LoadsOf(turns: seq<Turn>): seq<Settings>
  {
    if turns == [] then []
    else LoadOf(turns[0]) + LoadsOf(turns[1..])
  }

  lemma Associate(a: seq<Settings>, b: seq<Settings>, c: seq<Settings>)
    ensures a + b + c == a + (b + c)
  {
  }

  lemma LoadsOfFirst(turn: Turn, rest: seq<Turn>)
    ensures LoadsOf([turn] + rest) == LoadOf(turn) + LoadsOf(rest)
  {
    assert ([turn] + rest)[1..] == rest;
  }

  lemma {:induction false} LoadsOfConcat(a: seq<Turn>, b: seq<Turn>)
    ensures LoadsOf(a + b) == LoadsOf(a) + LoadsOf(b)
    decreases |a|
  {
    if a == [] {
      assert a + b == b;
    } else {
      LoadsOfConcat(a[1..], b);
      LoadsOfFirst(a[0], a[1..] + b);
      Associate(LoadOf(a[0]), LoadsOf(a[1..]), LoadsOf(b));
      assert a + b == [a[0]] + (a[1..] + b);
    }
  }

  /** Acceptable configurations, each of which may follow the one before it. */
  ghost predicate Usable(cs: seq<Settings>, syntax: Syntax)
  {
    && (forall k :: 0 <= k < |cs| ==> WellFormed(cs[k], syntax))
    && (forall k :: 0 < k < |cs| ==> ReloadConflict(cs[k - 1], cs[k]) == None)
  }

  lemma UsableTail(first: Settings, next: Settings, rest: seq<Settings>, syntax: Syntax)
    requires Usable([first] + ([next] + rest), syntax)
    ensures WellFormed(next, syntax) && ReloadConflict(first, next) == None
    ensures Usable([next] + rest, syntax)
  {
    var cs, tail := [first] + ([next] + rest), [next] + rest;
    assert cs[0] == first && cs[1] == next;
    forall k | 0 <= k < |tail| ensures tail[k] == cs[k + 1] {}
  }

  lemma SeenTurn(cfg: Settings, syntax: Syntax, loads: seq<Settings>, name: string, v: View,
                 turn: Turn)
    requires Seen(cfg, syntax, loads, name, v) && CanTurn(v, name, turn)
    requires turn.Gets? ==>
               WellFormed(turn.next, syntax) && ReloadConflict(v.cfg, turn.next) == None
    ensures Seen(cfg, syntax, loads + LoadOf(turn), name, After(v, name, turn))
  {
    match turn
    case Does(i, act) =>
      Worked(cfg, syntax, loads, name, v, i, act);
      assert loads + [] == loads;
    case Gets(next) => Reloaded(cfg, syntax, loads, name, v, next);
  }

  /** What is acceptable after v is acceptable for its next turn and after that. */
  lemma UsableTurn(v: View, name: string, turn: Turn, rest: seq<Settings>, syntax: Syntax)
    requires CanTurn(v, name, turn) && Usable([v.cfg] + (LoadOf(turn) + rest), syntax)
    ensures turn.Gets? ==>
              WellFormed(turn.next, syntax) && ReloadConflict(v.cfg, turn.next) == None
    ensures Usable([After(v, name, turn).cfg] + rest, syntax)
  {
    if turn.Gets? {
      UsableTail(v.cfg, turn.next, rest, syntax);
    } else {
      assert [] + rest == rest;
    }
  }

  lemma LoadsAfter(loads: seq<Settings>, turns: seq<Turn>)
    requires turns != []
    ensures loads + LoadsOf(turns) == (loads + LoadOf(turns[0])) + LoadsOf(turns[1..])
  {
  }

  /** The whole system can follow; `total` are the configurations loaded by then. */
  lemma {:induction false} SeenLeads(cfg: Settings, syntax: Syntax, loads: seq<Settings>,
                                     name: string, v: View, turns: seq<Turn>, w: View,
                                     total: seq<Settings>)
    requires Seen(cfg, syntax, loads, name, v) && Leads(name, v, turns, w)
    requires Usable([v.cfg] + LoadsOf(turns), syntax) && total == loads + LoadsOf(turns)
    ensures Seen(cfg, syntax, total, name, w)
    decreases |turns|
  {
    if turns == [] {
      assert loads + [] == loads;
    } else {
      UsableTurn(v, name, turns[0], LoadsOf(turns[1..]), syntax);
      LoadsAfter(loads, turns);
      SeenTurn(cfg, syntax, loads, name, v, turns[0]);
      SeenLeads(cfg, syntax, loads + LoadOf(turns[0]), name, After(v, name, turns[0]), turns[1..],
                w, total);
    }
  }

  lemma {:induction false} NoLoads(turns: seq<Turn>)
    requires forall k :: 0 <= k < |turns| ==> turns[k].Does?
    ensures LoadsOf(turns) == []
  {
    if turns != [] {
      NoLoads(turns[1..]);
    }
  }

  // ---- one worker's turns ----------------------------------------------------------

  /** v, with worker i at pc. */
  function Put(v: View, i: nat, pc: Pc): View
    requires i < |v.ws|
  {
    v.(ws := v.ws[i := v.ws[i].(pc := pc)])
  }

  lemma PutTwice(v: View, i: nat, pc: Pc, pc': Pc)
    requires i < |v.ws|
    ensures Put(Put(v, i, pc), i, pc') == Put(v, i, pc')
  {
    assert v.ws[i := v.ws[i].(pc := pc)][i := v.ws[i].(pc := pc')] == v.ws[i := v.ws[i].(pc := pc')];
  }

  /** The context of a cancelled worker lets no ping through. */
  predicate MayFind(v: View, i: nat, ping: Ping)
    requires i < |v.ws|
  {
    v.ws[i].cancelled ==> ping.Failed?
  }

  function AfterCommit(v: View, name: string, i: nat, ping: Ping): View
    requires i < |v.ws| && v.ws[i].pc.Top? && Pings(v.cfg, name)
  {
    Put(v, i, Pc.Updated(v.ws[i].pc.tick, HostIn(v.cfg, name), ping, v.status.reachable))
      .(status := Stamp(v.status, ApplyPing(v.status, 0, ping)))
  }

  function CommitTurns(i: nat, ping: Ping): seq<Turn>
  {
    [Does(i, Load)] + ([Does(i, PingDone(0, ping))] + [Does(i, Commit)])
  }

  lemma LoadTurn(v: View, name: string, i: nat)
    requires i < |v.ws| && v.ws[i].pc.Top? && Pings(v.cfg, name)
    ensures Leads(name, v, [Does(i, Load)],
                  Put(v, i, Pinging(v.ws[i].pc.tick, HostIn(v.cfg, name))))
  {
    LeadsOnce(name, v, Does(i, Load));
  }

  lemma PingTurn(v: View, name: string, i: nat, tick: nat, h: Host, ping: Ping)
    requires i < |v.ws| && v.ws[i].pc == Pinging(tick, h) && MayFind(v, i, ping)
    ensures Leads(name, v, [Does(i, PingDone(0, ping))], Put(v, i, Pinged(tick, h, 0, ping)))
  {
    LeadsOnce(name, v, Does(i, PingDone(0, ping)));
  }

  lemma CommitTurn(v: View, name: string, i: nat, tick: nat, h: Host, ping: Ping)
    requires i < |v.ws| && v.ws[i].pc == Pinged(tick, h, 0, ping)
    ensures Leads(name, v, [Does(i, Commit)],
                  Put(v, i, Pc.Updated(tick, h, ping, v.status.reachable))
                    .(status := Stamp(v.status, ApplyPing(v.status, 0, ping))))
  {
    LeadsOnce(name, v, Does(i, Commit));
  }

  /** From the top of a tick to having written a ping result. */
  lemma Commits(v: View, name: string, i: nat, ping: Ping)
    requires i < |v.ws| && v.ws[i].pc.Top? && Pings(v.cfg, name) && MayFind(v, i, ping)
    ensures Leads(name, v, CommitTurns(i, ping), AfterCommit(v, name, i, ping))
    ensures LoadsOf(CommitTurns(i, ping)) == []
  {
    var tick, h := v.ws[i].pc.tick, HostIn(v.cfg, name);
    var v1, v2 := Put(v, i, Pinging(tick, h)), Put(v, i, Pinged(tick, h, 0, ping));
    LoadTurn(v, name, i);
    PingTurn(v1, name, i, tick, h, ping);
    PutTwice(v, i, Pinging(tick, h), Pinged(tick, h, 0, ping));
    CommitTurn(v2, name, i, tick, h, ping);
    PutTwice(v, i, Pinged(tick, h, 0, ping), Pc.Updated(tick, h, ping, v.status.reachable));
    var w := AfterCommit(v, name, i, ping);
    LeadsThen(name, v1, [Does(i, PingDone(0, ping))], v2, [Does(i, Commit)], w);
    LeadsThen(name, v, [Does(i, Load)], v1, [Does(i, PingDone(0, ping))] + [Does(i, Commit)], w);
    NoLoads(CommitTurns(i, ping));
  }

  function AfterObserve(v: View, i: nat): View
    requires i < |v.ws| && v.ws[i].pc.Updated?
  {
    var pc := v.ws[i].pc;
    Put(v, i, AfterPing(pc.tick, pc.host, pc.ping))
      .(hops := if v.status.reachable == pc.prev then v.hops
                else v.hops + [(pc.prev.ToString(), v.status.reachable.ToString())])
  }

  function ObserveTurns(v: View, i: nat): seq<Turn>
    requires i < |v.ws| && v.ws[i].pc.Updated?
  {
    [Does(i, Observe)] + if v.status.reachable == v.ws[i].pc.prev then [] else [Does(i, Report)]
  }

  lemma ReportTurn(v: View, name: string, i: nat, tick: nat, h: Host, ping: Ping, e: Event)
    requires i < |v.ws| && v.ws[i].pc == Reporting(tick, h, ping, e) && IsChangeOf(e, name)
    ensures Leads(name, v, [Does(i, Report)],
                  Put(v, i, AfterPing(tick, h, ping)).(hops := v.hops + [(e.from, e.to)]))
  {
    LeadsOnce(name, v, Does(i, Report));
  }

  lemma ObserveTurn(v: View, name: string, i: nat)
    requires i < |v.ws| && v.ws[i].pc.Updated?
    ensures var pc := v.ws[i].pc;
            Leads(name, v, [Does(i, Observe)],
                  Put(v, i, if v.status.reachable == pc.prev
                            then AfterPing(pc.tick, pc.host, pc.ping)
                            else Reporting(pc.tick, pc.host, pc.ping,
                                           StateChange(name, pc.prev, v.status))))
  {
    LeadsOnce(name, v, Does(i, Observe));
    assert v.hops + [] == v.hops;
  }

  /** Reading the status back, and reporting the difference if there is one. */
  lemma Observes(v: View, name: string, i: nat)
    requires i < |v.ws| && v.ws[i].pc.Updated?
    ensures Leads(name, v, ObserveTurns(v, i), AfterObserve(v, i))
    ensures LoadsOf(ObserveTurns(v, i)) == []
  {
    var pc := v.ws[i].pc;
    NoLoads(ObserveTurns(v, i));
    ObserveTurn(v, name, i);
    if v.status.reachable == pc.prev {
      assert ObserveTurns(v, i) == [Does(i, Observe)];
    } else {
      var e := StateChange(name, pc.prev, v.status);
      var p1 := Reporting(pc.tick, pc.host, pc.ping, e);
      ReportTurn(Put(v, i, p1), name, i, pc.tick, pc.host, pc.ping, e);
      PutTwice(v, i, p1, AfterPing(pc.tick, pc.host, pc.ping));
      LeadsThen(name, v, [Does(i, Observe)], Put(v, i, p1), [Does(i, Report)], AfterObserve(v, i));
    }
  }

  lemma WakeTurn(v: View, name: string, i: nat, tick: nat)
    requires i < |v.ws| && v.ws[i].pc == Waiting(tick)
    ensures Leads(name, v, [Does(i, Wake)], Put(v, i, Top(tick + 1)))
    ensures LoadsOf([Does(i, Wake)]) == []
  {
    LeadsOnce(name, v, Does(i, Wake));
    NoLoads([Does(i, Wake)]);
    assert v.hops + [] == v.hops;
  }

  lemma DialTurn(v: View, name: string, i: nat, tick: nat, todo: seq<string>)
    requires i < |v.ws| && v.ws[i].pc == Dialing(tick, todo)
    ensures Leads(name, v, [Does(i, DialOk)], Put(v, i, Querying(tick, todo)))
    ensures LoadsOf([Does(i, DialOk)]) == []
  {
    LeadsOnce(name, v, Does(i, DialOk));
    NoLoads([Does(i, DialOk)]);
    assert v.hops + [] == v.hops;
  }

  lemma JoinTurns(name: string, u: View, a: seq<Turn>, v: View, b: seq<Turn>, w: View)
    requires Leads(name, u, a, v) && Leads(name, v, b, w)
    ensures Leads(name, u, a + b, w) && LoadsOf(a + b) == LoadsOf(a) + LoadsOf(b)
  {
    LeadsThen(name, u, a, v, b, w);
    LoadsOfConcat(a, b);
  }

  /** w is v with worker i at pc, whatever status and events have become. */
  predicate Stands(v: View, w: View, i: nat, pc: Pc)
  {
    i < |v.ws| && w.cfg == v.cfg && w.ws == Put(v, i, pc).ws
  }

  lemma StandsThen(v: View, u: View, w: View, i: nat, pc: Pc, pc': Pc)
    requires Stands(v, u, i, pc) && Stands(u, w, i, pc')
    ensures Stands(v, w, i, pc')
  {
    PutTwice(v, i, pc, pc');
  }

  lemma StandsAt(v: View, u: View, i: nat, pc: Pc)
    requires Stands(v, u, i, pc)
    ensures |u.ws| == |v.ws| && u.ws[i].pc == pc && u.ws[i].cancelled == v.ws[i].cancelled
  {
  }

  /** Ping, write, read back and report. */
  lemma Observed(v: View, name: string, i: nat, ping: Ping) returns (turns: seq<Turn>, w: View)
    requires i < |v.ws| && v.ws[i].pc.Top? && Pings(v.cfg, name) && MayFind(v, i, ping)
    ensures Leads(name, v, turns, w) && LoadsOf(turns) == []
    ensures Stands(v, w, i, AfterPing(v.ws[i].pc.tick, HostIn(v.cfg, name), ping))
    ensures w.status == Stamp(v.status, ApplyPing(v.status, 0, ping))
    ensures w.status.reachable != v.status.reachable ==>
              w.hops == v.hops + [(v.status.reachable.ToString(), w.status.reachable.ToString())]
  {
    var u := AfterCommit(v, name, i, ping);
    Commits(v, name, i, ping);
    Observes(u, name, i);
    w := AfterObserve(u, i);
    JoinTurns(name, v, CommitTurns(i, ping), u, ObserveTurns(u, i), w);
    turns := CommitTurns(i, ping) + ObserveTurns(u, i);
  }

  /** A pass over a host that cannot be pinged, and the sleep after it. */
  lemma TickOnce(v: View, name: string, i: nat, tick: nat, next: nat)
      returns (turns: seq<Turn>, w: View)
    requires i < |v.ws| && v.ws[i].pc == Top(tick) && Pings(v.cfg, name) && next == tick + 1
    ensures Leads(name, v, turns, w) && LoadsOf(turns) == []
    ensures Stands(v, w, i, Top(next))
  {
    var pass, u := Observed(v, name, i, Failed(""));
    StandsAt(v, u, i, Waiting(tick));
    w := Put(u, i, Top(next));
    StandsThen(v, u, w, i, Waiting(tick), Top(next));
    WakeTurn(u, name, i, tick);
    JoinTurns(name, v, pass, u, [Does(i, Wake)], w);
    turns := pass + [Does(i, Wake)];
  }

  lemma StandsStill(v: View, i: nat)
    requires i < |v.ws|
    ensures Stands(v, v, i, v.ws[i].pc)
  {
  }

  lemma TickNext(v: View, name: string, i: nat, tick: nat, next: nat, before: seq<Turn>, u: View)
      returns (turns: seq<Turn>, w: View)
    requires Leads(name, v, before, u) && LoadsOf(before) == [] && Stands(v, u, i, Top(tick))
    requires Pings(v.cfg, name) && next == tick + 1
    ensures Leads(name, v, turns, w) && LoadsOf(turns) == [] && Stands(v, w, i, Top(next))
  {
    StandsAt(v, u, i, Top(tick));
    var once: seq<Turn>;
    once, w := TickOnce(u, name, i, tick, next);
    StandsThen(v, u, w, i, Top(tick), Top(next));
    JoinTurns(name, v, before, u, once, w);
    turns := before + once;
  }

  /** A worker can get to any later tick. */
  lemma {:induction false} Ticks(v: View, name: string, i: nat, first: nat, tick: nat)
      returns (turns: seq<Turn>, w: View)
    requires i < |v.ws| && v.ws[i].pc == Top(first) && Pings(v.cfg, name) && first <= tick
    ensures Leads(name, v, turns, w) && LoadsOf(turns) == [] && Stands(v, w, i, Top(tick))
    decreases tick
  {
    if first == tick {
      turns, w := [], v;
      StandsStill(v, i);
    } else {
      var last := tick - 1;
      var before, u := Ticks(v, name, i, first, last);
      turns, w := TickNext(v, name, i, last, tick, before, u);
    }
  }

  /** Found up, and the due checks about to be asked for. */
  lemma StartsChecks(v: View, name: string, i: nat, tick: nat, todo: seq<string>)
      returns (turns: seq<Turn>, w: View)
    requires i < |v.ws| && v.ws[i].pc == Top(tick) && !v.ws[i].cancelled && Pings(v.cfg, name)
    requires todo != [] && todo == Schedule.Due(HostIn(v.cfg, name), tick)
    ensures Leads(name, v, turns, w) && LoadsOf(turns) == []
    ensures Stands(v, w, i, Querying(tick, todo))
  {
    var pass, u := Observed(v, name, i, Reachable);
    StandsAt(v, u, i, Dialing(tick, todo));
    w := Put(u, i, Querying(tick, todo));
    StandsThen(v, u, w, i, Dialing(tick, todo), Querying(tick, todo));
    DialTurn(u, name, i, tick, todo);
    JoinTurns(name, v, pass, u, [Does(i, DialOk)], w);
    turns := pass + [Does(i, DialOk)];
  }

  /** Some tick on which a check is due. */
  lemma DueTick(c: Settings, name: string) returns (tick: nat)
    requires Checks(c, name)
    ensures tick >= 1 && Schedule.Due(HostIn(c, name), tick) != []
  {
    var h := HostIn(c, name);
    var check :| check in Schedule.SSH_CHECKS && Schedule.Lookup(h, check).enabled;
    tick := Schedule.Period(Schedule.Lookup(h, check));
    assert tick % tick == 0;
    Schedule.DueMembers(h, tick, check);
  }

  /** An uncancelled worker of a checked host can get to the point of asking. */
  lemma GetsToAsk(v: View, name: string, i: nat)
      returns (turns: seq<Turn>, w: View, tick: nat, todo: seq<string>)
    requires i < |v.ws| && v.ws[i].pc == Top(1) && !v.ws[i].cancelled && Checks(v.cfg, name)
    ensures Leads(name, v, turns, w) && LoadsOf(turns) == []
    ensures Stands(v, w, i, Querying(tick, todo)) && todo != [] && todo[0] in Schedule.SSH_CHECKS
  {
    tick := DueTick(v.cfg, name);
    todo := Schedule.Due(HostIn(v.cfg, name), tick);
    Schedule.DueMembers(HostIn(v.cfg, name), tick, todo[0]);
    var wait, u := Ticks(v, name, i, 1, tick);
    StandsAt(v, u, i, Top(tick));
    var ask: seq<Turn>;
    ask, w := StartsChecks(u, name, i, tick, todo);
    StandsThen(v, u, w, i, Top(tick), Querying(tick, todo));
    JoinTurns(name, v, wait, u, ask, w);
    turns := wait + ask;
  }

  /** An uncancelled worker can be left holding an answer that the host is down. */
  lemma FindsDown(v: View, name: string, i: nat, tick: nat) returns (turns: seq<Turn>, w: View)
    requires i < |v.ws| && v.ws[i].pc == Top(tick) && !v.ws[i].cancelled && Pings(v.cfg, name)
    ensures Leads(name, v, turns, w) && LoadsOf(turns) == []
    ensures Stands(v, w, i, Pinged(tick, HostIn(v.cfg, name), 0, Unreachable))
  {
    var h := HostIn(v.cfg, name);
    var u := Put(v, i, Pinging(tick, h));
    w := Put(u, i, Pinged(tick, h, 0, Unreachable));
    LoadTurn(v, name, i);
    PingTurn(u, name, i, tick, h, Unreachable);
    PutTwice(v, i, Pinging(tick, h), Pinged(tick, h, 0, Unreachable));
    turns := [Does(i, Load)] + [Does(i, PingDone(0, Unreachable))];
    LeadsThen(name, v, [Does(i, Load)], u, [Does(i, PingDone(0, Unreachable))], w);
    NoLoads(turns);
  }

  // ---- many reloads ----------------------------------------------------------------

  function GetsAll(cs: seq<Settings>): (turns: seq<Turn>)
    ensures |turns| == |cs|
  {
    if cs == [] then [] else [Gets(cs[0])] + GetsAll(cs[1..])
  }

  lemma {:induction false} GetsAllLoads(cs: seq<Settings>)
    ensures LoadsOf(GetsAll(cs)) == cs
  {
    if cs != [] {
      GetsAllLoads(cs[1..]);
      assert GetsAll(cs)[1..] == GetsAll(cs[1..]);
    }
  }

  function AfterReloads(v: View, name: string, cs: seq<Settings>): View
    decreases |cs|
  {
    if cs == [] then v else AfterReloads(AfterReload(v, name, cs[0]), name, cs[1..])
  }

  lemma {:induction false} ReloadsLead(v: View, name: string, cs: seq<Settings>)
    ensures Leads(name, v, GetsAll(cs), AfterReloads(v, name, cs))
    decreases |cs|
  {
    if cs != [] {
      var u := AfterReload(v, name, cs[0]);
      LeadsOnce(name, v, Gets(cs[0]));
      ReloadsLead(u, name, cs[1..]);
      LeadsThen(name, v, [Gets(cs[0])], u, GetsAll(cs[1..]), AfterReloads(u, name, cs[1..]));
    }
  }

  /** A configured host has a worker, and the newest is not cancelled. */
  predicate Alive(v: View, name: string)
  {
    name in Names(v.cfg) ==> v.ws != [] && !v.ws[|v.ws| - 1].cancelled
  }

  /** The workers stay where they are, and new ones are at their start. */
  ghost predicate Resting(v: View, w: View)
  {
    && |v.ws| <= |w.ws|
    && (forall i :: 0 <= i < |v.ws| ==> w.ws[i].pc == v.ws[i].pc)
    && (forall i :: |v.ws| <= i < |w.ws| ==> w.ws[i].pc == Top(1))
    && w.status == v.status && w.hops == v.hops
  }

  lemma ReloadRests(v: View, name: string, next: Settings)
    requires Alive(v, name)
    ensures var w := AfterReload(v, name, next);
            && Resting(v, w) && Alive(w, name) && w.cfg == next
            && (name !in Names(v.cfg) && name in Names(next) ==> |w.ws| > |v.ws|)
  {
  }

  lemma RestsOn(u: View, v: View, w: View)
    requires Resting(u, v) && Resting(v, w)
    ensures Resting(u, w)
  {
  }

  lemma {:induction false} ReloadsRest(v: View, name: string, cs: seq<Settings>)
    requires Alive(v, name)
    ensures var w := AfterReloads(v, name, cs);
            && Resting(v, w) && Alive(w, name)
            && w.cfg == if cs == [] then v.cfg else cs[|cs| - 1]
    decreases |cs|
  {
    if cs != [] {
      var u := AfterReload(v, name, cs[0]);
      ReloadRests(v, name, cs[0]);
      ReloadsRest(u, name, cs[1..]);
      RestsOn(v, u, AfterReloads(u, name, cs[1..]));
    }
  }

  /** So has a host that comes. */
  lemma {:induction false} ComesWithMore(v: View, name: string, cs: seq<Settings>)
    requires Alive(v, name) && name !in Names(v.cfg)
    requires cs != [] && name in Names(cs[|cs| - 1])
    ensures |AfterReloads(v, name, cs).ws| > |v.ws|
    decreases |cs|
  {
    var u, rest := AfterReload(v, name, cs[0]), cs[1..];
    ReloadRests(v, name, cs[0]);
    if name in Names(cs[0]) {
      ReloadsRest(u, name, rest);
    } else {
      assert rest[|rest| - 1] == cs[|cs| - 1];
      ComesWithMore(u, name, rest);
    }
  }

  /** A host that has been away has more workers than before. */
  lemma {:induction false} ReturnsWithMore(v: View, name: string, cs: seq<Settings>, j: nat)
    requires Alive(v, name) && j < |cs| && name !in Names(cs[j]) && name in Names(cs[|cs| - 1])
    ensures |AfterReloads(v, name, cs).ws| > |v.ws|
    decreases |cs|
  {
    var u, rest := AfterReload(v, name, cs[0]), cs[1..];
    ReloadRests(v, name, cs[0]);
    assert rest[|rest| - 1] == cs[|cs| - 1];
    if j > 0 {
      assert rest[j - 1] == cs[j];
      ReturnsWithMore(u, name, rest, j - 1);
    } else {
      ComesWithMore(u, name, rest);
    }
  }

  // ---- two workers at once ---------------------------------------------------------

  /** A ping result that makes the host something else than `r`. */
  function Opposite(r: string): Ping { if r == "up" then Unreachable else Reachable }

  lemma OppositeDiffers(s: Status, r: string)
    ensures var reach := Stamp(s, ApplyPing(s, 0, Opposite(r))).reachable;
            reach.ToString() != r && reach != Unknown
  {
    assert "down" != "up" by { assert |"down"| == 4; }
  }

  /** From any state in which two workers of a pinged host are about to start a pass, one of
      them not cancelled, its events can stop being a chain: the one finds a change, and before
      it has reported it the other fails to ping and reports from there. */
  lemma ReturnBreaksChain(v: View, name: string, i: nat, x: nat)
      returns (turns: seq<Turn>, w: View, hop: (string, string))
    requires i < |v.ws| && x < |v.ws| && i != x && Pings(v.cfg, name)
    requires v.ws[i].pc.Top? && v.ws[x].pc.Top? && !v.ws[x].cancelled
    ensures Leads(name, v, turns, w) && LoadsOf(turns) == []
    ensures w.hops == v.hops + [hop] && hop.0 != LastHop(v.hops)
  {
    var ping := Opposite(LastHop(v.hops));
    Commits(v, name, x, ping);
    OppositeDiffers(v.status, LastHop(v.hops));
    var u := AfterCommit(v, name, x, ping);
    assert u.ws[i] == v.ws[i];
    var report: seq<Turn>;
    report, w := Observed(u, name, i, Failed(""));
    hop := (u.status.reachable.ToString(), w.status.reachable.ToString());
    JoinTurns(name, v, CommitTurns(x, ping), u, report, w);
    turns := CommitTurns(x, ping) + report;
  }

  /** Some answer to every check. */
  const ANSWER :=
    Readings(1, LoadInfo(1.0, 1.0, 1.0), MemInfo(1, 1), [DiskInfo("/", "ext4", 1)])

  lemma AnswerShows(s: Status, check: string)
    requires check in Schedule.SSH_CHECKS
    ensures var t := Stamp(s, ApplyReading(s, check, ANSWER));
            t.reachable == s.reachable && !Cleared(t)
  {
    assert ANSWER.load.one != NO_LOAD.one && ANSWER.memory.totalKB != NO_MEM.totalKB;
  }

  lemma QueryTurn(v: View, name: string, i: nat)
    requires i < |v.ws| && v.ws[i].pc.Querying? && v.ws[i].pc.todo != []
    ensures ViewCan(v, name, i, Query(Some(ANSWER)))
    ensures var w := ViewNext(v, name, i, Query(Some(ANSWER)));
            && Leads(name, v, [Does(i, Query(Some(ANSWER)))], w)
            && w.status == Stamp(v.status, ApplyReading(v.status, v.ws[i].pc.todo[0], ANSWER))
  {
    LeadsOnce(name, v, Does(i, Query(Some(ANSWER))));
  }

  /** From any state in which one worker is asking and another holds an answer that the host is
      down, whichever of them is older, the host can end up down with a reading: the clearing
      comes first. */
  lemma ReturnLeavesReading(v: View, name: string, a: nat, b: nat)
      returns (turns: seq<Turn>, w: View)
    requires a < |v.ws| && b < |v.ws| && a != b
    requires v.ws[a].pc.Querying? && v.ws[a].pc.todo != []
    requires v.ws[a].pc.todo[0] in Schedule.SSH_CHECKS
    requires v.ws[b].pc.Pinged? && v.ws[b].pc.at == 0 && v.ws[b].pc.ping == Unreachable
    ensures Leads(name, v, turns, w) && LoadsOf(turns) == []
    ensures w.status.reachable == Down && !Cleared(w.status)
  {
    var pc := v.ws[b].pc;
    CommitTurn(v, name, b, pc.tick, pc.host, Unreachable);
    var u := Put(v, b, Pc.Updated(pc.tick, pc.host, Unreachable, v.status.reachable))
               .(status := Stamp(v.status, ApplyPing(v.status, 0, Unreachable)));
    assert u.ws[a].pc == v.ws[a].pc && u.status.reachable == Down;
    QueryTurn(u, name, a);
    w := ViewNext(u, name, a, Query(Some(ANSWER)));
    AnswerShows(u.status, v.ws[a].pc.todo[0]);
    turns := [Does(b, Commit)] + [Does(a, Query(Some(ANSWER)))];
    LeadsThen(name, v, [Does(b, Commit)], u, [Does(a, Query(Some(ANSWER)))], w);
    NoLoads(turns);
  }
}
