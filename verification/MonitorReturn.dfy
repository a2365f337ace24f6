/** When both histories of MonitorHistory are safe, exactly: along a given sequence of
    configurations the first holds on every run if and only if the host is not pinged again after
    a removal, the second if and only if it is not pinged both before and after one, or never
    checked. */
module MonitorReturn {
  import opened Text
  import opened Hosts
  import opened Config
  import opened Monitor
  import opened MonitorHistory
  import opened MonitorSpells
  import opened MonitorOverlap

  // ---- runs through given configurations -------------------------------------------

  /** A run booted from the first configuration whose SIGHUPs load the others, in order, as far
      as it gets. */
  ghost predicate Follows(cs: seq<Settings>, syntax: Syntax, steps: seq<Step>, states: seq<State>)
    requires cs != []
  {
    IsRun(cs[0], syntax, steps, states) && [cs[0]] + Loads(steps) <= cs
  }

  lemma LoadsSnoc(steps: seq<Step>, k: nat)
    requires k < |steps|
    ensures Loads(steps[..k + 1]) == Loads(steps[..k]) + Loaded(steps[k])
  {
    assert steps[..k + 1][..k] == steps[..k];
  }

  lemma {:induction false} LoadsPrefix(steps: seq<Step>, j: nat, k: nat)
    requires j <= k <= |steps|
    ensures Loads(steps[..j]) <= Loads(steps[..k])
    decreases k - j
  {
    if j < k {
      LoadsPrefix(steps, j, k - 1);
      LoadsSnoc(steps, k - 1);
    }
  }

  lemma LoadedInto(cfg: Settings, next: Settings, syntax: Syntax, s: State)
    requires s.cfg == cfg && Enabled(s, HupLoad(next))
    requires WellFormed(next, syntax) && ReloadConflict(cfg, next) == None
    ensures Next(s, syntax, HupLoad(next)).cfg == next
  {
  }

  lemma CfgKept(s: State, syntax: Syntax, step: Step)
    requires Enabled(s, step) && !step.HupLoad?
    ensures Next(s, syntax, step).cfg == s.cfg
  {
  }

  /** The configuration in force is the last one loaded. */
  lemma {:induction false} CfgFollows(cs: seq<Settings>, syntax: Syntax, steps: seq<Step>,
                                      states: seq<State>, k: nat)
    requires cs != [] && Usable(cs, syntax) && Follows(cs, syntax, steps, states)
    requires k < |states|
    ensures |Loads(steps[..k])| < |cs| && states[k].cfg == cs[|Loads(steps[..k])|]
  {
    assert steps[..|steps|] == steps;
    if k > 0 {
      CfgFollows(cs, syntax, steps, states, k - 1);
      LoadsSnoc(steps, k - 1);
      LoadsPrefix(steps, k, |steps|);
      var step, n := steps[k - 1], |Loads(steps[..k - 1])|;
      if step.HupLoad? {
        assert Loads(steps)[n] == step.next && ([cs[0]] + Loads(steps))[n + 1] == step.next;
        LoadedInto(cs[n], step.next, syntax, states[k - 1]);
      } else {
        CfgKept(states[k - 1], syntax, step);
      }
    }
  }

  lemma LoadedAt(cs: seq<Settings>, syntax: Syntax, steps: seq<Step>, states: seq<State>, k: nat)
      returns (n: nat)
    requires cs != [] && Usable(cs, syntax) && Follows(cs, syntax, steps, states)
    requires k < |states|
    ensures n == |Loads(steps[..k])| && n < |cs| && Configs(states)[k] == cs[n]
  {
    CfgFollows(cs, syntax, steps, states, k);
    n := |Loads(steps[..k])|;
  }

  lemma GrowsBetween(steps: seq<Step>, i: nat, j: nat)
    requires i <= j <= |steps|
    ensures |Loads(steps[..i])| <= |Loads(steps[..j])|
  {
    LoadsPrefix(steps, i, j);
  }

  lemma PingedAgainAt(cs: seq<Settings>, name: string, a: nat, b: nat, c: nat)
    requires a <= b <= c < |cs|
    requires Pings(cs[a], name) && name !in Names(cs[b]) && Pings(cs[c], name)
    ensures PingedAgain(cs, name)
  {
    PingedIsThere(cs[a], name);
    PingedIsThere(cs[c], name);
  }

  lemma ReturnsPingedFrom(cs: seq<Settings>, syntax: Syntax, steps: seq<Step>,
                          states: seq<State>, name: string)
    requires cs != [] && Usable(cs, syntax) && Follows(cs, syntax, steps, states)
    requires ReturnsPinged(Configs(states), name)
    ensures ReturnsPinged(cs, name)
  {
    var run := Configs(states);
    var i, j, k :| 0 <= i < j < k < |run|
      && name in Names(run[i]) && name !in Names(run[j]) && Pings(run[k], name);
    var a := LoadedAt(cs, syntax, steps, states, i);
    var b := LoadedAt(cs, syntax, steps, states, j);
    var c := LoadedAt(cs, syntax, steps, states, k);
    GrowsBetween(steps, i, j);
    GrowsBetween(steps, j, k);
    ReturnsPingedAt(cs, name, a, b, c);
  }

  lemma PingedAgainFrom(cs: seq<Settings>, syntax: Syntax, steps: seq<Step>,
                        states: seq<State>, name: string)
    requires cs != [] && Usable(cs, syntax) && Follows(cs, syntax, steps, states)
    requires PingedAgain(Configs(states), name)
    ensures PingedAgain(cs, name)
  {
    var run := Configs(states);
    var i, j, k :| 0 <= i < j < k < |run|
      && Pings(run[i], name) && name !in Names(run[j]) && Pings(run[k], name);
    var a := LoadedAt(cs, syntax, steps, states, i);
    var b := LoadedAt(cs, syntax, steps, states, j);
    var c := LoadedAt(cs, syntax, steps, states, k);
    GrowsBetween(steps, i, j);
    GrowsBetween(steps, j, k);
    PingedAgainAt(cs, name, a, b, c);
  }

  lemma CheckedFrom(cs: seq<Settings>, syntax: Syntax, steps: seq<Step>, states: seq<State>,
                    name: string)
    requires cs != [] && Usable(cs, syntax) && Follows(cs, syntax, steps, states)
    requires Checked(Configs(states), name)
    ensures Checked(cs, name)
  {
    var k :| 0 <= k < |states| && Checks(Configs(states)[k], name);
    var a := LoadedAt(cs, syntax, steps, states, k);
  }

  // ---- building runs ---------------------------------------------------------------

  predicate AllAtStart(ws: seq<Worker>)
  {
    forall k :: 0 <= k < |ws| ==> ws[k].pc == Top(1)
  }

  lemma UsablePart(cs: seq<Settings>, syntax: Syntax, m: nat, l: nat)
    requires Usable(cs, syntax) && m <= l < |cs|
    ensures Usable([cs[m]] + cs[m + 1..l + 1], syntax)
  {
    var part := cs[m..l + 1];
    forall k | 0 <= k < |part| ensures part[k] == cs[m + k] {}
    assert [cs[m]] + cs[m + 1..l + 1] == part;
  }

  lemma PartsJoin(cs: seq<Settings>, m: nat, l: nat)
    requires m <= l < |cs|
    ensures cs[1..m + 1] + cs[m + 1..l + 1] == cs[1..l + 1]
    ensures [cs[0]] + cs[1..l + 1] <= cs
  {
  }

  /** The reloads up to one configuration, with no worker having moved. */
  lemma ReloadsTo(cs: seq<Settings>, name: string, m: nat) returns (turns: seq<Turn>, v: View)
    requires m < |cs|
    ensures Leads(name, AtBoot(cs[0], name), turns, v) && LoadsOf(turns) == cs[1..m + 1]
    ensures v.cfg == cs[m] && AllAtStart(v.ws) && Alive(v, name)
  {
    var u, loads := AtBoot(cs[0], name), cs[1..m + 1];
    ReloadsLead(u, name, loads);
    ReloadsRest(u, name, loads);
    GetsAllLoads(loads);
    turns, v := GetsAll(loads), AfterReloads(u, name, loads);
  }

  lemma BootLeads(cfg: Settings, syntax: Syntax, name: string, turns: seq<Turn>, v: View,
                  loads: seq<Settings>)
    requires Usable([cfg] + loads, syntax)
    requires Leads(name, AtBoot(cfg, name), turns, v) && LoadsOf(turns) == loads
    ensures Seen(cfg, syntax, loads, name, v)
  {
    var u := AtBoot(cfg, name);
    assert ([cfg] + loads)[0] == cfg;
    assert [] + LoadsOf(turns) == loads;
    Booted(cfg, syntax, name);
    SeenLeads(cfg, syntax, [], name, u, turns, v, loads);
  }

  lemma ArrivesBy(cs: seq<Settings>, syntax: Syntax, name: string, m: nat, turns: seq<Turn>,
                  v: View)
    requires Usable(cs, syntax) && m < |cs|
    requires Leads(name, AtBoot(cs[0], name), turns, v) && LoadsOf(turns) == cs[1..m + 1]
    ensures Seen(cs[0], syntax, cs[1..m + 1], name, v)
  {
    UsablePart(cs, syntax, 0, m);
    BootLeads(cs[0], syntax, name, turns, v, cs[1..m + 1]);
  }

  /** The system can be brought to any of the configurations with no worker having moved. */
  lemma Arrives(cs: seq<Settings>, syntax: Syntax, name: string, m: nat) returns (v: View)
    requires Usable(cs, syntax) && m < |cs|
    ensures Seen(cs[0], syntax, cs[1..m + 1], name, v)
    ensures v.cfg == cs[m] && AllAtStart(v.ws) && Alive(v, name)
  {
    var turns: seq<Turn>;
    turns, v := ReloadsTo(cs, name, m);
    ArrivesBy(cs, syntax, name, m, turns, v);
  }

  /** Whatever turns can follow there are a run through the configurations. */
  lemma TurnsFollow(cs: seq<Settings>, syntax: Syntax, name: string, m: nat, l: nat, v: View,
                    turns: seq<Turn>, w: View) returns (steps: seq<Step>, states: seq<State>)
    requires Usable(cs, syntax) && m <= l < |cs| && v.cfg == cs[m]
    requires Seen(cs[0], syntax, cs[1..m + 1], name, v) && Leads(name, v, turns, w)
    requires LoadsOf(turns) == cs[m + 1..l + 1]
    ensures Follows(cs, syntax, steps, states)
    ensures Shows(states[|states| - 1], name, w)
  {
    var total := cs[1..l + 1];
    UsablePart(cs, syntax, m, l);
    PartsJoin(cs, m, l);
    SeenLeads(cs[0], syntax, cs[1..m + 1], name, v, turns, w, total);
    var s :| Reached(cs[0], syntax, total, s) && Shows(s, name, w);
    steps, states :| IsRun(cs[0], syntax, steps, states) && states[|states| - 1] == s
                     && Loads(steps) == total;
  }

  /** Through reloads among which the host is away: what any one worker was doing it still is,
      and there is another one, x, at its start. */
  lemma ReloadsRenew(v: View, name: string, part: seq<Settings>, j: nat, i: nat)
      returns (turns: seq<Turn>, w: View, x: nat)
    requires Alive(v, name) && i < |v.ws|
    requires j < |part| && name !in Names(part[j]) && name in Names(part[|part| - 1])
    ensures Leads(name, v, turns, w) && LoadsOf(turns) == part
    ensures w.cfg == part[|part| - 1] && w.hops == v.hops
    ensures i < x < |w.ws| && w.ws[i].pc == v.ws[i].pc
    ensures w.ws[x].pc == Top(1) && !w.ws[x].cancelled
  {
    ReloadsLead(v, name, part);
    GetsAllLoads(part);
    ReloadsRest(v, name, part);
    ReturnsWithMore(v, name, part, j);
    turns, w := GetsAll(part), AfterReloads(v, name, part);
    x := |w.ws| - 1;
  }

  /** On to a later configuration, past one in which the host is away. */
  lemma Onward(cs: seq<Settings>, name: string, v: View, m: nat, j: nat, l: nat, i: nat)
      returns (turns: seq<Turn>, w: View, x: nat)
    requires m < j < l < |cs| && v.cfg == cs[m] && Alive(v, name) && i < |v.ws|
    requires name !in Names(cs[j]) && name in Names(cs[l])
    ensures Leads(name, v, turns, w) && LoadsOf(turns) == cs[m + 1..l + 1]
    ensures w.cfg == cs[l] && w.hops == v.hops
    ensures i < x < |w.ws| && w.ws[i].pc == v.ws[i].pc
    ensures w.ws[x].pc == Top(1) && !w.ws[x].cancelled
  {
    var part := cs[m + 1..l + 1];
    assert part[j - m - 1] == cs[j] && part[|part| - 1] == cs[l];
    turns, w, x := ReloadsRenew(v, name, part, j - m - 1, i);
  }

  // ---- the chain -------------------------------------------------------------------

  ghost predicate AlwaysChain(cs: seq<Settings>, syntax: Syntax, name: string)
    requires cs != []
  {
    forall steps: seq<Step>, states: seq<State> :: Follows(cs, syntax, steps, states) ==>
      IsChain(Changes(states[|states| - 1].log, name))
  }

  /** From a start under one configuration, past one without the host, to a broken hop under a
      third. */
  lemma BreaksFrom(cs: seq<Settings>, name: string, v: View, i: nat, j: nat, k: nat)
      returns (turns: seq<Turn>, w: View, hop: (string, string))
    requires i < j < k < |cs| && v.cfg == cs[i] && AllAtStart(v.ws) && Alive(v, name)
    requires name in Names(cs[i]) && name !in Names(cs[j]) && Pings(cs[k], name)
    ensures Leads(name, v, turns, w) && LoadsOf(turns) == cs[i + 1..k + 1]
    ensures w.hops == v.hops + [hop] && hop.0 != LastHop(v.hops)
  {
    PingedIsThere(cs[k], name);
    var on, u, x := Onward(cs, name, v, i, j, k, 0);
    var off: seq<Turn>;
    off, w, hop := ReturnBreaksChain(u, name, 0, x);
    JoinTurns(name, v, on, u, off, w);
    turns := on + off;
  }

  lemma ReturnBreaks(cs: seq<Settings>, syntax: Syntax, name: string)
    requires cs != [] && Usable(cs, syntax) && ReturnsPinged(cs, name)
    ensures !AlwaysChain(cs, syntax, name)
  {
    var i, j, k :| 0 <= i < j < k < |cs|
      && name in Names(cs[i]) && name !in Names(cs[j]) && Pings(cs[k], name);
    var v := Arrives(cs, syntax, name, i);
    var turns, w, hop := BreaksFrom(cs, name, v, i, j, k);
    var steps, states := TurnsFollow(cs, syntax, name, i, k, v, turns, w);
    BrokenHop(Changes(states[|states| - 1].log, name), v.hops, hop);
  }

  /** For any acceptable configurations, with or without pings: on every run through them the
      host's state-change events form a chain, if and only if it is not pinged again after it
      has been removed. */
  lemma ChainExactly(cs: seq<Settings>, syntax: Syntax, name: string)
    requires cs != [] && Usable(cs, syntax)
    ensures AlwaysChain(cs, syntax, name) <==> !ReturnsPinged(cs, name)
  {
    if ReturnsPinged(cs, name) {
      ReturnBreaks(cs, syntax, name);
    } else {
      forall steps: seq<Step>, states: seq<State> | Follows(cs, syntax, steps, states)
        ensures IsChain(Changes(states[|states| - 1].log, name))
      {
        if ReturnsPinged(Configs(states), name) {
          ReturnsPingedFrom(cs, syntax, steps, states, name);
        }
        UnpingedReturnHistory(cs[0], syntax, steps, states, name, |states| - 1);
      }
    }
  }

  /** Wherever the host is configured, its ping is enabled. */
  ghost predicate AlwaysPings(cs: seq<Settings>, name: string)
  {
    forall k :: 0 <= k < |cs| && name in Names(cs[k]) ==> Pings(cs[k], name)
  }

  /** In particular, if it is pinged wherever it is configured: if and only if it does not come
      back. */
  lemma PingedChainExactly(cs: seq<Settings>, syntax: Syntax, name: string)
    requires cs != [] && Usable(cs, syntax) && AlwaysPings(cs, name)
    ensures AlwaysChain(cs, syntax, name) <==> !Returns(cs, name)
  {
    ChainExactly(cs, syntax, name);
    if ReturnsPinged(cs, name) {
      var i, j, k :| 0 <= i < j < k < |cs|
        && name in Names(cs[i]) && name !in Names(cs[j]) && Pings(cs[k], name);
      PingedIsThere(cs[k], name);
      assert Returns(cs, name);
    }
  }

  // ---- the readings ----------------------------------------------------------------

  ghost predicate AlwaysCleared(cs: seq<Settings>, syntax: Syntax, name: string)
    requires cs != []
  {
    forall steps: seq<Step>, states: seq<State> :: Follows(cs, syntax, steps, states) ==>
      var s := StatusOf(states[|states| - 1], name);
      s.reachable == Down ==> Cleared(s)
  }

  lemma JoinFour(name: string, u: View, a: seq<Turn>, v: View, b: seq<Turn>, w: View,
                 c: seq<Turn>, x: View, d: seq<Turn>, y: View)
    requires Leads(name, u, a, v) && Leads(name, v, b, w) && Leads(name, w, c, x)
    requires Leads(name, x, d, y) && LoadsOf(a) == [] && LoadsOf(c) == [] && LoadsOf(d) == []
    ensures Leads(name, u, a + b + c + d, y) && LoadsOf(a + b + c + d) == LoadsOf(b)
  {
    JoinTurns(name, u, a, v, b, w);
    JoinTurns(name, u, a + b, w, c, x);
    JoinTurns(name, u, a + b + c, x, d, y);
    assert [] + LoadsOf(b) + [] + [] == LoadsOf(b);
  }

  /** Checked first, then pinged again: the old worker's check lands last. */
  lemma ChecksFirst(cs: seq<Settings>, name: string, v: View, a: nat, j: nat, b: nat)
      returns (turns: seq<Turn>, w: View)
    requires a < j < b < |cs| && v.cfg == cs[a] && AllAtStart(v.ws) && Alive(v, name)
    requires Checks(cs[a], name) && name !in Names(cs[j]) && Pings(cs[b], name)
    ensures Leads(name, v, turns, w) && LoadsOf(turns) == cs[a + 1..b + 1]
    ensures w.status.reachable == Down && !Cleared(w.status)
  {
    PingedIsThere(cs[a], name);
    PingedIsThere(cs[b], name);
    var i := |v.ws| - 1;
    var ask, v1, tick, todo := GetsToAsk(v, name, i);
    StandsAt(v, v1, i, Querying(tick, todo));
    var on, v2, x := Onward(cs, name, v1, a, j, b, i);
    var down, v3 := FindsDown(v2, name, x, 1);
    assert v3.ws[i].pc == v2.ws[i].pc;
    StandsAt(v2, v3, x, Pinged(1, HostIn(cs[b], name), 0, Unreachable));
    var late: seq<Turn>;
    late, w := ReturnLeavesReading(v3, name, i, x);
    JoinFour(name, v, ask, v1, on, v2, down, v3, late, w);
    turns := ask + on + down + late;
  }

  /** Pinged first, then checked: the old worker's ping result lands last but one. */
  lemma PingsFirst(cs: seq<Settings>, name: string, v: View, b: nat, j: nat, a: nat)
      returns (turns: seq<Turn>, w: View)
    requires b < j < a < |cs| && v.cfg == cs[b] && AllAtStart(v.ws) && Alive(v, name)
    requires Pings(cs[b], name) && name !in Names(cs[j]) && Checks(cs[a], name)
    ensures Leads(name, v, turns, w) && LoadsOf(turns) == cs[b + 1..a + 1]
    ensures w.status.reachable == Down && !Cleared(w.status)
  {
    PingedIsThere(cs[a], name);
    PingedIsThere(cs[b], name);
    var i := |v.ws| - 1;
    var down, v1 := FindsDown(v, name, i, 1);
    StandsAt(v, v1, i, Pinged(1, HostIn(cs[b], name), 0, Unreachable));
    var on, v2, x := Onward(cs, name, v1, b, j, a, i);
    var ask, v3, tick, todo := GetsToAsk(v2, name, x);
    assert v3.ws[i].pc == v2.ws[i].pc;
    StandsAt(v2, v3, x, Querying(tick, todo));
    var late: seq<Turn>;
    late, w := ReturnLeavesReading(v3, name, x, i);
    JoinFour(name, v, down, v1, on, v2, ask, v3, late, w);
    turns := down + on + ask + late;
  }

  /** A continuation that ends down with a reading is on some run. */
  lemma SoilsOn(cs: seq<Settings>, syntax: Syntax, name: string, m: nat, l: nat, v: View,
                turns: seq<Turn>, w: View)
    requires Usable(cs, syntax) && m <= l < |cs| && v.cfg == cs[m]
    requires Seen(cs[0], syntax, cs[1..m + 1], name, v) && Leads(name, v, turns, w)
    requires LoadsOf(turns) == cs[m + 1..l + 1]
    requires w.status.reachable == Down && !Cleared(w.status)
    ensures !AlwaysCleared(cs, syntax, name)
  {
    var steps, states := TurnsFollow(cs, syntax, name, m, l, v, turns, w);
  }

  lemma SoiledByOld(cs: seq<Settings>, syntax: Syntax, name: string, a: nat, j: nat, b: nat)
    requires Usable(cs, syntax) && a < j < b < |cs|
    requires Checks(cs[a], name) && name !in Names(cs[j]) && Pings(cs[b], name)
    ensures !AlwaysCleared(cs, syntax, name)
  {
    var v := Arrives(cs, syntax, name, a);
    var turns, w := ChecksFirst(cs, name, v, a, j, b);
    SoilsOn(cs, syntax, name, a, b, v, turns, w);
  }

  lemma SoiledByNew(cs: seq<Settings>, syntax: Syntax, name: string, b: nat, j: nat, a: nat)
    requires Usable(cs, syntax) && b < j < a < |cs|
    requires Pings(cs[b], name) && name !in Names(cs[j]) && Checks(cs[a], name)
    ensures !AlwaysCleared(cs, syntax, name)
  {
    var v := Arrives(cs, syntax, name, b);
    var turns, w := PingsFirst(cs, name, v, b, j, a);
    SoilsOn(cs, syntax, name, b, a, v, turns, w);
  }

  lemma SoiledEitherWay(cs: seq<Settings>, syntax: Syntax, name: string, p: nat, j: nat, q: nat,
                        a: nat)
    requires Usable(cs, syntax) && p < j < q < |cs| && a < |cs|
    requires Pings(cs[p], name) && name !in Names(cs[j]) && Pings(cs[q], name)
    requires Checks(cs[a], name)
    ensures !AlwaysCleared(cs, syntax, name)
  {
    PingedIsThere(cs[a], name);
    assert a != j;
    if a < j {
      SoiledByOld(cs, syntax, name, a, j, q);
    } else {
      SoiledByNew(cs, syntax, name, p, j, a);
    }
  }

  lemma ReturnSoils(cs: seq<Settings>, syntax: Syntax, name: string)
    requires cs != [] && Usable(cs, syntax) && PingedAgain(cs, name) && Checked(cs, name)
    ensures !AlwaysCleared(cs, syntax, name)
  {
    var p: nat, j: nat, q: nat :| p < j < q < |cs|
      && Pings(cs[p], name) && name !in Names(cs[j]) && Pings(cs[q], name);
    var a: nat :| a < |cs| && Checks(cs[a], name);
    SoiledEitherWay(cs, syntax, name, p, j, q, a);
  }

  lemma StaysCleared(cs: seq<Settings>, syntax: Syntax, steps: seq<Step>, states: seq<State>,
                     name: string)
    requires cs != [] && Usable(cs, syntax) && Follows(cs, syntax, steps, states)
    requires !PingedAgain(cs, name) || !Checked(cs, name)
    ensures var s := StatusOf(states[|states| - 1], name);
            s.reachable == Down ==> Cleared(s)
  {
    if !PingedAgain(cs, name) {
      if PingedAgain(Configs(states), name) {
        PingedAgainFrom(cs, syntax, steps, states, name);
      }
      OneSpellCleared(cs[0], syntax, steps, states, name, |states| - 1);
    } else {
      if Checked(Configs(states), name) {
        CheckedFrom(cs, syntax, steps, states, name);
      }
      RunNeverRead(cs[0], syntax, steps, states, name, |states| - 1);
    }
  }

  /** For any acceptable configurations: on every run through them the host shows no readings
      while it is down, if and only if it is not pinged again after a removal, or never pinged
      and checked at once. */
  lemma ClearedExactly(cs: seq<Settings>, syntax: Syntax, name: string)
    requires cs != [] && Usable(cs, syntax)
    ensures AlwaysCleared(cs, syntax, name) <==> !PingedAgain(cs, name) || !Checked(cs, name)
  {
    if PingedAgain(cs, name) && Checked(cs, name) {
      ReturnSoils(cs, syntax, name);
    } else {
      forall steps: seq<Step>, states: seq<State> | Follows(cs, syntax, steps, states)
        ensures var s := StatusOf(states[|states| - 1], name);
                s.reachable == Down ==> Cleared(s)
      {
        StaysCleared(cs, syntax, steps, states, name);
      }
    }
  }
}
