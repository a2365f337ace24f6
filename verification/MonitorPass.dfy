/** A worker that is left alone performs, step by step, exactly the pass that the sequential
    checkOnce promises. */
module MonitorPass {
  import opened Text
  import opened Hosts
  import opened Config
  import opened Events
  import opened Monitor
  import opened MonitorObject
  import Schedule

  /** From s to t by steps of one worker only. */
  ghost predicate Alone(s: State, syntax: Syntax, name: string, i: nat, acts: seq<Act>, t: State)
    decreases |acts|
  {
    if acts == [] then s == t
    else
      && Enabled(s, Work(name, i, acts[0]))
      && Alone(Next(s, syntax, Work(name, i, acts[0])), syntax, name, i, acts[1..], t)
  }

  lemma {:induction false} AloneThen(s: State, syntax: Syntax, name: string, i: nat,
                                     acts: seq<Act>, t: State, more: seq<Act>, u: State)
    requires Alone(s, syntax, name, i, acts, t) && Alone(t, syntax, name, i, more, u)
    ensures Alone(s, syntax, name, i, acts + more, u)
    decreases |acts|
  {
    if acts == [] {
      assert acts + more == more;
    } else {
      assert (acts + more)[1..] == acts[1..] + more;
      AloneThen(Next(s, syntax, Work(name, i, acts[0])), syntax, name, i, acts[1..], t, more, u);
    }
  }

  /** s, with this worker at pc, this host's status and this log. */
  function Moved(s: State, name: string, i: nat, pc: Pc, status: Status, log: seq<Event>): State
    requires i < |Workers(s, name)|
  {
    var ws := Workers(s, name);
    s.(spawned := s.spawned[name := ws[i := ws[i].(pc := pc)]],
       statuses := s.statuses[name := status], log := log)
  }

  lemma MovedTwice(s: State, name: string, i: nat, pc: Pc, status: Status, log: seq<Event>,
                   pc': Pc, status': Status, log': seq<Event>)
    requires i < |Workers(s, name)|
    ensures i < |Workers(Moved(s, name, i, pc, status, log), name)|
    ensures Moved(Moved(s, name, i, pc, status, log), name, i, pc', status', log')
         == Moved(s, name, i, pc', status', log')
  {
    var ws := Workers(s, name);
    assert ws[i := ws[i].(pc := pc)][i := ws[i].(pc := pc')] == ws[i := ws[i].(pc := pc')];
  }

  /** Every act of a worker moves that worker, its host's status and the log, nothing else. */
  lemma ActMoves(s: State, syntax: Syntax, name: string, i: nat, act: Act)
    requires Enabled(s, Work(name, i, act)) && name in s.statuses
    ensures var w := Workers(s, name)[i];
            && name in NextStatuses(s, name, w, act)
            && Next(s, syntax, Work(name, i, act))
               == Moved(s, name, i, NextPc(s, name, w, act), NextStatuses(s, name, w, act)[name],
                        NextLog(s, name, w, act))
  {
    var w := Workers(s, name)[i];
    assert NextStatuses(s, name, w, act)
        == s.statuses[name := NextStatuses(s, name, w, act)[name]];
  }

  /** One act from a moved state. */
  lemma ActFrom(s: State, syntax: Syntax, name: string, i: nat, pc: Pc, status: Status,
                log: seq<Event>, act: Act, pc': Pc, status': Status, log': seq<Event>)
    requires i < |Workers(s, name)|
    requires var m := Moved(s, name, i, pc, status, log);
             var w := Workers(s, name)[i].(pc := pc);
             && CanAct(m, name, w, act) && NextPc(m, name, w, act) == pc'
             && NextStatuses(m, name, w, act) == m.statuses[name := status']
             && NextLog(m, name, w, act) == log'
    ensures Alone(Moved(s, name, i, pc, status, log), syntax, name, i, [act],
                  Moved(s, name, i, pc', status', log'))
  {
    var m := Moved(s, name, i, pc, status, log);
    assert Workers(m, name)[i] == Workers(s, name)[i].(pc := pc);
    ActMoves(m, syntax, name, i, act);
    MovedTwice(s, name, i, pc, status, log, pc', status', log');
    assert [act][1..] == [];
  }

  function Queries(answers: seq<Option<Readings>>): seq<Act>
  {
    if answers == [] then [] else [Query(answers[0])] + Queries(answers[1..])
  }

  lemma {:induction false} QueriesAlone(s: State, syntax: Syntax, name: string, i: nat, tick: nat,
                                        todo: seq<string>, status: Status, log: seq<Event>,
                                        answers: seq<Option<Readings>>)
    requires i < |Workers(s, name)| && todo != [] && |answers| == |todo|
    ensures Alone(Moved(s, name, i, Querying(tick, todo), status, log), syntax, name, i,
                  Queries(answers),
                  Moved(s, name, i, Waiting(tick), Queried(status, todo, answers), log))
    decreases |todo|
  {
    var next := if answers[0].Some?
                then Stamp(status, ApplyReading(status, todo[0], answers[0].value)) else status;
    var pc := if |todo| == 1 then Waiting(tick) else Querying(tick, todo[1..]);
    ActFrom(s, syntax, name, i, Querying(tick, todo), status, log, Query(answers[0]), pc, next, log);
    if |todo| == 1 {
      assert Queries(answers) == [Query(answers[0])];
    } else {
      QueriesAlone(s, syntax, name, i, tick, todo[1..], next, log, answers[1..]);
      AloneThen(Moved(s, name, i, Querying(tick, todo), status, log), syntax, name, i,
                [Query(answers[0])], Moved(s, name, i, pc, next, log), Queries(answers[1..]),
                Moved(s, name, i, Waiting(tick), Queried(status, todo, answers), log));
    }
  }

  function SshActs(ssh: Ssh): seq<Act>
  {
    match ssh
    case Refused(err) => [DialFailed(err)]
    case Answered(answers) => [DialOk] + Queries(answers)
  }

  lemma SshAlone(s: State, syntax: Syntax, name: string, i: nat, tick: nat, todo: seq<string>,
                 status: Status, log: seq<Event>, ssh: Ssh)
    requires i < |Workers(s, name)| && todo != [] && Fits(ssh, todo)
    ensures Alone(Moved(s, name, i, Dialing(tick, todo), status, log), syntax, name, i,
                  SshActs(ssh),
                  Moved(s, name, i, Waiting(tick), AfterSsh(status, todo, ssh), log))
  {
    match ssh
    case Refused(err) =>
      ActFrom(s, syntax, name, i, Dialing(tick, todo), status, log, DialFailed(err), Waiting(tick),
              AfterSsh(status, todo, ssh), log);
    case Answered(answers) =>
      ActFrom(s, syntax, name, i, Dialing(tick, todo), status, log, DialOk, Querying(tick, todo),
              status, log);
      QueriesAlone(s, syntax, name, i, tick, todo, status, log, answers);
      AloneThen(Moved(s, name, i, Dialing(tick, todo), status, log), syntax, name, i, [DialOk],
                Moved(s, name, i, Querying(tick, todo), status, log), Queries(answers),
                Moved(s, name, i, Waiting(tick), AfterSsh(status, todo, ssh), log));
  }

  /** The acts up to the SSH checks. */
  function PingActs(name: string, s: Status, at: Time, ping: Ping): seq<Act>
  {
    [Commit] + ([Observe] + if Changes(name, s, at, ping) == [] then [] else [Report])
  }

  lemma Unmoved(s: State, name: string, i: nat)
    requires i < |Workers(s, name)| && name in s.statuses
    ensures Moved(s, name, i, Workers(s, name)[i].pc, s.statuses[name], s.log) == s
  {
    var ws := Workers(s, name);
    assert ws[i := ws[i].(pc := ws[i].pc)] == ws;
  }

  lemma ObserveAlone(s: State, syntax: Syntax, name: string, i: nat, tick: nat, host: Host,
                     ping: Ping, before: Status, after: Status)
    requires i < |Workers(s, name)|
    ensures var change := Change(name, before.reachable, after);
            Alone(Moved(s, name, i, Pc.Updated(tick, host, ping, before.reachable), after, s.log),
                  syntax, name, i, [Observe] + if change == [] then [] else [Report],
                  Moved(s, name, i, AfterPing(tick, host, ping), after,
                        Recorded(s.log, change, 0)))
  {
    var p1, p3 := Pc.Updated(tick, host, ping, before.reachable), AfterPing(tick, host, ping);
    if after.reachable == before.reachable {
      ActFrom(s, syntax, name, i, p1, after, s.log, Observe, p3, after, s.log);
      assert [Observe] + [] == [Observe];
    } else {
      var e := StateChange(name, before.reachable, after);
      var p2, log := Reporting(tick, host, ping, e), s.log + [e.(id := |s.log| + 1)];
      ActFrom(s, syntax, name, i, p1, after, s.log, Observe, p2, after, s.log);
      ActFrom(s, syntax, name, i, p2, after, s.log, Report, p3, after, log);
      AloneThen(Moved(s, name, i, p1, after, s.log), syntax, name, i, [Observe],
                Moved(s, name, i, p2, after, s.log), [Report],
                Moved(s, name, i, p3, after, log));
    }
  }

  lemma PingAlone(s: State, syntax: Syntax, name: string, i: nat, tick: nat, host: Host, at: Time,
                  ping: Ping)
    requires i < |Workers(s, name)| && name in s.statuses
    requires Workers(s, name)[i].pc == Pinged(tick, host, at, ping)
    ensures var before := s.statuses[name];
            Alone(s, syntax, name, i, PingActs(name, before, at, ping),
                  Moved(s, name, i, AfterPing(tick, host, ping),
                        Stamp(before, ApplyPing(before, at, ping)),
                        Recorded(s.log, Changes(name, before, at, ping), 0)))
  {
    var before := s.statuses[name];
    var after := Stamp(before, ApplyPing(before, at, ping));
    var p0, p1 := Pinged(tick, host, at, ping), Pc.Updated(tick, host, ping, before.reachable);
    Unmoved(s, name, i);
    ActFrom(s, syntax, name, i, p0, before, s.log, Commit, p1, after, s.log);
    ObserveAlone(s, syntax, name, i, tick, host, ping, before, after);
    AloneThen(s, syntax, name, i, [Commit], Moved(s, name, i, p1, after, s.log),
              [Observe] + (if Changes(name, before, at, ping) == [] then [] else [Report]),
              Moved(s, name, i, AfterPing(tick, host, ping), after,
                    Recorded(s.log, Changes(name, before, at, ping), 0)));
  }

  /** All acts of a pass, from the answer to the ping on. */
  function PassActs(name: string, s: Status, at: Time, ping: Ping, todo: seq<string>, ssh: Ssh)
      : seq<Act>
  {
    PingActs(name, s, at, ping) + if ping == Ping.Reachable && todo != [] then SshActs(ssh) else []
  }

  /** Left alone after its ping, a worker can run to the end of its pass, and then the host's
      status and the log are what the sequential pass says; nothing else has changed but the
      worker's own position. */
  lemma PassAlone(s: State, syntax: Syntax, name: string, i: nat, tick: nat, host: Host, at: Time,
                  ping: Ping, ssh: Ssh)
    requires i < |Workers(s, name)| && name in s.statuses
    requires Workers(s, name)[i].pc == Pinged(tick, host, at, ping)
    requires Fits(ssh, Schedule.Due(host, tick))
    ensures var before, todo := s.statuses[name], Schedule.Due(host, tick);
            Alone(s, syntax, name, i, PassActs(name, before, at, ping, todo, ssh),
                  Moved(s, name, i, Waiting(tick), Pass(before, at, ping, todo, ssh),
                        Recorded(s.log, Changes(name, before, at, ping), 0)))
  {
    var before, todo := s.statuses[name], Schedule.Due(host, tick);
    var after := Stamp(before, ApplyPing(before, at, ping));
    var log := Recorded(s.log, Changes(name, before, at, ping), 0);
    PingAlone(s, syntax, name, i, tick, host, at, ping);
    var pings := PingActs(name, before, at, ping);
    if ping == Ping.Reachable && todo != [] {
      SshAlone(s, syntax, name, i, tick, todo, after, log, ssh);
      AloneThen(s, syntax, name, i, pings, Moved(s, name, i, Dialing(tick, todo), after, log),
                SshActs(ssh), Moved(s, name, i, Waiting(tick), AfterSsh(after, todo, ssh), log));
    } else {
      assert pings + [] == pings;
    }
  }

  lemma {:induction false} QueriedKeeps(s: Status, todo: seq<string>,
                                        answers: seq<Option<Readings>>)
    requires |answers| == |todo|
    ensures var t := Queried(s, todo, answers);
            && t.reachable == s.reachable && t.name == s.name && t.lastErr == s.lastErr
            && t.lastChecked == s.lastChecked && t.lastChange == s.lastChange
    decreases |todo|
  {
    if todo != [] {
      var t := if answers[0].Some? then Stamp(s, ApplyReading(s, todo[0], answers[0].value)) else s;
      QueriedKeeps(t, todo[1..], answers[1..]);
    }
  }

  /** Whatever the ping and the checks say, a pass that ends in Down ends with nothing left
      from the checks, and it reports a change exactly when it made one. */
  lemma PassClearsDown(name: string, s: Status, at: Time, ping: Ping, todo: seq<string>, ssh: Ssh)
    requires Fits(ssh, todo)
    ensures var t := Pass(s, at, ping, todo, ssh);
            && (t.reachable == Down ==> t.uptime == 0 && t.load == NO_LOAD && t.memory == NO_MEM
                                        && t.disks == [])
            && (Changes(name, s, at, ping) != [] <==> t.reachable != s.reachable)
            && t.name == s.name && t.lastChecked == at
            && t.lastChange == if t.reachable != s.reachable then at else s.lastChange
  {
    if ping == Ping.Reachable && todo != [] && ssh.Answered? {
      QueriedKeeps(Stamp(s, ApplyPing(s, at, ping)), todo, ssh.answers);
    }
  }
}
