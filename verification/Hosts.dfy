/** The status registry of internal/hosts/hosts.go. */
module Hosts {
  import PubSub

  datatype Reachability = Unknown | Down | Up
  {
    function ToString(): (s: string)
      ensures s == "up" || s == "down" || s == "unknown"
    {
      match this
      case Up => "up"
      case Down => "down"
      case Unknown => "unknown"
    }
  }

  lemma ToStringInjective(a: Reachability, b: Reachability)
    requires a.ToString() == b.ToString()
    ensures a == b
  {
    assert "up"[0] == 'u' && |"up"| == 2 && |"down"| == 4 && |"unknown"| == 7;
  }

  /** Nanoseconds; the zero value of `time.Time` is 0. */
  type Time = int

  datatype LoadInfo = LoadInfo(one: real, five: real, fifteen: real)
  datatype MemInfo = MemInfo(totalKB: int, availableKB: int)
  datatype DiskInfo = DiskInfo(mount: string, fsType: string, usedPct: int)

  const NO_LOAD := LoadInfo(0.0, 0.0, 0.0)
  const NO_MEM := MemInfo(0, 0)

  datatype Status = Status(name: string, reachable: Reachability, lastChecked: Time,
                           lastChange: Time, lastErr: string, uptime: int, load: LoadInfo,
                           memory: MemInfo, disks: seq<DiskInfo>)

  const ZERO_STATUS := Status("", Unknown, 0, 0, "", 0, NO_LOAD, NO_MEM, [])

  function NewStatus(name: string): Status { ZERO_STATUS.(name := name) }

  /** What Update stores when the mutator turned `before` into `mutated`. */
  function Stamp(before: Status, mutated: Status): Status
  {
    if mutated.reachable != before.reachable then mutated.(lastChange := mutated.lastChecked)
    else mutated
  }

  // ---- the registry as a value, and its history ------------------------------------

  /** What was done to a registry: a Register call, or an Update of a registered host that
      produced `mutated`. */
  datatype Op = Registered(name: string) | Updated(name: string, mutated: Status)

  datatype Table = Table(statuses: map<string, Status>, order: seq<string>)
  {
    function Register(name: string): Table
    {
      if name in statuses then this
      else Table(statuses[name := NewStatus(name)], order + [name])
    }

    function Update(name: string, mutated: Status): Table
    {
      if name in statuses then this.(statuses := statuses[name := Stamp(statuses[name], mutated)])
      else this
    }

    function Apply(op: Op): Table
    {
      match op
      case Registered(name) => Register(name)
      case Updated(name, mutated) => Update(name, mutated)
    }
  }

  function Replay(history: seq<Op>): Table
  {
    if history == [] then Table(map[], [])
    else Replay(history[..|history| - 1]).Apply(history[|history| - 1])
  }

  lemma ReplayAppend(history: seq<Op>, op: Op)
    ensures Replay(history + [op]) == Replay(history).Apply(op)
  {
    assert (history + [op])[..|history|] == history;
  }

  /** Index of the first Register of `name`, or |history|. */
  function FirstRegistration(history: seq<Op>, name: string): (i: nat)
    ensures i <= |history|
    ensures i < |history| ==> history[i] == Registered(name)
    ensures forall j :: 0 <= j < i ==> history[j] != Registered(name)
  {
    if history == [] || history[0] == Registered(name) then 0
    else 1 + FirstRegistration(history[1..], name)
  }

  lemma FirstRegistrationAt(history: seq<Op>, name: string, i: nat)
    requires i < |history| && history[i] == Registered(name)
    requires forall j :: 0 <= j < i ==> history[j] != Registered(name)
    ensures FirstRegistration(history, name) == i
  {
  }

  lemma FirstRegistrationAppend(history: seq<Op>, op: Op, name: string)
    ensures FirstRegistration(history, name) < |history|
        ==> FirstRegistration(history + [op], name) == FirstRegistration(history, name)
    ensures FirstRegistration(history, name) == |history| && op == Registered(name)
        ==> FirstRegistration(history + [op], name) == |history|
  {
    var i := FirstRegistration(history, name);
    if i < |history| || op == Registered(name) {
      FirstRegistrationAt(history + [op], name, i);
    }
  }

  ghost predicate NoDuplicates(s: seq<string>)
  {
    forall i, j :: 0 <= i < j < |s| ==> s[i] != s[j]
  }

  ghost predicate InFirstOrder(history: seq<Op>, order: seq<string>)
  {
    forall i, j :: 0 <= i < j < |order| ==>
      FirstRegistration(history, order[i]) < FirstRegistration(history, order[j])
  }

  /** The listed, the stored and the registered names are the same names. */
  lemma {:induction false} RegisteredExactly(history: seq<Op>, name: string)
    ensures name in Replay(history).order <==> name in Replay(history).statuses
    ensures name in Replay(history).statuses <==> FirstRegistration(history, name) < |history|
    decreases |history|
  {
    if history != [] {
      var before, op := history[..|history| - 1], history[|history| - 1];
      assert history == before + [op];
      RegisteredExactly(before, name);
      FirstRegistrationAppend(before, op, name);
    }
  }

  /** The order lists the registered names once each, by first registration. */
  lemma {:induction false} OrderIsFirstRegistration(history: seq<Op>)
    ensures InFirstOrder(history, Replay(history).order)
    ensures NoDuplicates(Replay(history).order)
    decreases |history|
  {
    if history != [] {
      var before, op := history[..|history| - 1], history[|history| - 1];
      var listed, relisted := Replay(before).order, Replay(history).order;
      assert history == before + [op];
      OrderIsFirstRegistration(before);
      forall i, j | 0 <= i < j < |relisted|
        ensures FirstRegistration(history, relisted[i]) < FirstRegistration(history, relisted[j])
      {
        assert relisted[i] in listed;
        RegisteredExactly(before, relisted[i]);
        RegisteredExactly(before, relisted[j]);
        FirstRegistrationAppend(before, op, relisted[i]);
        FirstRegistrationAppend(before, op, relisted[j]);
        if j < |listed| {
          assert relisted[j] in listed;
        }
      }
    }
  }

  /** Reachability as the latest Update of `name` left it. */
  function LatestReachability(history: seq<Op>, name: string): Reachability
  {
    if history == [] then Unknown
    else
      var op := history[|history| - 1];
      if op.Updated? && op.name == name then op.mutated.reachable
      else LatestReachability(history[..|history| - 1], name)
  }

  /** Operation k is an Update of `name` that changed its reachability. */
  predicate IsTransition(history: seq<Op>, k: nat, name: string)
    requires k < |history|
  {
    && history[k].Updated? && history[k].name == name
    && history[k].mutated.reachable != LatestReachability(history[..k], name)
  }

  /** What a mutator leaves to the registry. */
  predicate KeepsIdentity(before: Status, mutated: Status)
  {
    mutated.name == before.name && mutated.lastChange == before.lastChange
  }

  /** Updates touch registered hosts only, and mutators keep Name and LastChange. */
  ghost predicate Disciplined(history: seq<Op>)
  {
    forall k :: 0 <= k < |history| && history[k].Updated? ==>
      && history[k].name in Replay(history[..k]).statuses
      && KeepsIdentity(Replay(history[..k]).statuses[history[k].name], history[k].mutated)
  }

  lemma DisciplinedAppend(history: seq<Op>, op: Op)
    ensures Disciplined(history)
            && (op.Updated? ==> op.name in Replay(history).statuses
                                && KeepsIdentity(Replay(history).statuses[op.name], op.mutated))
            ==> Disciplined(history + [op])
  {
    assert (history + [op])[..|history|] == history;
    forall k | 0 <= k < |history| ensures (history + [op])[..k] == history[..k] {}
  }

  /** k is the latest transition of `name`. */
  ghost predicate IsLatestTransition(history: seq<Op>, k: nat, name: string)
    requires k < |history|
  {
    && IsTransition(history, k, name)
    && forall j :: k < j < |history| ==> !IsTransition(history, j, name)
  }

  lemma DisciplinedPrefix(history: seq<Op>, n: nat)
    requires Disciplined(history) && n <= |history|
    ensures Disciplined(history[..n])
  {
    forall k | 0 <= k < n ensures history[..n][..k] == history[..k] {}
  }

  lemma {:induction false} ReachabilityReplayed(history: seq<Op>, name: string)
    requires Disciplined(history)
    ensures name in Replay(history).statuses ==>
              && Replay(history).statuses[name].name == name
              && Replay(history).statuses[name].reachable == LatestReachability(history, name)
    ensures name !in Replay(history).statuses ==> LatestReachability(history, name) == Unknown
    decreases |history|
  {
    if history != [] {
      DisciplinedPrefix(history, |history| - 1);
      ReachabilityReplayed(history[..|history| - 1], name);
    }
  }

  lemma TransitionPrefix(history: seq<Op>, n: nat, k: nat, name: string)
    requires k < n <= |history|
    ensures IsTransition(history[..n], k, name) <==> IsTransition(history, k, name)
  {
    assert history[..n][..k] == history[..k];
  }

  lemma {:induction false} StatusesGrow(history: seq<Op>, n: nat)
    requires n <= |history|
    ensures Replay(history[..n]).statuses.Keys <= Replay(history).statuses.Keys
    decreases |history| - n
  {
    if n < |history| {
      assert history[..n + 1][..n] == history[..n];
      StatusesGrow(history, n + 1);
    } else {
      assert history[..n] == history;
    }
  }

  lemma UpdatedWasRegistered(history: seq<Op>, k: nat)
    requires Disciplined(history) && k < |history| && history[k].Updated?
    ensures history[k].name in Replay(history).statuses
  {
    StatusesGrow(history, k);
  }

  /** LastChange is the LastChecked of the latest Update that changed reachability, however
      many other Updates came after it, and zero when there was none. */
  lemma {:induction false} LastChangeIsLatestTransition(history: seq<Op>, name: string)
    requires Disciplined(history) && name in Replay(history).statuses
    ensures forall k :: 0 <= k < |history| && IsLatestTransition(history, k, name)
              ==> Replay(history).statuses[name].lastChange == history[k].mutated.lastChecked
    ensures (forall k :: 0 <= k < |history| ==> !IsTransition(history, k, name))
              ==> Replay(history).statuses[name].lastChange == 0
    decreases |history|
  {
    var n := |history| - 1;
    var before, op := history[..n], history[n];
    DisciplinedPrefix(history, n);
    forall k | 0 <= k < n ensures IsTransition(before, k, name) <==> IsTransition(history, k, name) {
      TransitionPrefix(history, n, k, name);
    }
    ReachabilityReplayed(before, name);
    if name in Replay(before).statuses {
      LastChangeIsLatestTransition(before, name);
    } else {
      forall k | 0 <= k < n ensures !IsTransition(before, k, name) {
        if before[k].Updated? && before[k].name == name {
          UpdatedWasRegistered(before, k);
          assert false;
        }
      }
    }
    if IsTransition(history, n, name) {
      assert forall k :: 0 <= k < n ==> !IsLatestTransition(history, k, name);
    } else {
      forall k | 0 <= k < n && IsLatestTransition(history, k, name)
        ensures IsLatestTransition(before, k, name) {}
    }
  }

  // ---- the registry as a mutable object --------------------------------------------

  class Registry {
    var statuses: map<string, Status>
    var order: seq<string>
    const subs: PubSub.Subscribers<Status>
    ghost var history: seq<Op>

    ghost predicate Valid()
      reads this, subs, subs.subs
    {
      subs.Valid() && subs.cap == 16 && Table(statuses, order) == Replay(history)
    }

    constructor ()
      ensures Valid() && fresh(subs) && subs.subs == {}
      ensures statuses == map[] && order == [] && history == []
    {
      statuses, order, history := map[], [], [];
      subs := new PubSub.Subscribers(16);
    }

    method Register(name: string)
      requires Valid()
      modifies this
      ensures Valid() && history == old(history) + [Registered(name)]
      ensures Table(statuses, order) == old(Table(statuses, order)).Register(name)
      ensures old(Disciplined(history)) ==> Disciplined(history)
    {
      ReplayAppend(history, Registered(name));
      DisciplinedAppend(history, Registered(name));
      history := history + [Registered(name)];
      if name in statuses {
        return;
      }
      statuses := statuses[name := NewStatus(name)];
      order := order + [name];
    }

    method Get(name: string) returns (status: Status, ok: bool)
      ensures ok == (name in statuses)
      ensures status == if ok then statuses[name] else ZERO_STATUS
    {
      ok := name in statuses;
      status := if ok then statuses[name] else ZERO_STATUS;
    }

    /** Statuses in registration order. */
    method Snapshot() returns (out: seq<Status>)
      requires Valid()
      ensures |out| == |order|
      ensures forall i :: 0 <= i < |order| ==>
                order[i] in statuses && out[i] == statuses[order[i]]
    {
      out := [];
      for i := 0 to |order|
        invariant |out| == i
        invariant forall j :: 0 <= j < i ==> order[j] in statuses && out[j] == statuses[order[j]]
      {
        assert order[i] in order;
        RegisteredExactly(history, order[i]);
        out := out + [statuses[order[i]]];
      }
    }

    /** Mutate one status under the lock, stamp a change, and publish the result to every
        subscriber; a no-op for a host that is not registered. */
    method Update(name: string, mutate: Status -> Status) returns (prev: Reachability, ok: bool)
      requires Valid()
      modifies this, subs.subs
      ensures Valid() && ok == (name in old(statuses))
      ensures prev == if ok then old(statuses)[name].reachable else Unknown
      ensures ok ==> history == old(history) + [Updated(name, mutate(old(statuses)[name]))]
      ensures ok ==> (Table(statuses, order)
                      == old(Table(statuses, order)).Update(name, mutate(old(statuses)[name])))
      ensures ok ==> forall ch :: ch in subs.subs ==>
                       ch.queue == old(ch.queue).Offer(statuses[name])
      ensures !ok ==> statuses == old(statuses) && order == old(order) && history == old(history)
      ensures !ok ==> forall ch :: ch in subs.subs ==> ch.queue == old(ch.queue)
      ensures old(Disciplined(history))
              && (ok ==> KeepsIdentity(old(statuses)[name], mutate(old(statuses)[name])))
              ==> Disciplined(history)
    {
      if name !in statuses {
        return Unknown, false;
      }
      var s := statuses[name];
      prev := s.reachable;
      var mutated := mutate(s);
      ReplayAppend(history, Updated(name, mutated));
      DisciplinedAppend(history, Updated(name, mutated));
      history := history + [Updated(name, mutated)];
      s := mutated;
      if s.reachable != prev {
        s := s.(lastChange := s.lastChecked);
      }
      statuses := statuses[name := s];
      subs.Publish(s);
      ok := true;
    }
  }
}
