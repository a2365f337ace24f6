/** Which SSH checks run on which tick (internal/monitor/monitor.go, dueSSHChecks). */
module Schedule {
  import opened Seqs
  import opened Config
  import ConfigLoad

  const UPTIME := "uptime"
  const LOAD := "load"
  const MEMORY := "memory"
  const DISK := "disk"
  const SSH_CHECKS := [UPTIME, LOAD, MEMORY, DISK]

  /** `h.Checks[name]`: an absent entry reads as disabled. */
  function Lookup(h: Host, name: string): Check
  {
    if name in h.checks then h.checks[name] else Check(false, 0)
  }

  function Period(chk: Check): (n: nat)
    ensures n >= 1
  {
    if chk.every > 1 then chk.every else 1
  }

  predicate IsDue(h: Host, name: string, tick: nat)
  {
    Lookup(h, name).enabled && tick % Period(Lookup(h, name)) == 0
  }

  /** The checks due on a tick, in their fixed order. */
  function Due(h: Host, tick: nat): seq<string>
  {
    Filter(SSH_CHECKS, name => IsDue(h, name, tick))
  }

  method DueSshChecks(h: Host, tick: nat) returns (out: seq<string>)
    ensures out == Due(h, tick)
    ensures out == Filter(["uptime", "load", "memory", "disk"], name => IsDue(h, name, tick))
  {
    ghost var keep := name => IsDue(h, name, tick);
    out := [];
    for i := 0 to |SSH_CHECKS|
      invariant out == Filter(SSH_CHECKS[..i], keep)
    {
      FilterAppend(SSH_CHECKS[..i], SSH_CHECKS[i], keep);
      assert SSH_CHECKS[..i] + [SSH_CHECKS[i]] == SSH_CHECKS[..i + 1];
      var chk := Lookup(h, SSH_CHECKS[i]);
      if !chk.enabled {
        continue;
      }
      var every := if chk.every > 1 then chk.every else 1;
      if tick % every == 0 {
        out := out + [SSH_CHECKS[i]];
      }
    }
    assert SSH_CHECKS[..|SSH_CHECKS|] == SSH_CHECKS;
  }

  /** How often the check is due in ticks 1..ticks. */
  function TimesDue(h: Host, name: string, ticks: nat): nat
  {
    if ticks == 0 then 0
    else TimesDue(h, name, ticks - 1) + if IsDue(h, name, ticks) then 1 else 0
  }

  lemma DivModUnique(a: nat, n: nat, q: nat, r: nat)
    requires r < n && a == q * n + r
    ensures a / n == q && a % n == r
  {
    var d := a / n - q;
    assert a == a / n * n + a % n;
    assert d * n == r - a % n;
  }

  lemma NextQuotient(t: nat, n: nat)
    requires n >= 1
    ensures (t + 1) / n == t / n + if (t + 1) % n == 0 then 1 else 0
  {
    var q, r := t / n, t % n;
    assert t == q * n + r;
    if r + 1 < n {
      DivModUnique(t + 1, n, q, r + 1);
    } else {
      assert t + 1 == (q + 1) * n + 0;
      DivModUnique(t + 1, n, q + 1, 0);
    }
  }

  /** An enabled check of period N is due floor(T / N) times in ticks 1..T, where anything below
      one counts as one; a disabled one, and one without an entry, never is. */
  lemma {:induction false} DueExactly(h: Host, name: string, ticks: nat)
    ensures TimesDue(h, name, ticks)
         == if name in h.checks && h.checks[name].enabled
            then ticks / (if h.checks[name].every < 1 then 1 else h.checks[name].every) else 0
  {
    if ticks > 0 {
      DueExactly(h, name, ticks - 1);
      NextQuotient(ticks - 1, Period(Lookup(h, name)));
    }
  }

  lemma DueQuotient(h: Host, name: string, ticks: nat, n: nat)
    requires name in h.checks && h.checks[name].enabled && n == Period(h.checks[name])
    ensures TimesDue(h, name, ticks) == ticks / n
  {
    DueExactly(h, name, ticks);
  }

  lemma OneMore(t: nat, n: nat)
    requires n >= 1
    ensures (t + n) / n == t / n + 1
  {
    assert t + n == (t / n + 1) * n + t % n;
    DivModUnique(t + n, n, t / n + 1, t % n);
  }

  /** Any N consecutive ticks contain exactly one that is due. */
  lemma DueOncePerPeriod(h: Host, name: string, start: nat)
    requires name in h.checks && h.checks[name].enabled
    ensures var n := Period(h.checks[name]);
            TimesDue(h, name, start + n) == TimesDue(h, name, start) + 1
  {
    var n := Period(h.checks[name]);
    DueQuotient(h, name, start, n);
    DueQuotient(h, name, start + n, n);
    OneMore(start, n);
  }

  /** Exactly the due checks are listed, each once. */
  lemma DueMembers(h: Host, tick: nat, name: string)
    ensures name in Due(h, tick) <==> name in SSH_CHECKS && IsDue(h, name, tick)
  {
    FilterMember(SSH_CHECKS, n => IsDue(h, n, tick), name);
  }

  lemma {:induction false} FilterSame(s: seq<string>, f: string -> bool, g: string -> bool)
    requires forall x :: f(x) == g(x)
    ensures Filter(s, f) == Filter(s, g)
    decreases |s|
  {
    if s != [] {
      FilterSame(s[..|s| - 1], f, g);
    }
  }

  /** The defaulting pass of the loader never changes the schedule. */
  lemma DefaultsKeepSchedule(h: Host, home: ConfigLoad.Home, tick: nat)
    ensures Due(ConfigLoad.DefaultedHost(h, home), tick) == Due(h, tick)
  {
    var d := ConfigLoad.DefaultedHost(h, home);
    forall name ensures IsDue(d, name, tick) == IsDue(h, name, tick) {}
    FilterSame(SSH_CHECKS, n => IsDue(d, n, tick), n => IsDue(h, n, tick));
  }
}
