/** The maintenance-certificate cache of internal/sshx/manager.go: checked in one critical
    section, filled in another, with clock readings, TTL reads, reloads and other callers
    in between. */
module CertCache {
  import opened Text
  import opened SshCa

  datatype Entry = Entry(cert: Certificate, expires: int)

  const NUL: char := 0 as char

  function Key(host: string, user: string): string { host + [NUL] + user }

  function MaintenanceKeyId(host: string, user: string): string
  {
    "maint host=" + host + " user=" + user
  }

  function MaintenanceOptions(host: string, user: string, ttl: int): CertOptions
  {
    CertOptions(MaintenanceKeyId(host, user), [user], ttl * SECOND, "", false, false, false, false)
  }

  /** `now.Add(ttl / 2).Before(expires)`; the halved duration is a whole number of
      nanoseconds, so Go's truncation plays no role. */
  predicate Fresh(e: Entry, now: int, ttl: int)
  {
    now + ttl * SECOND / 2 < e.expires
  }

  /** The second host extends the first over a NUL, and the first user extends the second. */
  ghost predicate Straddles(host: string, user: string, host': string, user': string)
  {
    exists x: string :: host' == host + [NUL] + x && user == x + [NUL] + user'
  }

  lemma LongerHostStraddles(host: string, user: string, host': string, user': string)
    requires Key(host, user) == Key(host', user') && |host| < |host'|
    ensures Straddles(host, user, host', user')
  {
    var k, n, m := Key(host, user), |host|, |host'|;
    var x := k[n + 1..m];
    assert host' == k[..m] && host == k[..n] && k[n] == NUL && k[m] == NUL;
    assert host' == host + [NUL] + x;
    assert user == k[n + 1..] && user' == k[m + 1..];
    assert user == x + [NUL] + user';
  }

  lemma StraddlersCollide(host: string, user: string, host': string, user': string)
    requires Straddles(host, user, host', user')
    ensures Key(host, user) == Key(host', user') && |host| < |host'| && |user| > |user'|
    ensures NUL in host' && NUL in user
  {
    var x: string :| host' == host + [NUL] + x && user == x + [NUL] + user';
    assert host + [NUL] + (x + [NUL] + user') == host + [NUL] + x + [NUL] + user';
    assert host'[|host|] == NUL && user[|x|] == NUL;
  }

  /** The cache key confuses two different pairs exactly when a NUL in one host and a NUL in
      the other user line up. */
  lemma KeyAmbiguous(host: string, user: string, host': string, user': string)
    ensures Key(host, user) == Key(host', user') && (host != host' || user != user')
       <==> Straddles(host, user, host', user') || Straddles(host', user', host, user)
  {
    if Key(host, user) == Key(host', user') {
      if |host| < |host'| {
        LongerHostStraddles(host, user, host', user');
      } else if |host'| < |host| {
        LongerHostStraddles(host', user', host, user);
      } else {
        var k, n := Key(host, user), |host|;
        assert host == k[..n] == host' && user == k[n + 1..] == user';
      }
    }
    if Straddles(host, user, host', user') {
      StraddlersCollide(host, user, host', user');
    }
    if Straddles(host', user', host, user) {
      StraddlersCollide(host', user', host, user);
    }
  }

  /** So hosts without NUL, or users without NUL, are enough for it to determine both. */
  lemma KeyDetermines(host: string, user: string, host': string, user': string)
    requires (NUL !in host && NUL !in host') || (NUL !in user && NUL !in user')
    ensures Key(host, user) == Key(host', user') <==> host == host' && user == user'
  {
    KeyAmbiguous(host, user, host', user');
    if Straddles(host, user, host', user') {
      StraddlersCollide(host, user, host', user');
    }
    if Straddles(host', user', host, user) {
      StraddlersCollide(host', user', host, user);
    }
  }

  // ---- concurrent callers ----------------------------------------------------------

  /** Where one call of maintenanceCertSigner stands. */
  datatype Call =
    | Started(host: string, user: string, now: int)
    | LookedUp(host: string, user: string, now: int, found: Option<Entry>)
    | Missed(host: string, user: string, now: int)
    | TtlRead(host: string, user: string, now: int, ttl: int)
    | Signed(host: string, user: string, now: int, ttl: int, cert: Certificate)
    | Hit(host: string, user: string, now: int, ttl: int, cert: Certificate)
    | Minted(host: string, user: string, now: int, ttl: int, cert: Certificate)

  /** `ttl` is the maintenance TTL of the current configuration, in seconds. */
  datatype State = State(clock: int, ttl: int, cache: map<string, Entry>, calls: map<nat, Call>)

  datatype Step =
    | Tick(elapsed: nat)
    | Reload(ttl: int)
    | Begin(id: nat, host: string, user: string)
    | Lookup(id: nat)
    | Decide(id: nat)
    | ReadTtl(id: nat)
    | Sign(id: nat)
    | Store(id: nat)

  predicate Enabled(s: State, step: Step)
  {
    match step
    case Tick(_) => true
    case Reload(_) => true
    case Begin(id, _, _) => id !in s.calls
    case Lookup(id) => id in s.calls && s.calls[id].Started?
    case Decide(id) => id in s.calls && s.calls[id].LookedUp?
    case ReadTtl(id) => id in s.calls && s.calls[id].Missed?
    case Sign(id) => id in s.calls && s.calls[id].TtlRead?
    case Store(id) => id in s.calls && s.calls[id].Signed?
  }

  function Decided(c: Call, ttl: int): Call
    requires c.LookedUp?
  {
    if c.found.Some? && Fresh(c.found.value, c.now, ttl)
    then Hit(c.host, c.user, c.now, ttl, c.found.value.cert)
    else Missed(c.host, c.user, c.now)
  }

  function Next(s: State, step: Step): State
    requires Enabled(s, step)
  {
    match step
    case Tick(elapsed) => s.(clock := s.clock + elapsed)
    case Reload(ttl) => s.(ttl := ttl)
    case Begin(id, host, user) => s.(calls := s.calls[id := Started(host, user, s.clock)])
    case Lookup(id) =>
      var c := s.calls[id];
      var key := Key(c.host, c.user);
      var found := if key in s.cache then Some(s.cache[key]) else None;
      s.(calls := s.calls[id := LookedUp(c.host, c.user, c.now, found)])
    case Decide(id) => s.(calls := s.calls[id := Decided(s.calls[id], s.ttl)])
    case ReadTtl(id) =>
      var c := s.calls[id];
      s.(calls := s.calls[id := TtlRead(c.host, c.user, c.now, s.ttl)])
    case Sign(id) =>
      var c := s.calls[id];
      var cert := SignUserCert(MaintenanceOptions(c.host, c.user, c.ttl), s.clock).value;
      s.(calls := s.calls[id := Signed(c.host, c.user, c.now, c.ttl, cert)])
    case Store(id) =>
      var c := s.calls[id];
      s.(cache := s.cache[Key(c.host, c.user) := Entry(c.cert, c.now + c.ttl * SECOND)],
         calls := s.calls[id := Call.Minted(c.host, c.user, c.now, c.ttl, c.cert)])
  }

  /** At any moment time may pass, the TTL may be reloaded and a new call may begin. */
  lemma AtAnyMoment(s: State, elapsed: nat, ttl: int, id: nat, host: string, user: string)
    requires id !in s.calls
    ensures Enabled(s, Tick(elapsed)) && Next(s, Tick(elapsed)).clock == s.clock + elapsed
    ensures Enabled(s, Reload(ttl)) && Next(s, Reload(ttl)).ttl == ttl
    ensures Enabled(s, Begin(id, host, user)) && id in Next(s, Begin(id, host, user)).calls
  {
  }

  /** The state after a run of steps, or None if one of them was not enabled. */
  function After(clock: int, ttl: int, steps: seq<Step>): Option<State>
    decreases |steps|
  {
    if steps == [] then Some(State(clock, ttl, map[], map[]))
    else
      match After(clock, ttl, steps[..|steps| - 1])
      case None => None
      case Some(s) =>
        if Enabled(s, steps[|steps| - 1]) then Some(Next(s, steps[|steps| - 1])) else None
  }

  /** The certificate was minted for this host and user: a user certificate that names both,
      forces no command and permits all that a login may need. */
  predicate MintedFor(cert: Certificate, host: string, user: string)
  {
    && cert.certType == UserCert && cert.principals == [user]
    && cert.keyId == "maint host=" + host + " user=" + user
    && cert.permissions.criticalOptions == map[]
    && cert.permissions.extensions == map["permit-pty" := "", "permit-port-forwarding" := "",
                                          "permit-X11-forwarding" := "",
                                          "permit-agent-forwarding" := ""]
  }

  /** The certificate outlives `expires` up to the truncation to whole seconds. */
  predicate Covers(cert: Certificate, expires: int)
  {
    cert.validBefore * SECOND > expires - SECOND
  }

  /** The entry was stored by this call, for a pair with this key. */
  predicate Origin(calls: map<nat, Call>, id: nat, key: string, e: Entry)
  {
    && id in calls && calls[id].Minted?
    && Key(calls[id].host, calls[id].user) == key
    && e == Entry(calls[id].cert, calls[id].now + calls[id].ttl * SECOND)
  }

  ghost predicate HasOrigin(calls: map<nat, Call>, key: string, e: Entry)
  {
    exists id :: Origin(calls, id, key, e)
  }

  /** The certificate was minted by some call for a pair with this key. */
  ghost predicate FromKey(calls: map<nat, Call>, key: string, cert: Certificate)
  {
    exists id :: id in calls && calls[id].Minted? && Key(calls[id].host, calls[id].user) == key
                 && calls[id].cert == cert
  }

  predicate OutlivesHalf(cert: Certificate, now: int, ttl: int)
  {
    cert.validBefore * SECOND - now > ttl * SECOND / 2 - SECOND
  }

  ghost predicate CallOk(calls: map<nat, Call>, c: Call, clock: int)
  {
    && c.now <= clock
    && match c
       case LookedUp(host, user, _, found) =>
         found.Some? ==> HasOrigin(calls, Key(host, user), found.value)
       case Signed(host, user, now, ttl, cert) =>
         MintedFor(cert, host, user) && Covers(cert, now + ttl * SECOND)
       case Minted(host, user, now, ttl, cert) =>
         MintedFor(cert, host, user) && Covers(cert, now + ttl * SECOND)
       case Hit(host, user, now, ttl, cert) =>
         FromKey(calls, Key(host, user), cert) && OutlivesHalf(cert, now, ttl)
       case _ => true
  }

  ghost predicate Invariant(s: State)
  {
    && (forall key :: key in s.cache ==> HasOrigin(s.calls, key, s.cache[key]))
    && (forall id :: id in s.calls ==> CallOk(s.calls, s.calls[id], s.clock))
  }

  lemma SignedCovers(host: string, user: string, ttl: int, started: int, now: int)
    requires started <= now
    ensures var cert := SignUserCert(MaintenanceOptions(host, user, ttl), now).value;
            MintedFor(cert, host, user) && Covers(cert, started + ttl * SECOND)
  {
  }

  /** Minted calls are over, so what came from them still does. */
  ghost predicate Grows(calls: map<nat, Call>, later: map<nat, Call>)
  {
    forall id :: id in calls && calls[id].Minted? ==> id in later && later[id] == calls[id]
  }

  lemma StepGrows(s: State, step: Step)
    requires Enabled(s, step)
    ensures Grows(s.calls, Next(s, step).calls)
  {
  }

  lemma OriginGrows(calls: map<nat, Call>, later: map<nat, Call>, key: string, e: Entry)
    requires Grows(calls, later) && HasOrigin(calls, key, e)
    ensures HasOrigin(later, key, e)
  {
    var id :| Origin(calls, id, key, e);
    assert Origin(later, id, key, e);
  }

  lemma CallOkGrows(calls: map<nat, Call>, later: map<nat, Call>, c: Call, clock: int,
                    clock': int)
    requires Grows(calls, later) && CallOk(calls, c, clock) && clock <= clock'
    ensures CallOk(later, c, clock')
  {
    match c
    case LookedUp(host, user, _, found) =>
      if found.Some? {
        OriginGrows(calls, later, Key(host, user), found.value);
      }
    case Hit(host, user, _, _, cert) =>
      var id :| id in calls && calls[id].Minted? && calls[id].cert == cert
                && Key(calls[id].host, calls[id].user) == Key(host, user);
      assert later[id] == calls[id];
    case _ =>
  }

  lemma DecidedHit(calls: map<nat, Call>, c: Call, ttl: int)
    requires c.LookedUp? && Decided(c, ttl).Hit? && HasOrigin(calls, Key(c.host, c.user), c.found.value)
    requires forall id :: id in calls && calls[id].Minted? ==>
               Covers(calls[id].cert, calls[id].now + calls[id].ttl * SECOND)
    ensures FromKey(calls, Key(c.host, c.user), c.found.value.cert)
    ensures OutlivesHalf(c.found.value.cert, c.now, ttl)
  {
    var id :| Origin(calls, id, Key(c.host, c.user), c.found.value);
    assert calls[id].cert == c.found.value.cert;
  }

  /** The call that a step is about. */
  lemma OwnCallOk(s: State, step: Step)
    requires Invariant(s) && Enabled(s, step) && !step.Tick? && !step.Reload?
    ensures CallOk(s.calls, Next(s, step).calls[step.id], s.clock)
  {
    if !step.Begin? {
      var c := s.calls[step.id];
      assert CallOk(s.calls, c, s.clock);
      if step.Sign? {
        SignedCovers(c.host, c.user, c.ttl, c.now, s.clock);
      } else if step.Decide? && Decided(c, s.ttl).Hit? {
        DecidedHit(s.calls, c, s.ttl);
      }
    }
  }

  lemma StepKeeps(s: State, step: Step)
    requires Invariant(s) && Enabled(s, step)
    ensures Invariant(Next(s, step))
  {
    var t := Next(s, step);
    StepGrows(s, step);
    forall id | id in t.calls ensures CallOk(t.calls, t.calls[id], t.clock) {
      if !step.Tick? && !step.Reload? && id == step.id {
        OwnCallOk(s, step);
        CallOkGrows(s.calls, t.calls, t.calls[id], s.clock, t.clock);
      } else {
        CallOkGrows(s.calls, t.calls, s.calls[id], s.clock, t.clock);
      }
    }
    forall key | key in t.cache ensures HasOrigin(t.calls, key, t.cache[key]) {
      if step.Store? && key == Key(s.calls[step.id].host, s.calls[step.id].user) {
        assert Origin(t.calls, step.id, key, t.cache[key]);
      } else {
        OriginGrows(s.calls, t.calls, key, s.cache[key]);
      }
    }
  }

  lemma {:induction false} RunKeeps(clock: int, ttl: int, steps: seq<Step>)
    requires After(clock, ttl, steps).Some?
    ensures Invariant(After(clock, ttl, steps).value)
    decreases |steps|
  {
    if steps != [] {
      RunKeeps(clock, ttl, steps[..|steps| - 1]);
      StepKeeps(After(clock, ttl, steps[..|steps| - 1]).value, steps[|steps| - 1]);
    }
  }

  /** Cache bound. In every run, a call answered from the cache hands out a certificate that
      some call minted for a pair with the same key, and that stays valid for more than half
      the maintenance TTL then configured, less one second, from the call's clock reading; a
      call that minted one gets it for its own pair, for the whole TTL it read less one second. */
  lemma CacheBound(clock: int, ttl: int, steps: seq<Step>, id: nat)
    requires After(clock, ttl, steps).Some?
    requires id in After(clock, ttl, steps).value.calls
    ensures var calls := After(clock, ttl, steps).value.calls;
            var c := calls[id];
            && (c.Hit? ==> FromKey(calls, Key(c.host, c.user), c.cert))
            && (c.Hit? ==> c.cert.validBefore * SECOND - c.now > c.ttl * SECOND / 2 - SECOND)
            && (c.Minted? ==> MintedFor(c.cert, c.host, c.user))
            && (c.Minted? ==> c.cert.validBefore * SECOND - c.now > c.ttl * SECOND - SECOND)
  {
    RunKeeps(clock, ttl, steps);
    assert CallOk(After(clock, ttl, steps).value.calls,
                  After(clock, ttl, steps).value.calls[id], After(clock, ttl, steps).value.clock);
  }

  /** No two calls are for different pairs with the same key. */
  ghost predicate Unambiguous(calls: map<nat, Call>)
  {
    forall i, j :: i in calls && j in calls
                   && Key(calls[i].host, calls[i].user) == Key(calls[j].host, calls[j].user)
      ==> calls[i].host == calls[j].host && calls[i].user == calls[j].user
  }

  /** Without colliding keys every certificate handed out is for the caller's own pair. */
  lemma CacheOwn(clock: int, ttl: int, steps: seq<Step>, id: nat)
    requires After(clock, ttl, steps).Some?
    requires id in After(clock, ttl, steps).value.calls
    requires Unambiguous(After(clock, ttl, steps).value.calls)
    ensures var c := After(clock, ttl, steps).value.calls[id];
            c.Hit? || c.Minted? ==> MintedFor(c.cert, c.host, c.user)
  {
    CacheBound(clock, ttl, steps, id);
    var calls := After(clock, ttl, steps).value.calls;
    var c := calls[id];
    if c.Hit? {
      var m :| m in calls && calls[m].Minted? && calls[m].cert == c.cert
               && Key(calls[m].host, calls[m].user) == Key(c.host, c.user);
      CacheBound(clock, ttl, steps, m);
    }
  }

  lemma AfterNext(clock: int, ttl: int, steps: seq<Step>, step: Step)
    requires After(clock, ttl, steps).Some? && Enabled(After(clock, ttl, steps).value, step)
    ensures After(clock, ttl, steps + [step])
         == Some(Next(After(clock, ttl, steps).value, step))
  {
    assert (steps + [step])[..|steps|] == steps;
  }

  /** One call that misses an empty cache... */
  lemma MissingRun(clock: int, ttl: int, host: string, user: string) returns (steps: seq<Step>)
    ensures After(clock, ttl, steps)
         == Some(State(clock, ttl, map[], map[0 := Missed(host, user, clock)]))
  {
    var s0 := State(clock, ttl, map[], map[]);
    assert After(clock, ttl, []) == Some(s0);
    AfterNext(clock, ttl, [], Begin(0, host, user));
    var s1 := s0.(calls := map[0 := Started(host, user, clock)]);
    assert Next(s0, Begin(0, host, user)) == s1;
    steps := [] + [Begin(0, host, user)];
    AfterNext(clock, ttl, steps, Lookup(0));
    var s2 := s0.(calls := map[0 := LookedUp(host, user, clock, None)]);
    assert Next(s1, Lookup(0)) == s2;
    steps := steps + [Lookup(0)];
    AfterNext(clock, ttl, steps, Decide(0));
    assert Next(s2, Decide(0)).calls == map[0 := Missed(host, user, clock)];
    steps := steps + [Decide(0)];
  }

  /** ...and mints. */
  lemma MintingRun(clock: int, ttl: int, host: string, user: string) returns (steps: seq<Step>)
    ensures var cert := SignUserCert(MaintenanceOptions(host, user, ttl), clock).value;
            After(clock, ttl, steps)
            == Some(State(clock, ttl, map[Key(host, user) := Entry(cert, clock + ttl * SECOND)],
                          map[0 := Call.Minted(host, user, clock, ttl, cert)]))
  {
    steps := MissingRun(clock, ttl, host, user);
    var s0 := State(clock, ttl, map[], map[0 := Missed(host, user, clock)]);
    AfterNext(clock, ttl, steps, ReadTtl(0));
    var s1 := s0.(calls := map[0 := TtlRead(host, user, clock, ttl)]);
    assert Next(s0, ReadTtl(0)) == s1;
    steps := steps + [ReadTtl(0)];
    AfterNext(clock, ttl, steps, Sign(0));
    var cert := SignUserCert(MaintenanceOptions(host, user, ttl), clock).value;
    var s2 := s0.(calls := map[0 := Signed(host, user, clock, ttl, cert)]);
    assert Next(s1, Sign(0)) == s2;
    steps := steps + [Sign(0)];
    AfterNext(clock, ttl, steps, Store(0));
    assert Next(s2, Store(0)).calls == map[0 := Call.Minted(host, user, clock, ttl, cert)];
    steps := steps + [Store(0)];
  }

  /** With colliding keys one can be handed a certificate for another pair: that the keys do
      not collide is not only enough but needed, for every pair and every positive TTL. */
  lemma CollisionMisleads(clock: int, ttl: int, host: string, user: string, host': string,
                          user': string)
    requires ttl > 0 && Key(host, user) == Key(host', user') && user != user'
    ensures exists steps, id ::
              && After(clock, ttl, steps).Some? && id in After(clock, ttl, steps).value.calls
              && var c := After(clock, ttl, steps).value.calls[id];
                 c.Hit? && c.host == host' && c.user == user' && c.cert.principals != [user']
  {
    var steps := MintingRun(clock, ttl, host, user);
    AfterNext(clock, ttl, steps, Begin(1, host', user'));
    var begun := steps + [Begin(1, host', user')];
    AfterNext(clock, ttl, begun, Lookup(1));
    var looked := begun + [Lookup(1)];
    AfterNext(clock, ttl, looked, Decide(1));
    var decided := looked + [Decide(1)];
    var c := After(clock, ttl, decided).value.calls[1];
    assert ttl * SECOND / 2 < ttl * SECOND;
    assert c.Hit? && c.cert.principals == [user] && [user][0] != [user'][0];
    assert c.host == host' && c.user == user' && c.cert.principals != [user'];
  }

  // ---- a constant TTL --------------------------------------------------------------

  ghost predicate NoReload(steps: seq<Step>)
  {
    forall i :: 0 <= i < |steps| ==> !steps[i].Reload?
  }

  ghost predicate SameTtl(s: State, ttl: int)
  {
    && s.ttl == ttl
    && forall id :: id in s.calls ==>
         (s.calls[id].TtlRead? || s.calls[id].Signed? || s.calls[id].Minted? ==> s.calls[id].ttl == ttl)
  }

  lemma {:induction false} RunSameTtl(clock: int, ttl: int, steps: seq<Step>)
    requires After(clock, ttl, steps).Some? && NoReload(steps)
    ensures SameTtl(After(clock, ttl, steps).value, ttl)
    decreases |steps|
  {
    if steps != [] {
      RunSameTtl(clock, ttl, steps[..|steps| - 1]);
      assert !steps[|steps| - 1].Reload?;
    }
  }

  /** On every run without a change of TTL, a call that finds an entry in the cache reuses it
      exactly if it started in the first half of the TTL, counted from the start of the call
      that minted it. */
  lemma ReusedInFirstHalf(clock: int, ttl: int, steps: seq<Step>, id: nat)
    requires After(clock, ttl, steps).Some? && NoReload(steps)
    requires var calls := After(clock, ttl, steps).value.calls;
             id in calls && calls[id].LookedUp? && calls[id].found.Some?
    ensures var s := After(clock, ttl, steps).value;
            var c := s.calls[id];
            exists m :: Origin(s.calls, m, Key(c.host, c.user), c.found.value)
                        && (Next(s, Decide(id)).calls[id].Hit?
                            <==> 2 * (c.now - s.calls[m].now) < ttl * SECOND)
  {
    RunKeeps(clock, ttl, steps);
    RunSameTtl(clock, ttl, steps);
    var s := After(clock, ttl, steps).value;
    var c := s.calls[id];
    assert CallOk(s.calls, c, s.clock);
    var m :| Origin(s.calls, m, Key(c.host, c.user), c.found.value);
    assert c.found.value.expires == s.calls[m].now + ttl * SECOND;
  }

  // ---- the manager object ----------------------------------------------------------

  /** The entry was minted for one of these pairs, one with this key. */
  ghost predicate Serves(pairs: set<(string, string)>, key: string, cert: Certificate)
  {
    exists p :: p in pairs && Key(p.0, p.1) == key && MintedFor(cert, p.0, p.1)
  }

  ghost predicate AllServe(cache: map<string, Entry>, pairs: set<(string, string)>)
  {
    forall key :: key in cache ==>
      Serves(pairs, key, cache[key].cert) && Covers(cache[key].cert, cache[key].expires)
  }

  lemma ServesMore(cache: map<string, Entry>, pairs: set<(string, string)>, p: (string, string))
    requires AllServe(cache, pairs)
    ensures AllServe(cache, pairs + {p})
  {
    forall key | key in cache ensures Serves(pairs + {p}, key, cache[key].cert) {
      var q :| q in pairs && Key(q.0, q.1) == key && MintedFor(cache[key].cert, q.0, q.1);
      assert q in pairs + {p};
    }
  }

  class Manager {
    var cache: map<string, Entry>
    /** The pairs that certificates have been asked for. */
    ghost var pairs: set<(string, string)>

    ghost predicate Valid()
      reads this
    {
      AllServe(cache, pairs)
    }

    constructor ()
      ensures Valid() && cache == map[] && pairs == {}
    {
      cache := map[];
      pairs := {};
    }

    /** One undisturbed call. `now` is its first clock reading and `signedAt` the one inside
        the signing; `checkTtl` and `mintTtl` are its two reads of the configured TTL. */
    method MaintenanceCertSigner(host: string, user: string, now: int, checkTtl: int,
                                 mintTtl: int, signedAt: int) returns (cert: Certificate)
      requires Valid() && now <= signedAt
      modifies this
      ensures Valid() && pairs == old(pairs) + {(host, user)}
      ensures Serves(pairs, Key(host, user), cert)
      ensures var key := Key(host, user);
              if key in old(cache) && Fresh(old(cache)[key], now, checkTtl) then
                && cache == old(cache) && cert == cache[key].cert
                && cert.validBefore * SECOND - now > checkTtl * SECOND / 2 - SECOND
              else
                && Some(cert) == SignUserCert(MaintenanceOptions(host, user, mintTtl), signedAt)
                && cache == old(cache)[key := Entry(cert, now + mintTtl * SECOND)]
                && cert.validBefore * SECOND - now > mintTtl * SECOND - SECOND
    {
      var key := Key(host, user);
      ghost var own := (host, user);
      ServesMore(cache, pairs, own);
      pairs := pairs + {own};
      if key in cache {
        var c := cache[key];
        if Fresh(c, now, checkTtl) {
          return c.cert;
        }
      }
      SignedCovers(host, user, mintTtl, now, signedAt);
      cert := SignUserCert(MaintenanceOptions(host, user, mintTtl), signedAt).value;
      cache := cache[key := Entry(cert, now + mintTtl * SECOND)];
      assert own in pairs && Key(own.0, own.1) == key && MintedFor(cert, own.0, own.1);
    }
  }
}
