/** Loading a configuration: the defaulting and validating passes of
    internal/config/config.go, with the errors they collect and the index they fill. */
module ConfigLoad {
  import opened Text
  import opened Config

  function InHostAll(i: nat, fs: seq<HostFault>): (vs: seq<Violation>)
    ensures forall v :: v in vs <==> v.InHost? && v.i == i && v.host in fs
  {
    if fs == [] then [] else [InHost(i, fs[0])] + InHostAll(i, fs[1..])
  }

  function InUserAll(i: nat, fs: seq<UserFault>): (vs: seq<Violation>)
    ensures forall v :: v in vs <==> v.InUser? && v.i == i && v.user in fs
  {
    if fs == [] then [] else [InUser(i, fs[0])] + InUserAll(i, fs[1..])
  }

  function InTokenAll(i: nat, fs: seq<TokenFault>): (vs: seq<Violation>)
    ensures forall v :: v in vs <==> v.InToken? && v.i == i && v.token in fs
  {
    if fs == [] then [] else [InToken(i, fs[0])] + InTokenAll(i, fs[1..])
  }

  function InGroupAll(n: string, fs: seq<GroupFault>): (vs: seq<Violation>)
    ensures forall v :: v in vs <==> v.InGroup? && v.name == n && v.group in fs
  {
    if fs == [] then [] else [InGroup(n, fs[0])] + InGroupAll(n, fs[1..])
  }

  /** The unknown names among a host's checks, in some order. */
  method CheckCheckNames(h: Host) returns (fs: seq<HostFault>)
    ensures forall f :: f in fs <==>
              f.UnknownCheck? && f.check in h.checks && f.check !in VALID_CHECKS
  {
    fs := [];
    var names := h.checks.Keys;
    while names != {}
      invariant names <= h.checks.Keys
      invariant forall f :: f in fs <==>
                  f.UnknownCheck? && f.check in h.checks && f.check !in VALID_CHECKS
                  && f.check !in names
      decreases |names|
    {
      var name :| name in names;
      if name !in VALID_CHECKS {
        fs := fs + [UnknownCheck(name)];
      }
      names := names - {name};
    }
  }

  method CheckHostCas(h: Host, syntax: Syntax) returns (fs: seq<HostFault>)
    ensures forall f :: f in fs <==>
              f.BadHostCa? && f.index < |h.hostCas| && !syntax.isKey(h.hostCas[f.index])
  {
    fs := [];
    for k := 0 to |h.hostCas|
      invariant forall f :: f in fs <==>
                  f.BadHostCa? && f.index < k && !syntax.isKey(h.hostCas[f.index])
    {
      if !syntax.isKey(h.hostCas[k]) {
        fs := fs + [BadHostCa(k)];
      }
    }
  }

  /** All faults of host i, given whether its name was met before; a host without a name is
      reported as such and not looked at further. */
  method CheckHost(c: Settings, syntax: Syntax, i: nat, taken: bool) returns (fs: seq<HostFault>)
    requires i < |c.hosts| && (c.hosts[i].name != "" ==> taken == NameTaken(c, i))
    ensures forall f :: f in fs <==> HostHas(c, syntax, i, f)
  {
    var h := c.hosts[i];
    if h.name == "" {
      return [NameMissing];
    }
    fs := if taken then [DuplicateHost] else [];
    if h.hostname == "" {
      fs := fs + [HostnameMissing];
    }
    if !syntax.isMac(h.mac) {
      fs := fs + [BadMac];
    }
    if !syntax.isIPv4(h.broadcast) {
      fs := fs + [BadBroadcast];
    }
    var unknown := CheckCheckNames(h);
    var badKeys := CheckHostCas(h, syntax);
    fs := fs + unknown + badKeys;
  }

  method CheckUser(a: Auth, i: nat, taken: bool) returns (fs: seq<UserFault>)
    requires i < |a.users|
    requires a.users[i].username != "" ==>
               (taken <==> exists j :: 0 <= j < i && a.users[j].username == a.users[i].username)
    ensures forall f :: f in fs <==> UserHas(a, i, f)
  {
    var u := a.users[i];
    if u.username == "" {
      return [UsernameMissing];
    }
    fs := if taken then [DuplicateUser] else [];
    if u.passwordHash == "" {
      fs := fs + [HashMissing];
    }
    for k := 0 to |u.groups|
      invariant forall f :: f in fs <==>
                  UserHas(a, i, f) && (f.UserGroupUnknown? ==> f.group in u.groups[..k])
    {
      if u.groups[k] !in a.groups {
        fs := fs + [UserGroupUnknown(u.groups[k])];
      }
    }
  }

  method CheckToken(a: Auth, i: nat, taken: bool) returns (fs: seq<TokenFault>)
    requires i < |a.tokens|
    requires a.tokens[i].name != "" ==>
               (taken <==> exists j :: 0 <= j < i && a.tokens[j].name == a.tokens[i].name)
    ensures forall f :: f in fs <==> TokenHas(a, i, f)
  {
    var t := a.tokens[i];
    if t.name == "" {
      return [TokenNameMissing];
    }
    fs := if taken then [DuplicateToken] else [];
    if !("sha256:" <= t.tokenHash) || |t.tokenHash| != |"sha256:"| + 64 {
      fs := fs + [BadTokenHash];
    }
    if |t.groups| == 0 {
      fs := fs + [NoGroups];
    }
    for k := 0 to |t.groups|
      invariant forall f :: f in fs <==>
                  TokenHas(a, i, f) && (f.TokenGroupUnknown? ==> f.group in t.groups[..k])
    {
      if t.groups[k] !in a.groups {
        fs := fs + [TokenGroupUnknown(t.groups[k])];
      }
    }
  }

  /** `names` is the domain of the host index. */
  method CheckGroup(c: Settings, g: Group, names: set<string>) returns (fs: seq<GroupFault>)
    requires forall n :: n in names <==> IsHostName(c, n)
    ensures forall f :: f in fs <==> GroupHas(c, g, f)
  {
    fs := [];
    for k := 0 to |g.hosts|
      invariant forall f :: f in fs <==>
                  GroupHas(c, g, f) && f.UnknownHost? && f.host in g.hosts[..k]
    {
      if g.hosts[k] == WILDCARD {
        continue;
      }
      if g.hosts[k] !in names {
        fs := fs + [UnknownHost(g.hosts[k])];
      }
    }
    for k := 0 to |g.actions|
      invariant forall f :: f in fs <==>
                  GroupHas(c, g, f) && (f.UnknownAction? ==> f.action in g.actions[..k])
    {
      if g.actions[k] == WILDCARD {
        continue;
      }
      if g.actions[k] !in VALID_ACTIONS {
        fs := fs + [UnknownAction(g.actions[k])];
      }
    }
  }

  method CheckUsers(c: Settings, syntax: Syntax) returns (errs: seq<Violation>)
    requires c.auth.enabled
    ensures forall v :: v in errs <==> v.InUser? && Violates(c, syntax, v)
  {
    var a := c.auth;
    var seen: set<string> := {};
    errs := [];
    for i := 0 to |a.users|
      invariant forall n :: n in seen <==> n != "" && exists j :: 0 <= j < i && a.users[j].username == n
      invariant forall v :: v in errs <==> v.InUser? && Violates(c, syntax, v) && v.i < i
    {
      var u := a.users[i];
      var fs := CheckUser(a, i, u.username in seen);
      errs := errs + InUserAll(i, fs);
      if u.username != "" {
        seen := seen + {u.username};
      }
    }
  }

  method CheckTokens(c: Settings, syntax: Syntax) returns (errs: seq<Violation>)
    requires c.auth.enabled
    ensures forall v :: v in errs <==> v.InToken? && Violates(c, syntax, v)
  {
    var a := c.auth;
    var seen: set<string> := {};
    errs := [];
    for i := 0 to |a.tokens|
      invariant forall n :: n in seen <==> n != "" && exists j :: 0 <= j < i && a.tokens[j].name == n
      invariant forall v :: v in errs <==> v.InToken? && Violates(c, syntax, v) && v.i < i
    {
      var t := a.tokens[i];
      var fs := CheckToken(a, i, t.name in seen);
      errs := errs + InTokenAll(i, fs);
      if t.name != "" {
        seen := seen + {t.name};
      }
    }
  }

  method CheckGroups(c: Settings, syntax: Syntax, names: set<string>) returns (errs: seq<Violation>)
    requires c.auth.enabled
    requires forall n :: n in names <==> IsHostName(c, n)
    ensures forall v :: v in errs <==> v.InGroup? && Violates(c, syntax, v)
  {
    errs := [];
    var todo := c.auth.groups.Keys;
    while todo != {}
      invariant todo <= c.auth.groups.Keys
      invariant forall v :: v in errs <==> v.InGroup? && Violates(c, syntax, v) && v.name !in todo
      decreases |todo|
    {
      var name :| name in todo;
      var fs := CheckGroup(c, c.auth.groups[name], names);
      errs := errs + InGroupAll(name, fs);
      todo := todo - {name};
    }
  }

  predicate IsGlobal(v: Violation)
  {
    v.ListenUnset? || v.ListenBoth? || v.PollTooShort? || v.CaKeyMissing?
  }

  method CheckGlobals(c: Settings, syntax: Syntax) returns (errs: seq<Violation>)
    ensures forall v :: v in errs <==> IsGlobal(v) && Violates(c, syntax, v)
  {
    errs := [];
    if c.listen.address == "" && c.listen.socket == "" {
      errs := errs + [ListenUnset];
    } else if c.listen.address != "" && c.listen.socket != "" {
      errs := errs + [ListenBoth];
    }
    if c.pollInterval < 1 {
      errs := errs + [PollTooShort];
    }
    if c.sshCa.enabled && c.sshCa.keyFile == "" {
      errs := errs + [CaKeyMissing];
    }
  }

  /** The auth section, checked only when auth is enabled. */
  method CheckAuth(c: Settings, syntax: Syntax, names: set<string>) returns (errs: seq<Violation>)
    requires c.auth.enabled
    requires forall n :: n in names <==> IsHostName(c, n)
    ensures forall v :: v in errs <==> !IsGlobal(v) && !v.InHost? && Violates(c, syntax, v)
  {
    errs := [];
    if |c.auth.users| == 0 && |c.auth.tokens| == 0 {
      errs := errs + [NoPrincipals];
    }
    var inUsers := CheckUsers(c, syntax);
    var inTokens := CheckTokens(c, syntax);
    var inGroups := CheckGroups(c, syntax, names);
    errs := errs + inUsers + inTokens + inGroups;
  }

  // ---- defaults --------------------------------------------------------------------

  function DefaultedCheck(chk: Check): Check
  {
    if chk.every <= 0 then chk.(every := 1) else chk
  }

  function DefaultedChecks(checks: map<string, Check>): map<string, Check>
  {
    map n | n in checks :: DefaultedCheck(checks[n])
  }

  /** `os.UserHomeDir` and `filepath.Join`: None without a home directory, otherwise what a
      path below it becomes. */
  type Home = Option<string -> string>

  function ExpandHome(p: string, home: Home): string
  {
    if !("~/" <= p) || home.None? then p else home.value(p[2..])
  }

  /** A path in the home directory is looked for there, if that is known; any other path, and
      a tilde that is not before a slash, is left alone. */
  lemma ExpandHomeExactly(p: string, rest: string, home: Home)
    ensures home.Some? ==> ExpandHome("~/" + rest, home) == home.value(rest)
    ensures home.None? || |p| < 2 || p[0] != '~' || p[1] != '/' ==> ExpandHome(p, home) == p
  {
    assert ("~/" + rest)[2..] == rest;
    if "~/" <= p {
      assert p[0] == "~/"[0] && p[1] == "~/"[1];
    }
  }

  function DefaultedSsh(c: SshConfig, home: Home): SshConfig
  {
    c.(keyFile := ExpandHome(c.keyFile, home))
  }

  function DefaultedHost(h: Host, home: Home): Host
  {
    h.(displayName := if h.displayName == "" then h.name else h.displayName,
       ssh := if h.ssh.Some? then Some(DefaultedSsh(h.ssh.value, home)) else None,
       checks := DefaultedChecks(h.checks))
  }

  function OrElse(n: int, default: int): int { if n == 0 then default else n }

  function DefaultedSshDefaults(c: SshConfig, home: Home): SshConfig
  {
    DefaultedSsh(c.(port := OrElse(c.port, 22), timeout := OrElse(c.timeout, 5)), home)
  }

  function DefaultedSshCa(ca: SshCa, home: Home): SshCa
  {
    ca.(keyFile := ExpandHome(ca.keyFile, home),
        hostCaKeyFile := ExpandHome(ca.hostCaKeyFile, home),
        maintenanceTtl := OrElse(ca.maintenanceTtl, 300), humanTtl := OrElse(ca.humanTtl, 86400),
        agentTtl := OrElse(ca.agentTtl, 300))
  }

  /** What is zero or empty is filled in (a negative number is left alone), key files below
      the home directory are spelled out, and every check runs at least every tick. */
  function Defaulted(c: Settings, home: Home): Settings
  {
    c.(pollInterval := OrElse(c.pollInterval, 7),
       sshDefaults := DefaultedSshDefaults(c.sshDefaults, home),
       sshCa := DefaultedSshCa(c.sshCa, home),
       hosts := seq(|c.hosts|, i requires 0 <= i < |c.hosts| => DefaultedHost(c.hosts[i], home)))
  }

  /** Paths below the home directory do not start with a tilde again. */
  ghost predicate Rooted(home: Home)
  {
    home.Some? ==> forall p: string :: !("~/" <= home.value(p))
  }

  /** Defaulting twice is defaulting once, and it makes every period positive. */
  lemma DefaultsSettle(c: Settings, home: Home)
    requires Rooted(home)
    ensures Defaulted(Defaulted(c, home), home) == Defaulted(c, home)
    ensures forall i, n :: 0 <= i < |c.hosts| && n in Defaulted(c, home).hosts[i].checks ==>
              Defaulted(c, home).hosts[i].checks[n].every >= 1
  {
    var d := Defaulted(c, home);
    forall i | 0 <= i < |d.hosts| ensures DefaultedHost(d.hosts[i], home) == d.hosts[i] {
      assert DefaultedChecks(d.hosts[i].checks) == d.hosts[i].checks;
    }
    assert Defaulted(d, home).hosts == d.hosts;
  }

  lemma DefaultsKeepHosts(c: Settings, home: Home, syntax: Syntax)
    requires WellFormed(c, syntax)
    ensures var d := Defaulted(c, home);
            && (forall i :: 0 <= i < |d.hosts| ==> WellFormedHost(d.hosts[i], syntax))
            && UniqueHostNames(d) && forall n :: IsHostName(d, n) <==> IsHostName(c, n)
  {
    var d := Defaulted(c, home);
    forall i | 0 <= i < |d.hosts| ensures WellFormedHost(d.hosts[i], syntax) {
      assert WellFormedHost(c.hosts[i], syntax);
    }
    forall i | 0 <= i < |c.hosts| ensures d.hosts[i].name == c.hosts[i].name {}
  }

  /** Nothing the loader does turns down a negative agent TTL: put into any acceptable
      configuration, it survives the defaults and the validation. */
  lemma NegativeTtlPasses(c: Settings, home: Home, syntax: Syntax, ttl: int)
    requires WellFormed(c, syntax) && ttl < 0
    requires c.sshCa.enabled ==> ExpandHome(c.sshCa.keyFile, home) != ""
    ensures var loaded := Defaulted(c.(sshCa := c.sshCa.(agentTtl := ttl)), home);
            WellFormed(loaded, syntax) && loaded.sshCa.agentTtl == ttl
  {
    var given := c.(sshCa := c.sshCa.(agentTtl := ttl));
    var loaded := Defaulted(given, home);
    assert forall n :: IsHostName(given, n) <==> IsHostName(c, n);
    assert WellFormed(given, syntax);
    DefaultsKeepHosts(given, home, syntax);
    if c.auth.enabled {
      assert WellFormedAuth(given);
      assert WellFormedAuth(loaded);
    }
  }

  /** The entries are rewritten while the map is ranged over. */
  method DefaultChecks(given: map<string, Check>) returns (checks: map<string, Check>)
    ensures checks == DefaultedChecks(given)
  {
    checks := given;
    var names := given.Keys;
    while names != {}
      invariant names <= given.Keys && checks.Keys == given.Keys
      invariant forall n :: n in checks ==>
                  checks[n] == if n in names then given[n] else DefaultedCheck(given[n])
      decreases |names|
    {
      var name :| name in names;
      var chk := checks[name];
      if chk.every <= 0 {
        chk := chk.(every := 1);
      }
      checks := checks[name := chk];
      names := names - {name};
    }
  }

  /** The loop body for one host. */
  method DefaultHost(h: Host, home: Home) returns (out: Host)
    ensures out == DefaultedHost(h, home)
  {
    out := h;
    if out.displayName == "" {
      out := out.(displayName := out.name);
    }
    if out.ssh.Some? {
      var ssh := out.ssh.value;
      out := out.(ssh := Some(ssh.(keyFile := ExpandHome(ssh.keyFile, home))));
    }
    var checks := DefaultChecks(out.checks);
    out := out.(checks := checks);
  }

  method DefaultSshCa(c: SshCa, home: Home) returns (ca: SshCa)
    ensures ca == DefaultedSshCa(c, home)
  {
    ca := c;
    if ca.maintenanceTtl == 0 {
      ca := ca.(maintenanceTtl := 300);
    }
    if ca.humanTtl == 0 {
      ca := ca.(humanTtl := 86400);
    }
    if ca.agentTtl == 0 {
      ca := ca.(agentTtl := 300);
    }
    ca := ca.(keyFile := ExpandHome(ca.keyFile, home));
    ca := ca.(hostCaKeyFile := ExpandHome(ca.hostCaKeyFile, home));
  }

  /** What stands before the loop over the hosts. */
  method DefaultGlobals(c: Settings, home: Home) returns (d: Settings)
    ensures d == Defaulted(c, home).(hosts := c.hosts)
  {
    d := c;
    if d.pollInterval == 0 {
      d := d.(pollInterval := 7);
    }
    var ssh := d.sshDefaults;
    if ssh.port == 0 {
      ssh := ssh.(port := 22);
    }
    if ssh.timeout == 0 {
      ssh := ssh.(timeout := 5);
    }
    var ca := DefaultSshCa(d.sshCa, home);
    ssh := ssh.(keyFile := ExpandHome(ssh.keyFile, home));
    d := d.(sshDefaults := ssh, sshCa := ca);
  }

  /** The index maps every non-empty host name to the last host that bears it. */
  ghost predicate Indexes(index: map<string, nat>, hosts: seq<Host>)
  {
    && (forall n :: n in index ==>
          n != "" && index[n] < |hosts| && hosts[index[n]].name == n
          && forall k :: index[n] < k < |hosts| ==> hosts[k].name != n)
    && (forall i :: 0 <= i < |hosts| && hosts[i].name != "" ==> hosts[i].name in index)
  }

  /** Indexing one more host, and what a hit in the index means for it. */
  lemma IndexNext(index: map<string, nat>, c: Settings, i: nat)
    requires i < |c.hosts| && Indexes(index, c.hosts[..i])
    ensures var name := c.hosts[i].name;
            && (name != "" ==> (name in index <==> NameTaken(c, i)))
            && Indexes(if name != "" then index[name := i] else index, c.hosts[..i + 1])
  {
    var name := c.hosts[i].name;
    forall j | 0 <= j < i ensures c.hosts[..i][j] == c.hosts[j] == c.hosts[..i + 1][j] {}
    if name in index {
      assert c.hosts[index[name]].name == name;
    }
  }

  lemma IndexedNames(index: map<string, nat>, c: Settings)
    requires Indexes(index, c.hosts)
    ensures forall n :: n in index.Keys <==> IsHostName(c, n)
  {
  }

  class Loaded {
    var settings: Settings
    var hostByName: map<string, nat>

    constructor (settings: Settings)
      ensures this.settings == settings && hostByName == map[]
    {
      this.settings := settings;
      hostByName := map[];
    }

    method ApplyDefaults(home: Home)
      modifies this`settings
      ensures settings == Defaulted(old(settings), home)
    {
      var c := settings;
      settings := DefaultGlobals(c, home);
      ghost var d := Defaulted(c, home);
      for i := 0 to |c.hosts|
        invariant |settings.hosts| == |c.hosts|
        invariant settings == d.(hosts := settings.hosts)
        invariant forall k :: 0 <= k < |c.hosts| ==>
                    settings.hosts[k] == if k < i then d.hosts[k] else c.hosts[k]
      {
        var h := DefaultHost(settings.hosts[i], home);
        settings := settings.(hosts := settings.hosts[i := h]);
      }
      assert settings.hosts == d.hosts;
    }

    method CheckHosts(syntax: Syntax) returns (errs: seq<Violation>)
      modifies this`hostByName
      ensures forall v :: v in errs <==> v.InHost? && Violates(settings, syntax, v)
      ensures Indexes(hostByName, settings.hosts)
    {
      var hosts := settings.hosts;
      hostByName := map[];
      errs := [];
      for i := 0 to |hosts|
        invariant forall v :: v in errs <==>
                    v.InHost? && Violates(settings, syntax, v) && v.i < i
        invariant Indexes(hostByName, hosts[..i])
      {
        var h := hosts[i];
        IndexNext(hostByName, settings, i);
        var fs := CheckHost(settings, syntax, i, h.name in hostByName);
        errs := errs + InHostAll(i, fs);
        if h.name != "" {
          hostByName := hostByName[h.name := i];
        }
      }
      assert hosts[..|hosts|] == hosts;
    }

    /** Sound and complete: exactly the violated rules are reported, so the error list is
        empty if and only if the configuration is well-formed; and the index is built. */
    method Validate(syntax: Syntax) returns (errs: seq<Violation>)
      modifies this`hostByName
      ensures forall v :: v in errs <==> Violates(settings, syntax, v)
      ensures errs == [] <==> WellFormed(settings, syntax)
      ensures Indexes(hostByName, settings.hosts)
    {
      errs := CheckGlobals(settings, syntax);
      var inHosts := CheckHosts(syntax);
      errs := errs + inHosts;
      if settings.auth.enabled {
        IndexedNames(hostByName, settings);
        var inAuth := CheckAuth(settings, syntax, hostByName.Keys);
        errs := errs + inAuth;
      }
      WellFormedExactly(settings, syntax);
      assert errs != [] ==> errs[0] in errs;
    }

    /** The host of that name, or None. */
    method HostByName(name: string) returns (host: Option<nat>)
      ensures host == if name in hostByName then Some(hostByName[name]) else None
    {
      host := if name in hostByName then Some(hostByName[name]) else None;
    }
  }

  /** After a successful validation the index answers with the one host of that name, and
      with nothing exactly when there is none. */
  lemma IndexIsExact(index: map<string, nat>, c: Settings, syntax: Syntax, name: string)
    requires Indexes(index, c.hosts) && WellFormed(c, syntax)
    ensures name in index ==> forall i :: 0 <= i < |c.hosts| ==>
              (c.hosts[i].name == name <==> i == index[name])
    ensures name !in index <==> forall i :: 0 <= i < |c.hosts| ==> c.hosts[i].name != name
  {
    forall i | 0 <= i < |c.hosts| ensures c.hosts[i].name != "" {
      assert WellFormedHost(c.hosts[i], syntax);
    }
  }
}
