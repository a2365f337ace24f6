/** The configuration of internal/config/config.go: its data, the faults the validator looks
    for, and the declarative predicate they amount to. */
module Config {
  import opened Text

  datatype Listen = Listen(address: string, socket: string)
  datatype SshCa = SshCa(enabled: bool, keyFile: string, hostCaKeyFile: string,
                         maintenanceTtl: int, humanTtl: int, agentTtl: int)
  datatype SshConfig = SshConfig(user: string, keyFile: string, port: int, timeout: int)
  datatype Check = Check(enabled: bool, every: int)
  datatype Host = Host(name: string, displayName: string, hostname: string, mac: string,
                       broadcast: string, maintenanceUser: string, noWake: bool, noShutdown: bool,
                       hostCas: seq<string>, ssh: Option<SshConfig>, checks: map<string, Check>)
  datatype User = User(username: string, passwordHash: string, groups: seq<string>)
  datatype ApiToken = ApiToken(name: string, tokenHash: string, groups: seq<string>)
  datatype Group = Group(hosts: seq<string>, actions: seq<string>)
  datatype Auth = Auth(enabled: bool, users: seq<User>, tokens: seq<ApiToken>,
                       groups: map<string, Group>)

  /** The decoded file; host pointers are positions in `hosts`. */
  datatype Settings = Settings(listen: Listen, pollInterval: int, sshDefaults: SshConfig,
                               sshCa: SshCa, auth: Auth, hosts: seq<Host>)

  const WILDCARD := "*"
  const STATUS := "status"
  const WAKE := "wake"
  const SHUTDOWN := "shutdown"
  const SSH_CERT := "ssh-cert"
  const VALID_ACTIONS: set<string> := {STATUS, WAKE, SHUTDOWN, SSH_CERT, "ca-bootstrap"}
  const VALID_CHECKS: set<string> := {"ping", "uptime", "load", "memory", "disk"}

  /** The syntax checks done by Go's net package and x/crypto/ssh. */
  datatype Syntax = Syntax(isMac: string -> bool, isIPv4: string -> bool, isKey: string -> bool)

  // ---- what can be wrong -----------------------------------------------------------

  datatype HostFault =
    | NameMissing | DuplicateHost | HostnameMissing | BadMac | BadBroadcast
    | UnknownCheck(check: string) | BadHostCa(index: nat)

  datatype UserFault = UsernameMissing | DuplicateUser | HashMissing | UserGroupUnknown(group: string)

  datatype TokenFault =
    | TokenNameMissing | DuplicateToken | BadTokenHash | NoGroups | TokenGroupUnknown(group: string)

  datatype GroupFault = UnknownHost(host: string) | UnknownAction(action: string)

  datatype Violation =
    | ListenUnset | ListenBoth | PollTooShort | CaKeyMissing | NoPrincipals
    | InHost(i: nat, host: HostFault)
    | InUser(i: nat, user: UserFault)
    | InToken(i: nat, token: TokenFault)
    | InGroup(name: string, group: GroupFault)

  predicate NameTaken(c: Settings, i: nat)
    requires i < |c.hosts|
  {
    exists j :: 0 <= j < i && c.hosts[j].name == c.hosts[i].name
  }

  predicate HostHas(c: Settings, syntax: Syntax, i: nat, f: HostFault)
    requires i < |c.hosts|
  {
    var h := c.hosts[i];
    match f
    case NameMissing => h.name == ""
    case DuplicateHost => h.name != "" && NameTaken(c, i)
    case HostnameMissing => h.name != "" && h.hostname == ""
    case BadMac => h.name != "" && !syntax.isMac(h.mac)
    case BadBroadcast => h.name != "" && !syntax.isIPv4(h.broadcast)
    case UnknownCheck(name) => h.name != "" && name in h.checks && name !in VALID_CHECKS
    case BadHostCa(k) => h.name != "" && k < |h.hostCas| && !syntax.isKey(h.hostCas[k])
  }

  predicate UserHas(a: Auth, i: nat, f: UserFault)
    requires i < |a.users|
  {
    var u := a.users[i];
    match f
    case UsernameMissing => u.username == ""
    case DuplicateUser => u.username != "" && exists j :: 0 <= j < i && a.users[j].username == u.username
    case HashMissing => u.username != "" && u.passwordHash == ""
    case UserGroupUnknown(g) => u.username != "" && g in u.groups && g !in a.groups
  }

  predicate IsTokenHash(s: string)
  {
    "sha256:" <= s && |s| == 7 + 64
  }

  /** That is, the scheme and 64 more characters. */
  lemma TokenHashExactly(s: string)
    ensures IsTokenHash(s) <==> exists digest: string :: |digest| == 64 && s == "sha256:" + digest
  {
    if IsTokenHash(s) {
      assert s == "sha256:" + s[7..];
    }
  }

  predicate TokenHas(a: Auth, i: nat, f: TokenFault)
    requires i < |a.tokens|
  {
    var t := a.tokens[i];
    match f
    case TokenNameMissing => t.name == ""
    case DuplicateToken => t.name != "" && exists j :: 0 <= j < i && a.tokens[j].name == t.name
    case BadTokenHash => t.name != "" && !IsTokenHash(t.tokenHash)
    case NoGroups => t.name != "" && t.groups == []
    case TokenGroupUnknown(g) => t.name != "" && g in t.groups && g !in a.groups
  }

  /** Some host entry bears this (non-empty) name. */
  predicate IsHostName(c: Settings, name: string)
  {
    name != "" && exists i :: 0 <= i < |c.hosts| && c.hosts[i].name == name
  }

  predicate GroupHas(c: Settings, g: Group, f: GroupFault)
  {
    match f
    case UnknownHost(h) => h in g.hosts && h != WILDCARD && !IsHostName(c, h)
    case UnknownAction(a) => a in g.actions && a != WILDCARD && a !in VALID_ACTIONS
  }

  /** v is a genuine fault of c. The auth section only matters when auth is on. */
  predicate Violates(c: Settings, syntax: Syntax, v: Violation)
  {
    match v
    case ListenUnset => c.listen.address == "" && c.listen.socket == ""
    case ListenBoth => c.listen.address != "" && c.listen.socket != ""
    case PollTooShort => c.pollInterval < 1
    case CaKeyMissing => c.sshCa.enabled && c.sshCa.keyFile == ""
    case NoPrincipals => c.auth.enabled && c.auth.users == [] && c.auth.tokens == []
    case InHost(i, f) => i < |c.hosts| && HostHas(c, syntax, i, f)
    case InUser(i, f) => c.auth.enabled && i < |c.auth.users| && UserHas(c.auth, i, f)
    case InToken(i, f) => c.auth.enabled && i < |c.auth.tokens| && TokenHas(c.auth, i, f)
    case InGroup(n, f) => c.auth.enabled && n in c.auth.groups && GroupHas(c, c.auth.groups[n], f)
  }

  // ---- well-formedness -------------------------------------------------------------

  ghost predicate WellFormedHost(h: Host, syntax: Syntax)
  {
    && h.name != "" && h.hostname != ""
    && syntax.isMac(h.mac) && syntax.isIPv4(h.broadcast)
    && h.checks.Keys <= VALID_CHECKS
    && forall k :: 0 <= k < |h.hostCas| ==> syntax.isKey(h.hostCas[k])
  }

  ghost predicate KnownGroups(groups: seq<string>, a: Auth)
  {
    forall g :: g in groups ==> g in a.groups
  }

  ghost predicate WellFormedAuth(c: Settings)
  {
    var a := c.auth;
    && (a.users != [] || a.tokens != [])
    && (forall i :: 0 <= i < |a.users| ==>
          && a.users[i].username != "" && a.users[i].passwordHash != ""
          && KnownGroups(a.users[i].groups, a))
    && (forall i, j :: 0 <= j < i < |a.users| ==> a.users[i].username != a.users[j].username)
    && (forall i :: 0 <= i < |a.tokens| ==>
          && a.tokens[i].name != "" && IsTokenHash(a.tokens[i].tokenHash)
          && a.tokens[i].groups != [] && KnownGroups(a.tokens[i].groups, a))
    && (forall i, j :: 0 <= j < i < |a.tokens| ==> a.tokens[i].name != a.tokens[j].name)
    && (forall n :: n in a.groups ==>
          && (forall h :: h in a.groups[n].hosts ==> h == WILDCARD || IsHostName(c, h))
          && (forall x :: x in a.groups[n].actions ==> x == WILDCARD || x in VALID_ACTIONS))
  }

  ghost predicate UniqueHostNames(c: Settings)
  {
    forall i, j :: 0 <= j < i < |c.hosts| ==> c.hosts[i].name != c.hosts[j].name
  }

  /** A configuration the server may run on. */
  ghost predicate WellFormed(c: Settings, syntax: Syntax)
  {
    && (c.listen.address == "") != (c.listen.socket == "")
    && c.pollInterval >= 1
    && (c.sshCa.enabled ==> c.sshCa.keyFile != "")
    && (forall i :: 0 <= i < |c.hosts| ==> WellFormedHost(c.hosts[i], syntax))
    && UniqueHostNames(c)
    && (c.auth.enabled ==> WellFormedAuth(c))
  }

  lemma HostsFaultless(c: Settings, syntax: Syntax)
    requires forall v :: !Violates(c, syntax, v)
    ensures (forall i :: 0 <= i < |c.hosts| ==> WellFormedHost(c.hosts[i], syntax))
    ensures UniqueHostNames(c)
  {
    forall i | 0 <= i < |c.hosts| ensures WellFormedHost(c.hosts[i], syntax) {
      var h := c.hosts[i];
      assert !Violates(c, syntax, InHost(i, NameMissing));
      assert !Violates(c, syntax, InHost(i, HostnameMissing));
      assert !Violates(c, syntax, InHost(i, BadMac));
      assert !Violates(c, syntax, InHost(i, BadBroadcast));
      forall n | n in h.checks ensures n in VALID_CHECKS {
        assert !Violates(c, syntax, InHost(i, UnknownCheck(n)));
      }
      forall k | 0 <= k < |h.hostCas| ensures syntax.isKey(h.hostCas[k]) {
        assert !Violates(c, syntax, InHost(i, BadHostCa(k)));
      }
    }
    forall i, j | 0 <= j < i < |c.hosts| ensures c.hosts[i].name != c.hosts[j].name {
      assert !Violates(c, syntax, InHost(i, DuplicateHost));
      assert !Violates(c, syntax, InHost(i, NameMissing));
    }
  }

  lemma UsersFaultless(c: Settings, syntax: Syntax)
    requires c.auth.enabled && forall v :: !Violates(c, syntax, v)
    ensures var a := c.auth;
            && (forall i :: 0 <= i < |a.users| ==>
                  && a.users[i].username != "" && a.users[i].passwordHash != ""
                  && KnownGroups(a.users[i].groups, a))
            && (forall i, j :: 0 <= j < i < |a.users| ==> a.users[i].username != a.users[j].username)
  {
    var a := c.auth;
    forall i | 0 <= i < |a.users|
      ensures a.users[i].username != "" && a.users[i].passwordHash != ""
      ensures KnownGroups(a.users[i].groups, a)
      ensures forall j :: 0 <= j < i ==> a.users[i].username != a.users[j].username
    {
      assert !Violates(c, syntax, InUser(i, UsernameMissing));
      assert !Violates(c, syntax, InUser(i, HashMissing));
      assert !Violates(c, syntax, InUser(i, DuplicateUser));
      forall g | g in a.users[i].groups ensures g in a.groups {
        assert !Violates(c, syntax, InUser(i, UserGroupUnknown(g)));
      }
    }
  }

  lemma TokensFaultless(c: Settings, syntax: Syntax)
    requires c.auth.enabled && forall v :: !Violates(c, syntax, v)
    ensures var a := c.auth;
            && (forall i :: 0 <= i < |a.tokens| ==>
                  && a.tokens[i].name != "" && IsTokenHash(a.tokens[i].tokenHash)
                  && a.tokens[i].groups != [] && KnownGroups(a.tokens[i].groups, a))
            && (forall i, j :: 0 <= j < i < |a.tokens| ==> a.tokens[i].name != a.tokens[j].name)
  {
    var a := c.auth;
    forall i | 0 <= i < |a.tokens|
      ensures a.tokens[i].name != "" && IsTokenHash(a.tokens[i].tokenHash)
      ensures a.tokens[i].groups != [] && KnownGroups(a.tokens[i].groups, a)
      ensures forall j :: 0 <= j < i ==> a.tokens[i].name != a.tokens[j].name
    {
      assert !Violates(c, syntax, InToken(i, TokenNameMissing));
      assert !Violates(c, syntax, InToken(i, BadTokenHash));
      assert !Violates(c, syntax, InToken(i, NoGroups));
      assert !Violates(c, syntax, InToken(i, DuplicateToken));
      forall g | g in a.tokens[i].groups ensures g in a.groups {
        assert !Violates(c, syntax, InToken(i, TokenGroupUnknown(g)));
      }
    }
  }

  lemma GroupsFaultless(c: Settings, syntax: Syntax, n: string)
    requires c.auth.enabled && n in c.auth.groups && forall v :: !Violates(c, syntax, v)
    ensures forall h :: h in c.auth.groups[n].hosts ==> h == WILDCARD || IsHostName(c, h)
    ensures forall x :: x in c.auth.groups[n].actions ==> x == WILDCARD || x in VALID_ACTIONS
  {
    var g := c.auth.groups[n];
    forall h | h in g.hosts ensures h == WILDCARD || IsHostName(c, h) {
      assert !Violates(c, syntax, InGroup(n, UnknownHost(h)));
    }
    forall x | x in g.actions ensures x == WILDCARD || x in VALID_ACTIONS {
      assert !Violates(c, syntax, InGroup(n, UnknownAction(x)));
    }
  }

  lemma WellFormedHasNoFault(c: Settings, syntax: Syntax, v: Violation)
    requires WellFormed(c, syntax)
    ensures !Violates(c, syntax, v)
  {
    match v
    case InHost(i, f) =>
      if i < |c.hosts| {
        assert WellFormedHost(c.hosts[i], syntax);
      }
    case InUser(i, f) =>
      if c.auth.enabled && i < |c.auth.users| {
        assert KnownGroups(c.auth.users[i].groups, c.auth);
      }
    case InToken(i, f) =>
      if c.auth.enabled && i < |c.auth.tokens| {
        assert KnownGroups(c.auth.tokens[i].groups, c.auth);
      }
    case _ =>
  }

  /** A configuration is well-formed exactly when no rule is violated. */
  lemma WellFormedExactly(c: Settings, syntax: Syntax)
    ensures WellFormed(c, syntax) <==> forall v :: !Violates(c, syntax, v)
  {
    if WellFormed(c, syntax) {
      forall v ensures !Violates(c, syntax, v) {
        WellFormedHasNoFault(c, syntax, v);
      }
    }
    if forall v :: !Violates(c, syntax, v) {
      HostsFaultless(c, syntax);
      assert !Violates(c, syntax, ListenUnset) && !Violates(c, syntax, ListenBoth);
      assert !Violates(c, syntax, PollTooShort) && !Violates(c, syntax, CaKeyMissing);
      if c.auth.enabled {
        assert !Violates(c, syntax, NoPrincipals);
        UsersFaultless(c, syntax);
        TokensFaultless(c, syntax);
        forall n | n in c.auth.groups
          ensures forall h :: h in c.auth.groups[n].hosts ==> h == WILDCARD || IsHostName(c, h)
          ensures forall x :: x in c.auth.groups[n].actions ==> x == WILDCARD || x in VALID_ACTIONS
        {
          GroupsFaultless(c, syntax, n);
        }
      }
    }
  }
}
