/** Who may do what: the permission checks of internal/config/config.go. */
module Permissions {
  import opened Seqs
  import opened Config
  import opened ConfigLoad

  predicate GroupAllows(g: Group, host: string, action: string)
  {
    (host in g.hosts || WILDCARD in g.hosts) && (action in g.actions || WILDCARD in g.actions)
  }

  /** Some existing group among `groups` allows the action on the host. */
  predicate GroupsAllow(a: Auth, groups: seq<string>, host: string, action: string)
  {
    exists i :: 0 <= i < |groups| && groups[i] in a.groups
                && GroupAllows(a.groups[groups[i]], host, action)
  }

  method GroupsCan(a: Auth, groups: seq<string>, host: string, action: string) returns (ok: bool)
    ensures ok <==> GroupsAllow(a, groups, host, action)
  {
    for i := 0 to |groups|
      invariant forall k :: 0 <= k < i && groups[k] in a.groups ==>
                  !GroupAllows(a.groups[groups[k]], host, action)
    {
      if groups[i] !in a.groups {
        continue;
      }
      var g := a.groups[groups[i]];
      if host !in g.hosts && WILDCARD !in g.hosts {
        continue;
      }
      if action in g.actions || WILDCARD in g.actions {
        return true;
      }
    }
    ok := false;
  }

  /** The host's own pins; an unknown host has none. */
  predicate Forbidden(c: Settings, index: map<string, nat>, host: string, action: string)
    requires Indexes(index, c.hosts)
  {
    host in index
    && ((action == WAKE && c.hosts[index[host]].noWake)
        || (action == SHUTDOWN && c.hosts[index[host]].noShutdown))
  }

  predicate PrincipalCan(c: Settings, index: map<string, nat>, groups: seq<string>,
                         host: string, action: string)
    requires Indexes(index, c.hosts)
  {
    !Forbidden(c, index, host, action)
    && (c.auth.enabled ==> GroupsAllow(c.auth, groups, host, action))
  }

  /** In a well-formed configuration: permitted is what no pin of the host forbids and, with
      auth on, some group of the principal grants, by name or wildcard. */
  lemma PrincipalCanExactly(c: Settings, syntax: Syntax, index: map<string, nat>,
                            groups: seq<string>, host: string, action: string)
    requires Indexes(index, c.hosts) && WellFormed(c, syntax)
    ensures PrincipalCan(c, index, groups, host, action) <==>
              (forall h :: h in c.hosts && h.name == host ==>
                 (action == "wake" ==> !h.noWake) && (action == "shutdown" ==> !h.noShutdown))
              && (c.auth.enabled ==>
                    exists name :: name in groups && name in c.auth.groups
                      && var g := c.auth.groups[name];
                         (host in g.hosts || "*" in g.hosts) && (action in g.actions || "*" in g.actions))
  {
    IndexIsExact(index, c, syntax, host);
    assert |WAKE| == 4 && |SHUTDOWN| == 8;
    if host in index {
      assert c.hosts[index[host]] in c.hosts;
    }
    if GroupsAllow(c.auth, groups, host, action) {
      var i :| 0 <= i < |groups| && groups[i] in c.auth.groups
               && GroupAllows(c.auth.groups[groups[i]], host, action);
      assert groups[i] in groups;
    }
  }

  /** Position of the first user of that name, or |users|. */
  function LookupUser(users: seq<User>, name: string): (i: nat)
    ensures i <= |users|
    ensures i < |users| ==> users[i].username == name
    ensures forall j :: 0 <= j < i ==> users[j].username != name
  {
    if users == [] || users[0].username == name then 0 else 1 + LookupUser(users[1..], name)
  }

  /** The check by user name agrees with looking the user up and asking for the principal;
      a name nobody has may act only while auth is off. */
  method UserCan(c: Settings, index: map<string, nat>, name: string, host: string,
                 action: string) returns (ok: bool)
    requires Indexes(index, c.hosts)
    ensures var i := LookupUser(c.auth.users, name);
            ok <==> if i < |c.auth.users|
                    then PrincipalCan(c, index, c.auth.users[i].groups, host, action)
                    else !c.auth.enabled && !Forbidden(c, index, host, action)
  {
    if Forbidden(c, index, host, action) {
      return false;
    }
    if !c.auth.enabled {
      return true;
    }
    for i := 0 to |c.auth.users|
      invariant forall j :: 0 <= j < i ==> c.auth.users[j].username != name
    {
      if c.auth.users[i].username == name {
        ok := GroupsCan(c.auth, c.auth.users[i].groups, host, action);
        return;
      }
    }
    ok := false;
  }

  function HostNames(c: Settings): seq<string>
  {
    seq(|c.hosts|, i requires 0 <= i < |c.hosts| => c.hosts[i].name)
  }

  function MaySee(c: Settings, index: map<string, nat>, groups: seq<string>): string -> bool
    requires Indexes(index, c.hosts)
  {
    n => PrincipalCan(c, index, groups, n, STATUS)
  }

  lemma KeptExactly(c: Settings, keep: string -> bool, n: string)
    ensures n in Filter(HostNames(c), keep)
            <==> (exists i :: 0 <= i < |c.hosts| && c.hosts[i].name == n) && keep(n)
  {
    FilterMember(HostNames(c), keep, n);
    if i :| 0 <= i < |c.hosts| && c.hosts[i].name == n {
      assert HostNames(c)[i] == n;
    }
  }

  lemma VisibleExactly(c: Settings, index: map<string, nat>, groups: seq<string>)
    requires Indexes(index, c.hosts)
    ensures forall n :: n in Filter(HostNames(c), MaySee(c, index, groups)) <==>
              (exists i :: 0 <= i < |c.hosts| && c.hosts[i].name == n)
              && PrincipalCan(c, index, groups, n, STATUS)
  {
    var keep := MaySee(c, index, groups);
    forall n
      ensures n in Filter(HostNames(c), keep)
              <==> (exists i :: 0 <= i < |c.hosts| && c.hosts[i].name == n) && keep(n)
    {
      KeptExactly(c, keep, n);
    }
  }

  /** Names of the hosts a principal may see, in configuration order. */
  method VisibleHosts(c: Settings, index: map<string, nat>, groups: seq<string>)
      returns (names: seq<string>)
    requires Indexes(index, c.hosts)
    ensures forall n :: n in names <==>
              (exists i :: 0 <= i < |c.hosts| && c.hosts[i].name == n)
              && PrincipalCan(c, index, groups, n, "status")
    ensures names == Filter(HostNames(c), MaySee(c, index, groups))
  {
    ghost var keep := MaySee(c, index, groups);
    names := [];
    for i := 0 to |c.hosts|
      invariant names == Filter(HostNames(c)[..i], keep)
    {
      FilterAppend(HostNames(c)[..i], c.hosts[i].name, keep);
      assert HostNames(c)[..i] + [c.hosts[i].name] == HostNames(c)[..i + 1];
      if PrincipalCan(c, index, groups, c.hosts[i].name, STATUS) {
        names := names + [c.hosts[i].name];
      }
    }
    assert HostNames(c)[..|c.hosts|] == HostNames(c);
    VisibleExactly(c, index, groups);
  }

  /** In a well-formed configuration a permission on a host that does not exist can only
      come from a wildcard: naming the host in a group is rejected at load time. */
  lemma UnknownHostNeedsWildcard(c: Settings, syntax: Syntax, groups: seq<string>, host: string,
                                 action: string)
    requires WellFormed(c, syntax) && c.auth.enabled && !IsHostName(c, host) && host != WILDCARD
    requires GroupsAllow(c.auth, groups, host, action)
    ensures exists g :: g in groups && g in c.auth.groups && WILDCARD in c.auth.groups[g].hosts
  {
    var i :| 0 <= i < |groups| && groups[i] in c.auth.groups
             && GroupAllows(c.auth.groups[groups[i]], host, action);
    assert host !in c.auth.groups[groups[i]].hosts;
    assert groups[i] in groups;
  }
}
