/** Minting a certificate for one action on one host (internal/server/api_ssh_cert.go), with the
    permission checks before it. The handler loads the configuration anew for every question it
    asks, so a reload can land between any two. */
module AgentCert {
  import opened Text
  import opened Config
  import opened ConfigLoad
  import opened Permissions
  import Ca = SshCa

  /** A configuration in force, with its name index. */
  datatype Live = Live(c: Settings, index: map<string, nat>)

  /** What each load of the configuration during one request gets. */
  ghost predicate Indexed(during: nat -> Live)
  {
    forall k :: Indexes(during(k).index, during(k).c.hosts)
  }

  /** Server.canDo, at the k-th load and the two after it. The caller is the groups of the
      principal in the request, if there is one. */
  predicate CanDo(during: nat -> Live, k: nat, caller: Option<seq<string>>, host: string,
                  action: string)
    requires Indexed(during)
  {
    && !Forbidden(during(k).c, during(k).index, host, action)
    && (during(k + 1).c.auth.enabled ==>
          && caller.Some?
          && PrincipalCan(during(k + 2).c, during(k + 2).index, caller.value, host, action))
  }

  function MaintenanceUser(c: Settings, h: Host): string
  {
    if h.maintenanceUser != "" then h.maintenanceUser
    else if h.ssh.Some? && h.ssh.value.user != "" then h.ssh.value.user
    else c.sshDefaults.user
  }

  function ClampTtl(requested: int, max: int): int
  {
    if requested <= 0 || requested > max then max else requested
  }

  const SHUTDOWN_COMMAND := "sudo -n shutdown -hP now"

  /** Only shutdown maps to a command today. */
  function CommandForAction(action: string): Option<string>
  {
    if action == SHUTDOWN then Some(SHUTDOWN_COMMAND) else None
  }

  /** What came of the public key, given or generated. */
  datatype Key = GoodKey | BadKey | NoKeyMade

  datatype Request = Request(action: string, ttl: int, key: Key)

  datatype Refusal =
    | CaDisabled | HostNotFound | Forbidding(action: string) | BadRequest | NoSuchAction
    | BadPublicKey | KeygenFailed | NoMaintenanceUser | SigningFailed

  datatype Reply = Minted(cert: Ca.Certificate) | Refused(why: Refusal)

  /** What is asked for once the host is found and may be asked about. */
  function MintFor(h: Host, caller: Option<seq<string>>, body: Request, during: nat -> Live,
                   keyId: string, now: int): Reply
    requires Indexed(during)
  {
    var action := if body.action == "" then SHUTDOWN else body.action;
    match CommandForAction(action)
    case None => Refused(NoSuchAction)
    case Some(command) =>
      if !CanDo(during, 7, caller, h.name, action) then Refused(Forbidding(action))
      else
        var ttl := ClampTtl(body.ttl, during(10).c.sshCa.agentTtl) * Ca.SECOND;
        var user := MaintenanceUser(during(11).c, h);
        if body.key == BadKey then Refused(BadPublicKey)
        else if body.key == NoKeyMade then Refused(KeygenFailed)
        else if user == "" then Refused(NoMaintenanceUser)
        else
          match Ca.SignUserCert(Ca.CertOptions(keyId, [user], ttl, command, true, true, true, true),
                                now)
          case None => Refused(SigningFailed)
          case Some(cert) => Minted(cert)
  }

  /** One request; a body that does not decode is None. */
  function Mint(ca: bool, name: string, caller: Option<seq<string>>, body: Option<Request>,
                during: nat -> Live, keyId: string, now: int): Reply
    requires Indexed(during)
  {
    if !ca then Refused(CaDisabled)
    else if name !in during(0).index then Refused(HostNotFound)
    else
      var h := during(0).c.hosts[during(0).index[name]];
      if !CanDo(during, 1, caller, h.name, STATUS) then Refused(HostNotFound)
      else if !CanDo(during, 4, caller, h.name, SSH_CERT) then Refused(Forbidding(SSH_CERT))
      else if body.None? then Refused(BadRequest)
      else MintFor(h, caller, body.value, during, keyId, now)
  }

  // ---- what a certificate is good for ----------------------------------------------

  /** The lifetime of an agent certificate, for every agent TTL. If that is positive: what was
      asked for, if that is positive and no more, and otherwise the agent TTL, plus the skew.
      If it is not: five minutes plus the skew. Validation lets a negative one through
      (ConfigLoad.NegativeTtlPasses). */
  lemma AgentLifetime(ca: bool, name: string, caller: Option<seq<string>>, body: Option<Request>,
                      during: nat -> Live, keyId: string, now: int)
    requires Indexed(during) && Mint(ca, name, caller, body, during, keyId, now).Minted?
    ensures var cert := Mint(ca, name, caller, body, during, keyId, now).cert;
            var life, agentTtl := cert.validBefore - cert.validAfter, during(10).c.sshCa.agentTtl;
            && cert.validAfter <= Ca.Unix(now) < cert.validBefore
            && cert.validAfter == Ca.Unix(now) - 30
            && (agentTtl > 0 && 0 < body.value.ttl <= agentTtl ==> life == body.value.ttl + 30)
            && (agentTtl > 0 && !(0 < body.value.ttl <= agentTtl) ==> life == agentTtl + 30)
            && (agentTtl > 0 ==> cert.validBefore <= Ca.Unix(now) + agentTtl)
            && (agentTtl <= 0 ==> life == 300 + 30)
  {
    var ttl := ClampTtl(body.value.ttl, during(10).c.sshCa.agentTtl);
    Ca.UnixShift(now, -30);
    Ca.UnixShift(now, ttl);
    Ca.UnixShift(now, 300);
  }

  /** No certificate without the three checks, and what is in it. */
  lemma MintChecks(ca: bool, name: string, caller: Option<seq<string>>, body: Option<Request>,
                   during: nat -> Live, keyId: string, now: int)
    requires Indexed(during) && Mint(ca, name, caller, body, during, keyId, now).Minted?
    ensures CanDo(during, 1, caller, name, STATUS) && CanDo(during, 4, caller, name, SSH_CERT)
    ensures CanDo(during, 7, caller, name, SHUTDOWN)
    ensures var cert := Mint(ca, name, caller, body, during, keyId, now).cert;
            && |cert.principals| == 1 && cert.principals[0] != ""
            && cert.permissions.criticalOptions == map["force-command" := "sudo -n shutdown -hP now"]
            && cert.permissions.extensions == map[]
  {
    assert during(0).c.hosts[during(0).index[name]].name == name;
  }

  lemma GroupsAsked(during: nat -> Live, k: nat, caller: Option<seq<string>>, host: string,
                    action: string)
    requires Indexed(during) && CanDo(during, k, caller, host, action)
    requires forall i :: during(i).c.auth.enabled
    ensures caller.Some? && GroupsAllow(during(k + 2).c.auth, caller.value, host, action)
  {
    assert during(k + 1).c.auth.enabled && during(k + 2).c.auth.enabled;
  }

  /** Wherever a reload lands, an agent certificate runs one command as one user and nothing
      else; and, with auth on throughout, the caller had a group for each of the three actions
      on that host when it was asked for, while the host was not pinned against shutdown. */
  lemma AgentCertIsPinned(ca: bool, name: string, caller: Option<seq<string>>,
                          body: Option<Request>, during: nat -> Live, keyId: string, now: int)
    requires Indexed(during) && Mint(ca, name, caller, body, during, keyId, now).Minted?
    ensures var cert := Mint(ca, name, caller, body, during, keyId, now).cert;
            && |cert.principals| == 1 && cert.principals[0] != ""
            && cert.permissions.criticalOptions == map["force-command" := "sudo -n shutdown -hP now"]
            && cert.permissions.extensions == map[]
    ensures !Forbidden(during(7).c, during(7).index, name, SHUTDOWN)
    ensures (forall k :: during(k).c.auth.enabled) ==>
              && caller.Some?
              && GroupsAllow(during(3).c.auth, caller.value, name, STATUS)
              && GroupsAllow(during(6).c.auth, caller.value, name, SSH_CERT)
              && GroupsAllow(during(9).c.auth, caller.value, name, SHUTDOWN)
  {
    MintChecks(ca, name, caller, body, during, keyId, now);
    if forall k :: during(k).c.auth.enabled {
      GroupsAsked(during, 1, caller, name, STATUS);
      GroupsAsked(during, 4, caller, name, SSH_CERT);
      GroupsAsked(during, 7, caller, name, SHUTDOWN);
    }
  }

  // ---- without a reload ------------------------------------------------------------

  /** May the caller do this to the host, by grants alone? */
  predicate Granted(a: Auth, caller: Option<seq<string>>, host: string, action: string)
  {
    a.enabled ==> caller.Some? && GroupsAllow(a, caller.value, host, action)
  }

  lemma SteadyCanDo(live: Live, k: nat, caller: Option<seq<string>>, host: string, action: string)
    requires Indexes(live.index, live.c.hosts)
    ensures CanDo(_ => live, k, caller, host, action)
            <==> !Forbidden(live.c, live.index, host, action)
                 && Granted(live.c.auth, caller, host, action)
  {
  }

  /** What the body asks for can be minted. */
  predicate Asks(body: Option<Request>)
  {
    body.Some? && body.value.action in {"", SHUTDOWN} && body.value.key == GoodKey
  }

  /** The host a certificate could be for. */
  predicate Offers(c: Settings, caller: Option<seq<string>>, h: Host)
  {
    && !h.noShutdown
    && (h.maintenanceUser != "" || (h.ssh.Some? && h.ssh.value.user != "") || c.sshDefaults.user != "")
    && Granted(c.auth, caller, h.name, SSH_CERT) && Granted(c.auth, caller, h.name, SHUTDOWN)
  }

  /** The host's own maintenance user comes first, then its SSH user, then the default one. */
  predicate LogsInAs(c: Settings, h: Host, user: string)
  {
    && (h.maintenanceUser != "" ==> user == h.maintenanceUser)
    && (h.maintenanceUser == "" && h.ssh.Some? && h.ssh.value.user != "" ==> user == h.ssh.value.user)
    && (h.maintenanceUser == "" && (h.ssh.None? || h.ssh.value.user == "") ==>
          user == c.sshDefaults.user)
  }

  lemma SteadyMint(live: Live, name: string, caller: Option<seq<string>>, body: Option<Request>,
                   keyId: string, now: int)
    requires Indexes(live.index, live.c.hosts)
    ensures var r := Mint(true, name, caller, body, _ => live, keyId, now);
            var visible := Granted(live.c.auth, caller, name, STATUS);
            && (r.Minted? <==>
                  visible && Asks(body) && name in live.index
                  && Offers(live.c, caller, live.c.hosts[live.index[name]]))
            && (r.Minted? ==>
                  exists user :: r.cert.principals == [user]
                                 && LogsInAs(live.c, live.c.hosts[live.index[name]], user))
            && (r == Refused(HostNotFound) <==> name !in live.index || !visible)
  {
    SteadyCanDo(live, 1, caller, name, STATUS);
    SteadyCanDo(live, 4, caller, name, SSH_CERT);
    SteadyCanDo(live, 7, caller, name, SHUTDOWN);
    if name in live.index {
      assert live.c.hosts[live.index[name]].name == name;
    }
  }

  /** With no reload during the request: a certificate is minted exactly for an unpinned,
      configured host with a maintenance user, on which the caller holds all three grants; and
      a host the caller may not see is answered exactly like one that does not exist. */
  lemma MintedExactly(live: Live, syntax: Syntax, name: string, caller: Option<seq<string>>,
                      body: Option<Request>, keyId: string, now: int)
    requires Indexes(live.index, live.c.hosts) && WellFormed(live.c, syntax)
    ensures var r, hosts := Mint(true, name, caller, body, _ => live, keyId, now), live.c.hosts;
            var visible := Granted(live.c.auth, caller, name, STATUS);
            && (r.Minted? <==>
                  visible && Asks(body)
                  && exists i :: 0 <= i < |hosts| && hosts[i].name == name
                                 && Offers(live.c, caller, hosts[i]))
            && (r.Minted? ==>
                  exists i, user :: 0 <= i < |hosts| && hosts[i].name == name
                                    && r.cert.principals == [user]
                                    && LogsInAs(live.c, hosts[i], user))
            && (r == Refused(HostNotFound) <==>
                  !visible || forall i :: 0 <= i < |hosts| ==> hosts[i].name != name)
  {
    SteadyMint(live, name, caller, body, keyId, now);
    IndexIsExact(live.index, live.c, syntax, name);
  }

  /** What is said once the caller may see the host and ask for certificates. */
  lemma SteadyMintFor(live: Live, h: Host, caller: Option<seq<string>>, body: Request,
                      keyId: string, now: int)
    requires Indexes(live.index, live.c.hosts)
    requires h.name in live.index && live.c.hosts[live.index[h.name]] == h
    ensures var r := MintFor(h, caller, body, _ => live, keyId, now);
            var asks := body.action in {"", SHUTDOWN};
            var mayAct := asks && !h.noShutdown && Granted(live.c.auth, caller, h.name, SHUTDOWN);
            && (r == Refused(NoSuchAction) <==> !asks)
            && (r == Refused(Forbidding(SHUTDOWN)) <==> asks && !mayAct)
            && (r == Refused(BadPublicKey) <==> mayAct && body.key == BadKey)
            && (r == Refused(KeygenFailed) <==> mayAct && body.key == NoKeyMade)
            && (r == Refused(NoMaintenanceUser) <==>
                  mayAct && body.key == GoodKey && LogsInAs(live.c, h, ""))
            && r != Refused(HostNotFound) && r != Refused(Forbidding(SSH_CERT))
            && r != Refused(BadRequest)
  {
    SteadyCanDo(live, 7, caller, h.name, SHUTDOWN);
    assert |SSH_CERT| == 8 && SSH_CERT[1] != SHUTDOWN[1];
  }

  lemma SteadyFirst(live: Live, h: Host, caller: Option<seq<string>>, body: Option<Request>,
                    keyId: string, now: int)
    requires Indexes(live.index, live.c.hosts)
    requires h.name in live.index && live.c.hosts[live.index[h.name]] == h
    ensures var a := live.c.auth;
            Mint(true, h.name, caller, body, _ => live, keyId, now)
            == if !Granted(a, caller, h.name, STATUS) then Refused(HostNotFound)
               else if !Granted(a, caller, h.name, SSH_CERT) then Refused(Forbidding(SSH_CERT))
               else if body.None? then Refused(BadRequest)
               else MintFor(h, caller, body.value, _ => live, keyId, now)
  {
    SteadyCanDo(live, 1, caller, h.name, STATUS);
    SteadyCanDo(live, 4, caller, h.name, SSH_CERT);
    assert |SSH_CERT| == 8 && SSH_CERT[1] != SHUTDOWN[1];
  }

  /** The first of the grants for status, ssh-cert and shutdown, and the pin, that stands in the
      way decides what the caller is told; faults of the request come after the first two, and
      a missing maintenance user last. */
  lemma RefusedExactly(live: Live, syntax: Syntax, name: string, caller: Option<seq<string>>,
                       body: Option<Request>, keyId: string, now: int, h: Host)
    requires Indexes(live.index, live.c.hosts) && WellFormed(live.c, syntax)
    requires h in live.c.hosts && h.name == name
    ensures var r, a := Mint(true, name, caller, body, _ => live, keyId, now), live.c.auth;
            var seen := Granted(a, caller, name, STATUS);
            var mayMint := seen && Granted(a, caller, name, SSH_CERT);
            var asks := mayMint && body.Some? && body.value.action in {"", SHUTDOWN};
            var mayAct := asks && !h.noShutdown && Granted(a, caller, name, SHUTDOWN);
            && (r == Refused(HostNotFound) <==> !seen)
            && (r == Refused(Forbidding(SSH_CERT)) <==> seen && !mayMint)
            && (r == Refused(BadRequest) <==> mayMint && body.None?)
            && (r == Refused(NoSuchAction) <==> mayMint && body.Some? && !asks)
            && (r == Refused(Forbidding(SHUTDOWN)) <==> asks && !mayAct)
            && (r == Refused(BadPublicKey) <==> mayAct && body.value.key == BadKey)
            && (r == Refused(KeygenFailed) <==> mayAct && body.value.key == NoKeyMade)
            && (r == Refused(NoMaintenanceUser) <==>
                  mayAct && body.value.key == GoodKey && LogsInAs(live.c, h, ""))
  {
    IndexIsExact(live.index, live.c, syntax, name);
    var i :| 0 <= i < |live.c.hosts| && live.c.hosts[i] == h;
    SteadyFirst(live, h, caller, body, keyId, now);
    if body.Some? {
      SteadyMintFor(live, h, caller, body.value, keyId, now);
    }
  }
}
