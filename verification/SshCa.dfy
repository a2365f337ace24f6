/** What internal/sshca/sshca.go puts into a certificate. Times are nanoseconds since the Unix
    epoch; a certificate records whole seconds. Signing itself is not modelled. */
module SshCa {
  import opened Text

  const SECOND: int := 1_000_000_000
  const FIVE_MINUTES: int := 300 * SECOND
  const SKEW: int := 30 * SECOND

  /** `t.Unix()`. */
  function Unix(t: int): int { t / SECOND }

  datatype Permissions =
    Permissions(criticalOptions: map<string, string>, extensions: map<string, string>)

  datatype CertOptions = CertOptions(keyId: string, principals: seq<string>, ttl: int,
                                     forceCommand: string, noPty: bool, noPortForwarding: bool,
                                     noX11Forwarding: bool, noAgentForwarding: bool)

  datatype CertType = UserCert | HostCert

  datatype Certificate = Certificate(certType: CertType, keyId: string, principals: seq<string>,
                                     validAfter: int, validBefore: int, permissions: Permissions)

  const PTY := "permit-pty"
  const PORT_FORWARDING := "permit-port-forwarding"
  const X11_FORWARDING := "permit-X11-forwarding"
  const AGENT_FORWARDING := "permit-agent-forwarding"

  predicate Permitted(opts: CertOptions, extension: string)
  {
    || (extension == PTY && !opts.noPty)
    || (extension == PORT_FORWARDING && !opts.noPortForwarding)
    || (extension == X11_FORWARDING && !opts.noX11Forwarding)
    || (extension == AGENT_FORWARDING && !opts.noAgentForwarding)
  }

  /** The extensions are exactly those not switched off; a force-command is the only
      critical option there can be. */
  function PermissionsFor(opts: CertOptions): Permissions
  {
    Permissions(
      if opts.forceCommand == "" then map[] else map["force-command" := opts.forceCommand],
      map x | x in {PTY, PORT_FORWARDING, X11_FORWARDING, AGENT_FORWARDING}
              && Permitted(opts, x) :: "")
  }

  function Add(m: map<string, string>, key: string, wanted: bool): map<string, string>
  {
    if wanted then m[key := ""] else m
  }

  method BuildPermissions(opts: CertOptions) returns (p: Permissions)
    ensures p == PermissionsFor(opts)
  {
    var critical: map<string, string>, extensions: map<string, string> := map[], map[];
    if opts.forceCommand != "" {
      critical := critical["force-command" := opts.forceCommand];
    }
    extensions := Add(extensions, PTY, !opts.noPty);
    extensions := Add(extensions, PORT_FORWARDING, !opts.noPortForwarding);
    extensions := Add(extensions, X11_FORWARDING, !opts.noX11Forwarding);
    extensions := Add(extensions, AGENT_FORWARDING, !opts.noAgentForwarding);
    p := Permissions(critical, extensions);
  }

  /** The TTL a request gets: five minutes unless it asks for a positive one. */
  function EffectiveTtl(ttl: int): int { if ttl <= 0 then FIVE_MINUTES else ttl }

  /** SignUserCert at clock reading `now`; None when no principal is given. */
  function SignUserCert(opts: CertOptions, now: int): Option<Certificate>
  {
    if opts.principals == [] then None
    else
      Some(Certificate(UserCert, opts.keyId, opts.principals, Unix(now - SKEW),
                       Unix(now + EffectiveTtl(opts.ttl)), PermissionsFor(opts)))
  }

  const YEAR_OF_WEEKS: int := 52 * 7 * 24 * 3600 * SECOND

  /** SignHostCert: the same window with a 52-week default, and no permissions at all. */
  function SignHostCert(keyId: string, principals: seq<string>, ttl: int, now: int)
      : Option<Certificate>
  {
    if principals == [] then None
    else
      Some(Certificate(HostCert, keyId, principals, Unix(now - SKEW),
                       Unix(now + if ttl <= 0 then YEAR_OF_WEEKS else ttl),
                       Permissions(map[], map[])))
  }

  lemma UnixShift(t: int, s: int)
    ensures Unix(t + s * SECOND) == Unix(t) + s
  {
  }

  /** A certificate signed at `now` for `ttl`: it starts 30 seconds back, ends less than a
      second before the TTL does, and is valid right now unless the TTL is so short that it
      ends within the current second. */
  ghost predicate Window(cert: Certificate, ttl: int, now: int)
  {
    && cert.validAfter == Unix(now) - 30
    && Unix(now) <= cert.validBefore
    && now + ttl - SECOND < cert.validBefore * SECOND <= now + ttl
    && (Unix(now) < cert.validBefore <==> now % SECOND + ttl >= SECOND)
  }

  lemma WindowHolds(cert: Certificate, ttl: int, now: int)
    requires ttl > 0 && cert.validAfter == Unix(now - SKEW) && cert.validBefore == Unix(now + ttl)
    ensures Window(cert, ttl, now)
  {
    UnixShift(now, -30);
    assert now + ttl == Unix(now) * SECOND + (now % SECOND + ttl);
    UnixShift(now % SECOND + ttl, Unix(now));
  }

  lemma SignedWindow(opts: CertOptions, now: int)
    ensures SignUserCert(opts, now).Some? <==> opts.principals != []
    ensures opts.principals != [] ==>
              Window(SignUserCert(opts, now).value,
                     if opts.ttl <= 0 then 300 * 1_000_000_000 else opts.ttl, now)
  {
    if opts.principals != [] {
      WindowHolds(SignUserCert(opts, now).value, EffectiveTtl(opts.ttl), now);
    }
  }

  /** Host certificates keep the same window, and carry neither options nor extensions. */
  lemma HostWindow(keyId: string, principals: seq<string>, ttl: int, now: int)
    ensures var r := SignHostCert(keyId, principals, ttl, now);
            && (r.Some? <==> principals != [])
            && (r.Some? ==>
                  && Window(r.value, if ttl <= 0 then 31_449_600 * 1_000_000_000 else ttl, now)
                  && r.value.certType == HostCert && r.value.principals == principals
                  && r.value.permissions == Permissions(map[], map[]))
  {
    if principals != [] {
      WindowHolds(SignHostCert(keyId, principals, ttl, now).value,
                  if ttl <= 0 then YEAR_OF_WEEKS else ttl, now);
    }
  }
}
