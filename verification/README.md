# braingler, verified

A Dafny model of the parts of braingler in which several goroutines share live state, and of
the codecs and parsers around them. braingler polls a fleet of hosts, keeps their status in a
registry, shows it on a dashboard over server-sent events, offers an event log to agents,
mints short-lived SSH certificates, and swaps its configuration on SIGHUP while all of that
runs.

`dafny verify dfyconfig.toml` checks everything. One file holds one module.

| files | what they model |
|---|---|
| `Monitor`, `MonitorHistory` | `Run`, the SIGHUP goroutine and one goroutine per host as interleaved atomic steps, and what every run keeps |
| `MonitorSpells`, `MonitorOverlap`, `MonitorReturn` | what happens to a host that is removed and added back, and exactly when each of its two histories is safe |
| `MonitorObject`, `MonitorPass`, `Schedule` | the monitor as an object with its loops; one undisturbed pass, tied to the interleaved steps; which check is due when |
| `Hosts`, `PubSub` | the registry object and its history; the subscription hub it shares with the event log, both as a state machine and as objects |
| `Events`, `EventApi`, `EventStream` | the bounded log against its unbounded history; paging; replay followed by live streaming |
| `Sse`, `Viewer` | the frames and a parser for them (WHATWG HTML Living Standard, sections 9.2.5 and 9.2.6; `LineEndings`, `FieldRules` and `BlankRule` say what it makes of other streams); one dashboard connection under concurrent updates and reloads |
| `CertCache`, `SshCa`, `AgentCert` | the maintenance-certificate cache under concurrent callers; what a certificate holds and for how long; the endpoint that mints one for an agent |
| `Cookie`, `Base64` | the session cookie; unpadded base64url (RFC 4648, sections 5 and 3.2) |
| `Config`, `ConfigLoad`, `Permissions` | validation rules, the validating pass with its name index, permission checks |
| `Checks`, `Memory` | the `df` table with its in-place insertion sort; `/proc/meminfo` |
| `Text`, `Words`, `Seqs` | Go's string functions; splitting at white space; filtering |

Two forms are used. Concurrent behaviour is a labelled step relation over values (`Enabled`,
`Next`), and the theorems quantify over every sequence of enabled steps. Objects whose methods
update fields are classes, and their methods are specified by the same functions that the step
relation uses. Pings, SSH results, clock readings, configuration files, signatures and the HMAC
are parameters or nondeterministic inputs. Clocks are nanosecond integers that never run
backwards; a certificate records whole seconds.

## What came out

Properties that hold as one would wish are listed in the table. Where the code falls short of
the obvious wish, the model keeps the code and proves exactly when the wish is met:

- **A worker that was cancelled is not waited for** (internal/monitor/monitor.go:95-97). If a
  host is removed and added back while its old worker is in the middle of a pass, the host's
  state-change events may stop forming a chain, and a host may be shown as down with readings
  left over. The exact conditions, for any sequence of acceptable configurations: its events
  form a chain on every run if and only if the host is not pinged again once it has been
  configured and then removed (`ChainExactly`); it shows no readings while down on every run if
  and only if it is not pinged both before and after a removal, or never has its ping and a
  check enabled at once (`ClearedExactly`). The comment in `Run` speaks of waiting for the
  workers to drain; the code only cancels them.
- **`Run`'s own reconcile may act on a configuration that a SIGHUP has just replaced**
  (`RunMayBeStale`); it leaves the map right exactly if the hosts it read are still the
  configured ones (`RunApplyExactly`). The `Reload` that follows repairs it, so the statement
  about the workers map is made for states without a pending reload.
- **The snapshot loop of the dashboard re-reads the configuration for every index**
  (internal/server/sse.go:38-39), with a bound read once. A reload during the loop that stores
  fewer hosts than were counted makes it index out of range, exactly if hosts are still to be
  looked up (`ShrinkingReloadCrashes`; a run in `ShrinkingReloadRun`). A reload that only
  reorders the hosts can make it pass over one, which is then missing on the screen although
  it was configured, visible and registered throughout (`ReorderingReloadHides`). Reloads that
  leave room for the loop and do not move the host behind it are harmless, and no others are
  (`HarmlessExactly`).
- **A publish that meets a full channel is dropped**, so a card can stay behind the registry
  although everything has been received (`DroppedPublishIsMissed`; a run to such a state in
  `DroppedPublishRun`). `ViewerConverges` therefore asks that the latest publish was not dropped.
- **The event stream looks at its cursor during the replay only.** The cursor is honoured
  exactly if it does not exceed the newest ID at the time of the replay query
  (`CursorHonouredExactly`). Events appended between the replay query and the subscription,
  more than 1000 replayed events, an eviction and a full buffer are the only ways to lose a
  visible event (`StreamExact`). The comment on the handler promises a `:start` comment that
  is never written.
- **Expiries far in the future wrap around in `time.Unix`**, so cookies whose expiry exceeds
  2^63 - 1 - 62135596800 seconds count as expired (`CookieRoundTrip`).
- **A negative agent TTL passes the defaults and the validation** (`NegativeTtlPasses`), and
  certificates then get the five-minute fallback; for a positive one the fallback is never
  taken (`AgentLifetime`).
- **The certificate cache key joins host and user with a NUL**, and two pairs share a key
  exactly if a NUL in one host and a NUL in the other user line up (`KeyAmbiguous`); then a
  certificate for one pair is handed out for the other (`CollisionMisleads`). Validation does
  not exclude such names.
- **The meminfo fallback stops at the first `MemFree` line**, readable or not
  (`FirstFreeDecides`; a report whose second such line would have been usable in
  `SecondFreeUnused`; that the parser does this is `ParseMemInfo` with `OneReport`).

## Model

| member | source | states |
|---|---|---|
| Monitor.OneUncancelledWorker | internal/monitor/monitor.go:80-114 | in every interleaving of Run, SIGHUP reloads, cancellation and worker steps, a host has at most one uncancelled worker |
| Monitor.WorkersMatchConfig | internal/monitor/monitor.go:55-141 | once Run's reconcile is through and until the context is cancelled, whenever no Reload is pending the workers map lists exactly the configured hosts, and each has exactly one worker that is neither cancelled nor gone |
| Monitor.ReloadApplied | main.go:158-178 | every Reload that takes effect leaves the map equal to the configured hosts, each served, whatever Run is doing |
| Monitor.ReloadsStayCompatible | internal/config/pointer.go:37-54 | across any number of reloads the configuration in force is well-formed and agrees with the first one on listen address, socket and all CA fields that may not change |
| Monitor.ConflictExactly | internal/config/pointer.go:37-54 | a reload is refused if and only if the listen section, the CA switch or one of the two CA key files differs, and the first of them that does is the one named |
| Monitor.HupLoadExactly | main.go:158-175 | a SIGHUP takes effect if and only if the file is acceptable and those four fields agree with the configuration in force; otherwise nothing changes |
| Monitor.RunApplyExactly | internal/monitor/monitor.go:55-114 | Run's own reconcile leaves the map equal to the configured hosts if and only if the hosts it read are still the configured ones |
| Monitor.RunMayBeStale | main.go:164-174 | for any two compatible configurations with different hosts there is a run on which Run is up with a map that is not the configured host set |
| Monitor.RunKeeps | internal/monitor/monitor.go:80-141 | the invariant behind these, on every reachable state: the map entry of a host is its newest goroutine and the only uncancelled one, and has exited only if the host has left the configuration and a Reload is on its way |
| Monitor.NothingAfterStop | internal/monitor/monitor.go:63-76 | on every run, once Run has come to its end every goroutine of every host is cancelled, those of hosts removed long ago included, and no SIGHUP starts another |
| Monitor.LogIsNumbered | internal/events/events.go:67-86 | on every run the events of the log bear their positions, whoever appends them |
| MonitorHistory.StateChangesFormChain | internal/monitor/monitor.go:150-182 | on every run whose workers for a host do not overlap in their reports, its events start from "unknown", never stay put, each From is the previous To, and while no report is under way the last To is the registry's value, also across removal and re-adding |
| MonitorHistory.DownMeansCleared | internal/monitor/monitor.go:150-192 | on every run whose workers for a host do not overlap in the second half of a pass, a host that is down has zero uptime, load and memory and no disks |
| MonitorHistory.OverlapNeedsStraggler | internal/monitor/monitor.go:93-99 | workers of a host overlap only while a cancelled one is still inside its pass |
| MonitorHistory.OneSpellOneWorker | internal/monitor/monitor.go:80-114 | a host that is not configured again after having been removed gets at most one goroutine in its whole life |
| MonitorSpells.UnpingedReturnHistory | internal/monitor/monitor.go:143-193 | for a host that is not pinged again once it has been removed - there from the start or added later, kept, gone for good, or back without its ping - the chain and the cleared-when-down property hold on every run, without further hypothesis |
| MonitorSpells.OneSpellCleared | internal/monitor/monitor.go:143-229 | a host that is pinged in one spell only, whatever it was before and is afterwards, shows no readings while down on every run |
| MonitorOverlap.ReturnBreaksChain | internal/monitor/monitor.go:143-182 | from any state in which two workers of a pinged host, one of them not cancelled, are about to start a pass, whatever happened before, its events can stop being a chain |
| MonitorOverlap.ReturnLeavesReading | internal/monitor/monitor.go:151-278 | from any state in which one worker of a host is asking for a check and another holds the answer that the host is down, whichever is older, the host can end up down with a reading |
| MonitorOverlap.SeenLeads | internal/monitor/monitor.go:80-278 | whatever turns one host's workers and reloads can take, a run of the whole system, other hosts included, takes |
| MonitorReturn.ChainExactly | internal/monitor/monitor.go:80-193 | along any acceptable configurations, pinging the host or not, its events form a chain on every run if and only if it is not pinged again after having been there and removed |
| MonitorReturn.PingedChainExactly | internal/monitor/monitor.go:80-193 | in particular, for a host that is pinged wherever it is configured, if and only if it does not return |
| MonitorReturn.ClearedExactly | internal/monitor/monitor.go:80-278 | along any acceptable configurations, the host shows no readings while down on every run if and only if it is not pinged both before and after a removal, or is never pinged and checked at once |
| MonitorObject.Monitor.Reconcile | internal/monitor/monitor.go:80-114 | the two loops, in any iteration order, leave exactly the workers map, goroutines and registry entries of the machine's reconcile step; before Run and after its end, nothing changes |
| MonitorObject.Monitor.StopDeparted | internal/monitor/monitor.go:93-99 | exactly the workers of departed hosts are cancelled and dropped from the map |
| MonitorObject.Monitor.StartNew | internal/monitor/monitor.go:102-113 | every wanted host without a worker is registered and gets a fresh goroutine; the others are untouched |
| MonitorObject.Monitor.Begin | internal/monitor/monitor.go:55-59 | Run's first half sets the context and reconciles; after an earlier end only the context is set |
| MonitorObject.Monitor.End | internal/monitor/monitor.go:63-69 | Run's second half cancels every worker in the map and makes later reconciles no-ops |
| MonitorObject.Monitor.Hup | main.go:164-175 | the new configuration is applied if and only if the file loads and agrees on the listen section, the CA switch and the two CA key files; then the pointer is swapped and the map follows the new host set, otherwise nothing changes |
| MonitorObject.Monitor.CheckOnce | internal/monitor/monitor.go:143-193 | one undisturbed pass changes this host's status only: up, down or unknown as the ping says, with its error and time; cleared figures if down; each figure of a due check that answered is that answer, every other figure what it was, a refused connection its error; and exactly one state_change event, from the old to the new reachability, if and only if they differ; with ping disabled or the host unknown it changes nothing |
| MonitorObject.PassOutcome | internal/monitor/monitor.go:151-275 | for any status, ping result and answers, what a pass computes is described figure by figure as above |
| MonitorObject.Monitor.CommitPing | internal/monitor/monitor.go:150-182 | the ping result is written, field by field as the ping demands, and an event with the old and the new reachability and the error is appended if and only if they differ; Name and LastChange are left to the registry |
| MonitorObject.Monitor.RunSshChecks | internal/monitor/monitor.go:215-275 | a failed dial records its error and nothing else; otherwise every check that answered determines its own figure, uptime, load, memory or disks, and all other figures keep their values |
| MonitorPass.PassAlone | internal/monitor/monitor.go:143-229 | a worker of the interleaved machine that is left alone after its ping performs exactly the sequential pass, for every ping and every check outcome |
| MonitorPass.PassClearsDown | internal/monitor/monitor.go:151-183 | a pass that ends in down leaves no reading, reports exactly its own change, and stamps LastChange exactly then |
| Schedule.DueSshChecks | internal/monitor/monitor.go:197-210 | the loop returns exactly the due ones of uptime, load, memory, disk, in this order |
| Schedule.DueExactly | internal/monitor/monitor.go:117-123 | an enabled check of period N is due floor(T/N) times in ticks 1..T, a disabled one never |
| Schedule.DueOncePerPeriod | internal/monitor/monitor.go:197-210 | any N consecutive ticks contain exactly one that is due |
| Schedule.DefaultsKeepSchedule | internal/config/config.go:190-195 | the loader's defaulting of `every` never changes the schedule |
| Hosts.Registry.Register | internal/hosts/hosts.go:121-129 | a new name is appended with a fresh status, a known one is left alone |
| Hosts.Registry.Update | internal/hosts/hosts.go:153-168 | the mutated status is stored, stamped exactly when reachability changed, offered to every subscriber, and the previous reachability returned; an unknown name changes nothing |
| Hosts.Registry.Snapshot | internal/hosts/hosts.go:140-148 | the statuses of all registered hosts, in registration order |
| Hosts.OrderIsFirstRegistration | internal/hosts/hosts.go:121-148 | over any history the order lists the registered names once each, by first registration |
| Hosts.RegisteredExactly | internal/hosts/hosts.go:121-129 | listed, stored and registered names are the same names |
| Hosts.LastChangeIsLatestTransition | internal/hosts/hosts.go:153-168 | LastChange is the LastChecked of the latest reachability-changing Update, untouched by all others, and zero if there was none, as long as mutators keep Name and LastChange, which every method of the monitor does |
| PubSub.HubNeverPanics | internal/hosts/hosts.go:89-118 | under any interleaving of publish, subscribe and any number of concurrent and repeated unsubscribe calls no send meets a closed channel and no channel is closed twice |
| PubSub.HubUnsubscribed | internal/events/events.go:117-126 | once any unsubscribe call has returned, whichever of them did the work, the channel is closed and nothing is published to it |
| PubSub.CallEnds | internal/hosts/hosts.go:96-104 | whatever has happened and however many unsubscribe calls are under way, each that has begun can be brought to its end: none waits for another for ever |
| PubSub.HubDelivery | internal/events/events.go:78-84 | a subscriber holds a subsequence of exactly the publishes made while it was registered, and all of them if and only if its buffer never overflowed |
| PubSub.Channel.TryReceive | internal/server/sse.go:61-64 | a receive takes the oldest queued value and keeps the account of what was offered, taken, queued and dropped; an empty channel yields nothing |
| PubSub.Subscribers.Publish | internal/hosts/hosts.go:109-118 | every subscriber is offered the value once, without blocking |
| PubSub.Subscribers.Unsubscribe | internal/events/events.go:117-125 | the channel is removed and closed; a second call does nothing |
| Events.Log.Append | internal/events/events.go:67-86 | the event is numbered and stamped, joins the history, and the items stay the newest `cap` events of it |
| Events.Log.Since | internal/events/events.go:90-107 | for every cursor, limit and filter, the first `limit` matching events of the unbounded history from the resume point |
| Events.WantedIsSuffix | internal/events/events.go:67-107 | filtering the retained items past a cursor is filtering a suffix of the unbounded history |
| Events.LimitReached | internal/events/events.go:102-104 | stopping early at the limit returns a prefix of the unlimited result |
| EventApi.HandleEvents | internal/server/api_events.go:28-59 | one request, with any appends between its two reads of the log: at most 200 events, or as many as asked for up to 1000; every one is past the cursor, of a host the caller may see, and of the host asked for if one is; and no retained event of that kind is missing unless the page is full and ends before it; next ID the last one returned or the cursor, latest ID never below any of them |
| EventApi.QuietWalk | internal/server/api_events.go:35-58 | on a quiet log, following the next ID ends, and the pages concatenate to exactly the matching retained events past the first cursor |
| EventApi.WalkProgress | internal/server/api_events.go:35-58 | what is appended during a walk joins the history; a fetch moves the cursor exactly if it returns something, to the ID of the last event it returned, and returns something if the log holds a wanted event past the cursor |
| EventApi.WalkIncreasing | internal/server/api_events.go:35-58 | with appends and evictions between the requests, the walk returns genuine events with strictly increasing IDs |
| EventApi.WalkExact | internal/server/api_events.go:35-58 | the concatenated pages are exactly the matching events of the unbounded history up to the final cursor if and only if no page skipped an evicted match |
| EventStream.StreamIncreasing | internal/server/api_events.go:84-122 | the IDs written on one connection are strictly increasing across replay and live phases, and all past the cursor if the log had reached it at the replay query, however lossy the run |
| EventStream.StreamExact | internal/server/api_events.go:84-122 | what was written and is queued is the full visible history past the cursor if and only if nothing was lost to eviction, the 1000-event replay limit, the gap before subscribing, or a full buffer |
| EventStream.StreamVisible | internal/server/api_events.go:84-136 | however permissions change during a connection, an event of a host that the caller may never see in its course, or of another host than the one asked for, is never written |
| EventStream.StreamTellsAll | internal/server/api_events.go:84-136 | with permissions that stay, every event past the cursor that the caller may see and asked for is written or queued, if none of the four losses occurred |
| EventStream.WithoutCursor | internal/server/api_events.go:90-103 | a client that names no cursor gets only what is appended after it connected |
| EventStream.DroppedWhenFull | internal/events/events.go:67-86 | an event is dropped for a connection if and only if it is appended while 64 are waiting to be written |
| EventStream.CursorHonouredExactly | internal/server/api_events.go:84-121 | after any history, a client connecting with a cursor never gets an event that does not exceed it, whatever happens on its connection, if and only if the cursor does not exceed the newest ID at that moment |
| Sse.StreamRoundTrip | internal/server/sse.go:91-92 | for any sequence of cards, one-line JSON events and heartbeats, the standard's parser dispatches exactly the meant events in order if and only if no name or card contains a character the format cannot carry |
| Sse.FeedPayload | internal/server/sse.go:91-92 | however many lines a payload has, blank ones, leading spaces and colons included, they all reach the data buffer unchanged |
| Sse.CutConnection | internal/server/api_events.go:138-146 | a stream cut at any character delivers a prefix of the events, never a damaged one |
| Viewer.ViewerConverges | internal/server/sse.go:33-74 | for a host that is configured, visible and registered when the viewer connects and stays configured and visible, with only harmless reloads during the snapshot loop: once the channel is drained and unless the latest publish was dropped, the card shown equals the registry's status, under any interleaving of updates with the snapshot |
| Viewer.HiddenIsNeverShown | internal/server/sse.go:38-74 | a host that this viewer may not see, from the start and through all reloads, never appears on the screen, whatever is published about it |
| Viewer.CardNeedsPermission | internal/server/sse.go:38-74 | on every run a card changes only by an update received while its host is configured and visible to this viewer, or by the rendering of a host that was both when the loop last looked one up |
| Viewer.HarmlessExactly | internal/server/sse.go:38-45 | in every reachable state of the loop, a reload lets the loop left alone end with the host's card rendered if and only if it leaves room for the hosts still to be looked up and does not move a host not yet rendered behind the loop |
| Viewer.ReorderingReloadHides | internal/server/sse.go:38-39 | for any two hosts there is a run with a reload that only swaps them, after which everything is drained, nothing was dropped and one of them is not on the screen |
| Viewer.DroppedPublishIsMissed | internal/hosts/hosts.go:109-118 | in any draining state with a full buffer, a status published then is not on screen however long the viewer drains, and the end is reachable if the state was |
| Viewer.DroppedPublishRun | internal/hosts/hosts.go:109-118 | for every host there is a run to such an end: everything received, the host configured, visible, registered and rendered, and its card not what the registry holds |
| Viewer.SnapshotComplete | internal/server/sse.go:38-45 | without a reload during the loop, every visible registered host has been rendered when the snapshot ends, and the loop never indexes out of range |
| Viewer.NeverCrashes | internal/server/sse.go:38-39 | on every run on which each configuration stored while hosts are still to be looked up has at least as many hosts as the loop counted, the loop never indexes out of range |
| Viewer.ShrinkingReloadCrashes | internal/server/sse.go:38-39 | in every reachable state of the loop, the loop left alone after a reload indexes out of range if and only if hosts are still to be looked up and fewer are stored than the loop counted; otherwise it ends |
| Viewer.ShrinkingReloadRun | internal/server/sse.go:38-39 | for any two hosts there is a run with a reload between two cards that crashes the handler |
| CertCache.CacheBound | internal/sshx/manager.go:117-150 | under concurrent callers, TTL reloads and a clock that never runs back, a cache hit at time t was minted for a pair with the same key and stays valid for more than half the TTL it was checked against, minus one second; a minted certificate is for its own pair, forces no command, permits all four extensions and stays valid for the TTL minus one second |
| CertCache.CacheOwn | internal/sshx/manager.go:118-150 | as long as no two pairs in use share a key, every certificate handed out is for the caller's own host and user |
| CertCache.CollisionMisleads | internal/sshx/manager.go:118-128 | for any two pairs that do share a key and any positive TTL there is a run that hands out the certificate of one for the other |
| CertCache.ReusedInFirstHalf | internal/sshx/manager.go:126-128 | on every run with a constant TTL, a call that finds an entry reuses it exactly if it started in the first half of the TTL after the start of the call that minted it |
| CertCache.KeyAmbiguous | internal/sshx/manager.go:118 | two different pairs share a key if and only if one host extends the other over a NUL and the users make up for it, with a NUL of their own |
| CertCache.KeyDetermines | internal/sshx/manager.go:118 | hosts without NUL, or users without NUL, are enough for the key to determine both |
| CertCache.Manager.MaintenanceCertSigner | internal/sshx/manager.go:117-150 | one call either returns the cached certificate and leaves the cache, or mints one and replaces exactly its own slot; it was minted for a pair with the same key |
| SshCa.SignedWindow | internal/sshca/sshca.go:112-135 | for every TTL a user certificate starts 30 seconds back and ends less than a second before the TTL does; it is valid now unless the TTL ends within the current second; signing fails exactly without principals |
| SshCa.HostWindow | internal/sshca/sshca.go:172-193 | the same window for host certificates, with the 52-week default and no permissions |
| AgentCert.AgentLifetime | internal/server/api_ssh_cert.go:77-115 | for a positive agent TTL an agent certificate lives 30 seconds longer than what was asked for, if that is positive and at most the agent TTL, and otherwise than the agent TTL; for a non-positive one 330 seconds; it is valid now |
| AgentCert.AgentCertIsPinned | internal/server/api_ssh_cert.go:42-118 | wherever reloads land during the request, a minted certificate carries one user, the one command and no extension; the host was not pinned against shutdown when that was asked; and with auth on throughout the caller held a grant on that host for status, ssh-cert and shutdown, each when it was asked for |
| AgentCert.MintedExactly | internal/server/api_ssh_cert.go:42-118 | without a reload, in any well-formed configuration: a certificate is minted if and only if the request asks for a shutdown with a usable key and the named host exists, is not pinned, has a maintenance user, and the caller holds all three grants; it is for the host's own maintenance user, else its SSH user, else the default one; a host the caller may not see is answered exactly like one that does not exist |
| AgentCert.RefusedExactly | internal/server/api_ssh_cert.go:49-107 | which of the grants, the pin, the request and the maintenance user stands in the way decides what the caller is told, in this order: status, ssh-cert, body, action, shutdown and pin, key, maintenance user |
| SshCa.BuildPermissions | internal/sshca/sshca.go:137-158 | the extensions are exactly those not switched off, the only critical option a non-empty force-command |
| Cookie.CookieRoundTrip | internal/auth/auth.go:125-166 | for a name without a vertical bar and any int64 expiry, verifying a signed value yields the name exactly while the clock has not passed a representable expiry, otherwise nothing |
| Cookie.PipeNameRejected | internal/auth/auth.go:125-166 | a name containing a vertical bar always verifies to nothing, never to another name |
| Cookie.AcceptedExactly | internal/auth/auth.go:136-166 | a value yields a non-empty name if and only if it is a decodable body with a matching MAC, naming that user with an integer expiry that has not passed |
| Base64.RoundTrip | internal/auth/auth.go:129-130 | decoding undoes encoding for every byte string |
| Base64.DecodeExactly | internal/auth/auth.go:140-147 | a text decodes to given bytes if and only if, line breaks apart, it is their encoding up to the unused bits of its last symbol |
| Base64.TestVectors | internal/auth/auth.go:129-130 | the test vectors of RFC 4648, section 10 |
| Text.ParseIntExactly | internal/auth/auth.go:157 | exactly the spellings of 64-bit integers are read: an optional sign, digits, nothing else, in range |
| Text.LexLessExactly | internal/monitor/checks.go:155 | one string is before another if and only if it is a proper prefix or smaller at the first difference |
| Words.FieldsExactly | internal/monitor/checks.go:73-77 | splitting a line at white space finds exactly its words, however they are spaced |
| Text.ParseFormat | internal/auth/auth.go:126 | printing an int64 and parsing it back is the identity |
| Config.WellFormedExactly | internal/config/config.go:199-319 | a configuration is well-formed, declaratively, exactly when it has none of the faults the validator looks for |
| ConfigLoad.Loaded.Validate | internal/config/config.go:199-319 | the accumulating pass reports exactly the faults there are, so it succeeds if and only if the configuration is well-formed, and it builds the name index |
| ConfigLoad.Loaded.ApplyDefaults | internal/config/config.go:160-197 | the defaulting pass fills in unset numbers and display names and every non-positive period, spells out key files below the home directory, and nothing else |
| ConfigLoad.ExpandHomeExactly | internal/config/config.go:454-463 | a path that begins with `~/` is looked for in the home directory if that is known; every other path is left alone |
| ConfigLoad.DefaultsSettle | internal/config/config.go:160-197 | defaulting twice is defaulting once, and afterwards every period is positive |
| ConfigLoad.NegativeTtlPasses | internal/config/config.go:177-179 | a negative agent TTL in any acceptable configuration survives the defaults and the validation |
| ConfigLoad.IndexIsExact | internal/config/config.go:352-354 | after a successful validation a name in the index belongs to exactly that one host, and a name not in it to none |
| Config.TokenHashExactly | internal/config/config.go:285 | a token hash is accepted if and only if it is `sha256:` and 64 more characters |
| ConfigLoad.CheckHost | internal/config/config.go:214-244 | exactly the faults of one host entry; an entry without a name has no other fault |
| ConfigLoad.CheckGroup | internal/config/config.go:294-313 | exactly the unknown hosts and actions of a group, wildcards excepted |
| Permissions.GroupsCan | internal/config/config.go:426-440 | true exactly if one of the named, existing groups covers both the host and the action, by name or wildcard |
| Permissions.UserCan | internal/config/config.go:358-371 | agrees with looking the user up and asking for the principal; an unknown user may act only with auth off; host pins always win |
| Permissions.PrincipalCanExactly | internal/config/config.go:379-440 | in a well-formed configuration an action is permitted if and only if no pin of the host forbids it and, with auth on, some group of the principal grants it, host and action by name or wildcard |
| Permissions.VisibleHosts | internal/config/config.go:444-452 | exactly the configured hosts with status permission, in configuration order |
| Permissions.UnknownHostNeedsWildcard | internal/config/config.go:294-313 | in a well-formed configuration a permission on a host that does not exist comes from a wildcard group only |
| Checks.ParseDfOutput | internal/monitor/checks.go:129-160 | fails if and only if some row after the header with three or more fields and a real filesystem has a non-integer percentage, quoting the first such; otherwise the accepted rows, sorted |
| Checks.RowExactly | internal/monitor/checks.go:133-148 | one line of the table: three words or more of which the second is one of the twelve real filesystems and the third an integer with or without a percent sign make a disk; a third word that is none is an error; any other line is passed over |
| Checks.DisksExactly | internal/monitor/checks.go:133-152 | the disks are those of the disk rows, each once, in table order |
| Checks.SortDisks | internal/monitor/checks.go:154-158 | the in-place swapping sort computes the insertion sort of what was in the array |
| Checks.InsertNext | internal/monitor/checks.go:155-157 | one run of the inner loop inserts one row among the sorted ones before it and leaves the rest |
| Checks.SortIsStable | internal/monitor/checks.go:153-158 | the result is ordered by mount under byte-lexicographic order, and for every mount keeps its rows in table order |
| Checks.SortIsPermutation | internal/monitor/checks.go:153-158 | the result is a permutation of the accepted rows |
| Checks.StableSortUnique | internal/monitor/checks.go:153-158 | there is only one table that is ordered and stable, so any other stable sort would print the same |
| Memory.ParseMemInfo | internal/monitor/checks.go:70-117 | the early-exit scan and the fallback keep the stated promise: last value before the stopping point for each key, the first MemFree line when MemAvailable is never given, and the two error cases |
| Memory.LineExactly | internal/monitor/checks.go:73-92 | what a line says: with two words or more its key is the first without a colon at its end, its number the second if that is one |
| Memory.KernelKeys | internal/monitor/checks.go:73-92 | lines that begin with `MemTotal:`, `MemAvailable:` and `MemFree:` and a number give those values |
| Memory.OneReport | internal/monitor/checks.go:70-117 | that promise fixes the result |
| Memory.KernelReport | internal/monitor/checks.go:70-96 | when each value is given once, in either order and among any other lines, the result is that pair |
| Memory.FirstFreeDecides | internal/monitor/checks.go:98-116 | without MemAvailable, the first MemFree line alone decides: a readable one is the answer, an unreadable one the error, whatever later ones say |
| Memory.SecondFreeUnused | internal/monitor/checks.go:98-116 | a report with an unreadable first and a readable second MemFree line fails, for any numbers |
| Memory.RestIgnored | internal/monitor/checks.go:93-95 | once both values have been given, nothing that follows can change the result |

## Left out

- MonitorHistory.StateChangesFormChain: assumes that no two workers of the host are between writing a ping result and reporting it at once, because the program does not ensure it; `MonitorHistory.OverlapNeedsStraggler` says when it can fail, `MonitorReturn.ChainExactly` what that comes to for a sequence of configurations.
- MonitorHistory.DownMeansCleared: assumes that no two workers of the host are in the second half of a pass at once, for the same reason; see `MonitorReturn.ClearedExactly`.
- EventStream.StreamExact: is stated for cursors that do not exceed the newest ID; beyond it the cursor is not honoured at all (`EventStream.CursorHonouredExactly`).
- Sse.StreamRoundTrip: takes the text of a JSON event to be one line without CR, as a JSON encoder guarantees; characters are compared, so UTF-8 decoding and a leading byte order mark are not modelled.
- CertCache.Manager.MaintenanceCertSigner: is one undisturbed call; concurrent calls are in `CertCache.CacheBound`.
- MonitorObject.Monitor.CheckOnce: is one undisturbed pass; the text a check returns is not passed through `Checks` and `Memory`, an answer is any reading.
- AgentCert.AgentCertIsPinned: whether the CA is enabled, whether the body decodes, what came of the public key and the key ID (the one place in the certificate that names the host) are inputs.
- AgentCert.MintedExactly: is about requests without a reload in between; with reloads it is `AgentCert.AgentCertIsPinned`.
- Monitor.RunKeeps: a cancelled worker may wake, or connect, any number of times before it notices, where the program allows less; every statement about all runs covers the program's.
- MonitorObject.Monitor.Hup: the signal channel and the loop around one turn are not part of the object, nor is the endless loop of `runHost`; both are steps of the machine in `Monitor`.
- ConfigLoad.DefaultsSettle: takes the home directory to be one whose paths do not start with `~/` again.
- Viewer.ViewerConverges: that the page may show older cards before the stream starts is not part of the statement.
- ConfigLoad.Loaded.Validate: the order and wording of the messages are not modelled; MAC, IPv4 and SSH key syntax are arbitrary predicates.
- Permissions.UserCan: the principal's name plays no part; API tokens reach the same check through their groups.
- Memory.ParseMemInfo: error texts are reduced to which of the two errors it is.
- `Run` cancels its workers without joining them, so nothing is claimed about shutdown beyond the cancellation.
- Ping, SSH dialling, remote commands, wake-on-LAN, sockets and write errors: their outcomes are inputs.
- bcrypt, SHA-256, HMAC internals, Ed25519, key files and certificate signing: the HMAC is an arbitrary function, a certificate is a record of its fields.
- JSON and HTML rendering, HTTP routing, middleware, login pages, logging: a card or a JSON text is an opaque string.
- `parseUptime`, `parseLoad` and display helpers: float parsing and formatting would only add easy members.
- Wrap-around of event IDs, overflow of durations beyond 292 years, and slice capacity in `Append`: integers are unbounded.
- A monitor without an event log and a server without one: the log is always present.
