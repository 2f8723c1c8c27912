# Verification model of the dongle farm daemon

A Dafny model of the parts of the daemon whose correctness is hardest to see from the code:
how a proxy config is compiled, checked, compared and put into effect; how a rotation run
treats the network interface and the data session; how workers, callers and shutdown share
the engine; how clients spend the one-shot tokens of a device; how the reconcile loop polls,
plans and converges; and five smaller cores (event bus, rate limiter, policy routing rules,
netlink attributes, enrolment).

Every module names its source file. Code that computes a value is a function; code that
changes fields step by step is a class whose methods are proved against such functions; code
that runs concurrently is a transition system over its locked sections and messages, with
results stated for every run.

## Layout

| files | subject |
|---|---|
| `Wrappers`, `Text`, `Netip`, `Domain` | options and results, text primitives, addresses and prefixes, slots, port ranges, policies |
| `ProxySpec`, `ProxyText`, `ProxyProgram`, `ProxyVerify`, `ProxyWords`, `ProxyRender`, `ProxyAccepts`, `ProxyLogPath`, `ProxySettings` | validation, tokenizer and printer, renderer, the checks on rendered text, when they accept it, and what it sets |
| `ProxyAccess`, `ProxyRevoke`, `ProxySupervisor` | what a config admits, what a change revokes, the install and rollback transaction |
| `RotatePolicy`, `RotateRun`, `RotateWorkers` | hold ladder, one run against adversarial answers, the worker protocol |
| `HiLink`, `HiLinkClient`, `HiLinkCallers` | token pool and token table, one caller, many callers |
| `ReconcileOrder`, `ReconcileWorld`, `ReconcilePlan`, `ReconcileExact`, `ReconcileConverge` | planning, what a plan holds, and convergence |
| `ReconcilePoll`, `ReconcileBudget` | polling with backoff, reboot budgets |
| `EventBus`, `Limiter`, `NetRules`, `Netlink`, `Enroll` | the smaller cores |

## What the model assumes

- A call to a device, the firewall, the kernel, the store or systemd may succeed or fail at any
  point; the answers are an arbitrary function of the call number. Unless a member says
  otherwise, a call that fails has changed nothing.
- In enrolment the compensations succeed and rows are unique by slot.
- The kernel's rule list holds rules of both families, as the code reads them; `ip rule` without
  a family option deletes IPv4 rules only. A public host may be an IPv4, an IPv6 or an
  IPv4-mapped address.
- Convergence supposes that each action has the effect its reason names and nothing else; a
  rebooted device may come back in any state as long as it answers.
- Random strings (tokens, cookies, ids) never repeat. Time within one HiLink call does not pass.
- The rotation time bound supposes that device and firewall answer at once, that each probe gives
  up within the verify timeout, and some bound on how late a sleep ends, which it carries; the
  safety results suppose none of these.
- Clocks do not run backwards; in the limiter the readings of several callers may still reach a
  bucket out of order. Times are milliseconds, in the limiter real seconds.

## Findings

- Narrowing the port policy of a proxy is never seen as a revocation, so the running proxy is
  only reloaded (`ProxyRevoke.NarrowerPortsPass`, with a run in
  `ProxyRevoke.ShutOutWithoutRestart`); what else survives is exact
  (`ProxyRevoke.UnrevokedStillServed`).
- A config file that exists but cannot be read counts as absent: a reload over it is not
  checked for revocations (`ProxySupervisor.UnreadReload`), and a failed start stops the unit
  and leaves the new bytes (`ProxySupervisor.FirstStartFails`, and the clauses on `Seen` of
  `ProxySupervisor.Supervisor.Apply`).
- A failed install is not rolled back: the new bytes are on disk, unread, exactly if it failed
  after the rename (`ProxySupervisor.Supervisor.InstallConfig`, `ProxySupervisor.LateInstall`).
- IPv6 rules are read but cannot be deleted: one at the public priority that is not the rule of a
  host makes every later `EnsureGlobal` delete and add the IPv4 rules again without ever reaching
  its goal, and an IPv6 rule of a slot outlives its removal (`NetRules.Inet6RuleStays`,
  `NetRules.Inet6SlotRuleStays`). An IPv4-mapped host never has a rule that is recognised as its
  own. The exact conditions are in `NetRules.Manager.EnsureGlobal` and
  `NetRules.Manager.RemoveSlot`.
- The reboot budget of the planner counts reboots by subject id alone and would be stricter than
  the scan if a reboot were filed on another kind of subject; the exact condition is
  `ReconcileBudget.AgreeUnlessForeign`. No code here does: the only creator of reboot
  operations files them on dongles (devops/reboot.go:567).
- The limiter reads the clock before it takes its lock. A reading that arrives late sets a bucket
  back, and the time since is credited twice: more than Burst + T/Interval can be granted
  (`Limiter.LateReadingForgives`). A late reading does no harm exactly if it finds the bucket full
  and its call takes nothing, because it asks for nothing or for more than a bucket holds
  (`Limiter.LateIsHarmless`); for readings in any order the time they move forward bounds what is
  granted (`Limiter.GrantedFrom`).
- Reaping the limiter with an idle time below Burst * Interval forgives refusals
  (`Limiter.ShorterReapForgives`).
- An enrolment that fails after it updated the row a slot already had leaves that row with the
  new paths, and in no other case changed rows (`Enroll.Session.EnrollDongle`, with a run in
  `Enroll.KeepsNewPath`).
- An enrolment that fails takes away network files, a firewall entry or a unit that the slot had
  before it, exactly if it got past setting them up (`Enroll.Session.EnrollDongle`, with a run in
  `Enroll.LosesNetFiles`). With nothing set up for slots without a dongle it takes nothing away.
- A log path is written into the config as it is. One with a newline brings in lines of its own:
  some make Render refuse a valid spec (`ProxyLogPath.DaemonPathRefused`; exactly which is
  `ProxyLogPath.AcceptedExactly`), and those that pass admit nobody the spec does not
  (`ProxyAccess.AcceptedAdmits`).
- Two workers can run on one proxy at once, but only after a live row was closed as stalled
  under one of them (`RotateWorkers.Safety`, `RotateWorkers.StalledRowLetsAnotherIn`).

## Model

| member | source | states |
|---|---|---|
| `Netip.AddrRoundTrip` | `src/internal/proxysup/render.go:42-85` | An IPv4 address printed into a config is parsed back as itself. |
| `Netip.PrefixRoundTrip` | `src/internal/proxysup/render.go:87-109` | An IPv4 prefix printed into a rule is parsed back as itself. |
| `Text.TrimMeans` | `src/internal/domain/model.go:120-167` | Trimming takes away space at both ends, all of it and nothing else. |
| `Text.JoinOfSplit` | `src/internal/domain/model.go:149-167` | Splitting loses nothing but the separators, and no part holds one. |
| `Domain.ParsePortRanges` | `src/internal/domain/model.go:149-167` | Returns exactly the ranges of the trimmed, comma-separated text, skips blank parts, refuses any bad part. |
| `Domain.PortRangesRoundTrip` | `src/internal/domain/model.go:113-167` | Every list of valid port ranges survives printing and parsing. |
| `Domain.PortRangesMean` | `src/internal/domain/model.go:120-167` | Any text parses to a list of ranges if and only if its comma-separated parts that are not blank read, one by one, as one number or two with a dash between, within 1 and 65535 and in order. |
| `ProxySpec.ValidateUsers` | `src/internal/proxysup/spec.go:122-146` | Accepts exactly the user lists that the auth mode asks for, within the cap, well formed and without a repeated name. |
| `ProxySpec.ValidateAuthIps` | `src/internal/proxysup/spec.go:148-164` | Accepts exactly the whitelists that the auth mode asks for, within the cap, all IPv4 and masked. |
| `ProxySpec.Validate` | `src/internal/proxysup/spec.go:78-120` | Accepts exactly the valid specs. |
| `ProxyText.Tokenize` | `src/internal/proxysup/render.go:442-476` | The byte loop computes the fields of a line and which of them were quoted. |
| `ProxyText.FieldsOfWords` | `src/internal/proxysup/render.go:442-476` | Tokenizing a printed line returns the printed fields with their quoting, for every printable line. |
| `ProxyText.LineRoundTrip` | `src/internal/proxysup/render.go:426-440` | A printed line is one line of text and is parsed back unchanged; the log line keeps its command whatever its path holds. |
| `ProxyText.Parse` | `src/internal/proxysup/render.go:426-440` | Returns the significant lines of a text: blank, comment and indented lines are skipped, a trailing carriage return is dropped. |
| `ProxyText.ParseOfPrint` | `src/internal/proxysup/render.go:42-85` | Parsing any printed program gives back the program, line for line. |
| `ProxyProgram.SortForgetsOrder` | `src/internal/proxysup/render.go:125-129` | The order in which whitelist prefixes are stored does not reach the config. |
| `ProxyProgram.WriteUserAllows` | `src/internal/proxysup/render.go:87-109` | One allow line per user, with the port list when there is one. |
| `ProxyProgram.WriteNetAllows` | `src/internal/proxysup/render.go:87-109` | One allow line per whitelisted prefix, with the port list when there is one. |
| `ProxyProgram.WriteAcl` | `src/internal/proxysup/render.go:87-109` | A flush, the allows the auth mode asks for, and a bare deny of everyone. |
| `ProxyProgram.WriteConfig` | `src/internal/proxysup/render.go:42-85` | Writes the program line by line; what these lines set is read back from its text in `ProxySettings.SettingsRead`, what they admit in `ProxyAccess.RenderedAdmits`. |
| `ProxyVerify.VerifyGlobals` | `src/internal/proxysup/render.go:146-219` | Accepts exactly the texts whose global settings are all present and none contradicts the spec; the last auth line decides on strong authentication. |
| `ProxyVerify.VerifyUsers` | `src/internal/proxysup/render.go:221-259` | Accepts exactly the texts whose credentials are quoted, well formed and cover the spec; entries are there exactly when the mode uses them. |
| `ProxyVerify.VerifyRequired` | `src/internal/proxysup/render.go:269-335` | Given the names and networks one block allows, accepts exactly when every required one is among them. |
| `ProxyVerify.VerifyService` | `src/internal/proxysup/render.go:269-335` | Accepts a service exactly when its own block is guarded. |
| `ProxyVerify.VerifyAclBlocks` | `src/internal/proxysup/render.go:269-335` | The flag-driven scan accepts exactly the texts with two services, each guarded by its own block, known operations, and no allow after a deny of everyone. |
| `ProxyVerify.VerifyServiceLine` | `src/internal/proxysup/render.go:376-424` | Accepts exactly the service lines with the right port, the anonymous flag and the address family. |
| `ProxyVerify.VerifyServices` | `src/internal/proxysup/render.go:376-424` | Accepts exactly the texts whose service lines are all right and name both services. |
| `ProxyVerify.Verify` | `src/internal/proxysup/render.go:131-144` | Accepts exactly the texts that pass all four checks. |
| `ProxyVerify.AcceptedIsGuarded` | `src/internal/proxysup/render.go:269-424` | Soundness on any text: exactly one proxy and one socks service, on the ports of the spec, each behind its own flush, allows for everyone required, and a bare deny with no allow after it. |
| `ProxyWords.GlobalsMean` | `src/internal/proxysup/render.go:146-219` | In the words of the text: the settings pass if and only if no line names a wrong address, user, group, timeout count, log format or auth type or is a daemon line, the last auth line names strong, and the five settings asked for are there. |
| `ProxyWords.EntryMeans` | `src/internal/proxysup/render.go:227-267` | A credential passes if and only if it is a quoted name:CL:password with a name of 1 to 63 and a password of 16 of the allowed characters. |
| `ProxyWords.ServiceMeans` | `src/internal/proxysup/render.go:380-410` | A service line passes if and only if it has -a, -4 and a -p, every word that starts with -a is -a, and every -p carries the port. |
| `ProxyWords.OperationsMean` | `src/internal/proxysup/render.go:337-374` | Which word of which rule is looked up as a list of operations. |
| `ProxyWords.DenyMeans` | `src/internal/proxysup/render.go:282-307` | Which lines deny everyone, allow a name and allow a network, by their words. |
| `ProxyLogPath.RenderedIsAccepted` | `src/internal/proxysup/render.go:42-144` | For every valid spec whose log path has no newline the checks accept what was rendered. |
| `ProxyLogPath.AcceptedExactly` | `src/internal/proxysup/render.go:42-144` | For every valid spec and every log path: the checks accept what was rendered if and only if the lines parsed out of the path are harmless, one by one and in their order. |
| `ProxyLogPath.DaemonPathRefused` | `src/internal/proxysup/render.go:42-85` | A finding: a log path with a command on a second line makes Render refuse a valid spec. |
| `ProxySettings.SettingsRead` | `src/internal/proxysup/render.go:42-85` | Whatever the log path: the text printed for a valid spec, read back command by command, sets each setting once to the value of the spec (name servers and accounts one each and in order, a connection limit exactly if it is positive), around what the path brings in. |
| `ProxySettings.OneOfEach` | `src/internal/proxysup/render.go:42-85` | With a log path on one line: exactly one external and one internal line, whose words parse to the two addresses of the spec, and so on for name servers, limits, user and group; and the one log line has the path. |
| `ProxySettings.Render` | `src/internal/proxysup/render.go:42-85` | Succeeds exactly for valid specs whose log path brings in nothing the checks refuse, and returns only text that passed the checks and, read back, holds the settings of the spec. |
| `ProxyAccess.BlockAdmits` | `src/internal/proxysup/render.go:87-109` | Read first match first, a rendered block admits exactly the requests the spec admits. |
| `ProxyAccess.RenderedAdmits` | `src/internal/proxysup/render.go:42-109` | Printed, parsed back and evaluated, the block in front of each of the two services admits a user, source and port exactly when users, whitelist and port policy do. |
| `ProxyAccess.AcceptedAdmits` | `src/internal/proxysup/render.go:42-144` | Whatever the log path is: rendered text that passes its checks admits in front of each service exactly what the spec admits. |
| `ProxyRevoke.ConfigUsers` | `src/internal/proxysup/render.go:478-493` | Collects the last password of every name in any text, skipping malformed entries. |
| `ProxyRevoke.ConfigAuthNets` | `src/internal/proxysup/render.go:495-504` | Collects the sources that some rule allows to everyone. |
| `ProxyRevoke.RevokesAccess` | `src/internal/proxysup/render.go:506-520` | True exactly when a name lost its password or a network its rule, in whatever order the maps are walked. |
| `ProxyRevoke.RenderedGrants` | `src/internal/proxysup/render.go:478-504` | Reading a rendered config back gives the accounts and networks of its spec over those its log path names, no more and no less. |
| `ProxyRevoke.RevokesByAccounts` | `src/internal/proxysup/render.go:506-520` | Between two rendered configs, whatever their log paths, a revocation is reported exactly when one of these accounts or networks is gone. |
| `ProxyRevoke.RevokesExactly` | `src/internal/proxysup/render.go:506-520` | With log paths that name none, a revocation is reported exactly when some (name, password) pair or prefix of the spec is gone. |
| `ProxyRevoke.UnrevokedStillServed` | `src/internal/proxysup/render.go:506-520` | When no revocation is reported and the new log path names nothing, a request that was admitted is still admitted exactly if the new port list lets it through. |
| `ProxyRevoke.NarrowerPortsPass` | `src/internal/proxysup/render.go:506-520` | A finding: narrowing the ports alone is never reported as a revocation, whatever the log path. |
| `ProxyRevoke.ShutOutWithoutRestart` | `src/internal/proxysup/render.go:506-520` | Such a change: a spec admits a request, the spec with fewer ports refuses it, and no revocation is reported. |
| `ProxySupervisor.Supervisor.Await` | `src/internal/proxysup/supervisor.go:296-319` | Ends with the first healthy look, a sleep cut short, or past the deadline, and then by at most one retry and the lateness of its first and last sleep. |
| `ProxySupervisor.LookMeans` | `src/internal/proxysup/supervisor.go:321-358` | A look reports a healthy unit exactly if the unit answers, both listeners are bound and the probe comes through. |
| `ProxySupervisor.Supervisor.InstallConfig` | `src/internal/proxysup/supervisor.go:380-425` | The new bytes are on disk exactly if the install succeeded or failed after the rename; otherwise the old ones are. |
| `ProxySupervisor.Supervisor.Rollback` | `src/internal/proxysup/supervisor.go:250-267` | With nothing to go back to the unit is stopped; otherwise the old bytes are back and the unit was told to read them, unless the reinstall failed, which is told from the other errors. |
| `ProxySupervisor.Supervisor.Commit` | `src/internal/proxysup/supervisor.go:213-248` | Restarts exactly when the unit did not run or access was revoked; a failed start ends in a stop with the new bytes on disk, or in the old bytes. |
| `ProxySupervisor.Supervisor.Apply` | `src/internal/proxysup/supervisor.go:179-248` | Which outcome follows from which answer: a success leaves the rendered bytes on disk and a healthy unit that was told once to read them, or not at all if nothing had changed; an early failure changes nothing; a failed install leaves the new bytes exactly if they had landed; a reload never follows a revocation in the config that was read; a failed start leaves the old bytes, or with no readable old config the new bytes and a stop. |
| `ProxySupervisor.Supervisor.ApplyOver` | `src/internal/proxysup/supervisor.go:219-240` | Applied over a rendered config that could be read, a success by reload takes nothing away from what that config granted. |
| `ProxySupervisor.UnreadReload` | `src/internal/proxysup/supervisor.go:219-240` | A finding: applied over a config that cannot be read, an account is taken away and the unit only reloaded. |
| `ProxySupervisor.FirstStartFails` | `src/internal/proxysup/supervisor.go:250-253` | A finding: a first start that fails ends in a stop, with the config that never worked left on disk. |
| `ProxySupervisor.LateInstall` | `src/internal/proxysup/supervisor.go:207-211` | A finding: after an install that failed late the new bytes are on disk and the unit was told nothing; exactly if they had landed. |
| `RotatePolicy.Validate` | `src/internal/rotate/policy.go:55-83` | Accepts exactly the valid policies. |
| `RotateRun.FenceGuard.Fence` | `src/internal/rotate/rotate.go:816-824` | The guard is set exactly when the firewall fenced the interface now or before. |
| `RotateRun.FenceGuard.Unfence` | `src/internal/rotate/rotate.go:826-838` | Afterwards the interface is unfenced or the last attempt to lift the fence erred; an unknown interface counts as lifted. |
| `RotateRun.Engine.PollConn` | `src/internal/rotate/rotate.go:607-631` | Only polls and waits; succeeds with the first answer that is the wanted state, times out only past its budget with every call answered, and otherwise some call or sleep had failed; ends within its budget and one interval. |
| `RotateRun.Engine.ProbeEgress` | `src/internal/rotate/verify.go:42-56` | Reports an address as seen exactly when it is not the public host of the node, and as leaked when it is. |
| `RotateRun.Engine.HoldDown` | `src/internal/rotate/rotate.go:568-589` | After the session is off: wait, hold for at least the whole time, switch on; any failure leaves the restore owed. |
| `RotateRun.Engine.Cycle` | `src/internal/rotate/rotate.go:545-596` | Against any answers the interface is fenced whenever the run has the session off; the calls of a full attempt come in the one order and the fence is lifted only after the device reported itself connected; an aborted attempt restores the session. |
| `RotateRun.Engine.Attempt` | `src/internal/rotate/rotate.go:494-538` | One attempt: if the cycle came through, its only probe decides, a change if and only if it saw a valid address other than the valid one before that is not a leak, a leak if and only if it saw the public host, a failed probe if and only if it saw nothing on the last attempt; otherwise a session that never came or a call that failed does. |
| `RotateRun.Engine.Attempts` | `src/internal/rotate/rotate.go:483-541` | Never more than the allowed attempts, held for the rungs of the ladder in order, each begun only if it fits before the deadline; a run that stops short had no room for the next; it ends changed if and only if some probe of the run saw a new address. |
| `RotateRun.Engine.FirstLookMeans` | `src/internal/rotate/rotate.go:461-481` | The checks before the fence: a failing device, a locked SIM and a leak end the run; the address to compare with is the probed one, else the reported one. |
| `RotateRun.Engine.Execute` | `src/internal/rotate/rotate.go:451-541` | For every policy, device, firewall and probe: fenced whenever the session is off by this run; at the end the session is on unless the restoring switch failed and the interface unfenced unless the last lift failed; the checks before the fence end the run with their own result, or it is changed if and only if some probe afterwards saw an address that changed and a leak if and only if some probe saw the public host, blames a device or firewall only if a call failed, a missing session or probe ends only the last attempt, and too little time is reported exactly when no attempt was begun; and with prompt devices it ends within the larger of the verify timeout and the hard deadline plus the polling time and three overruns of a sleep. |
| `RotateWorkers.StepKeepsInv` | `src/internal/rotate/rotate.go:206-319` | Every step of a caller, a worker or Shutdown keeps the invariant of the shared fields. |
| `RotateWorkers.Safety` | `src/internal/rotate/rotate.go:262-286` | In every interleaving: semaphore within its capacity, each accepted operation finished exactly once before its waiters are let go, and two unfinished workers on one subject only if a row was closed under one of them. |
| `RotateWorkers.StalledRowLetsAnotherIn` | `src/internal/store/repo_operation.go:153-166` | A finding: closing a row as stalled lets a second worker in while the first one still runs. |
| `RotateWorkers.NoneAfterClose` | `src/internal/devops/reboot.go:376-405` | After closed is set no worker is registered for the rest of the run. |
| `RotateWorkers.ShutdownMeansIdle` | `src/internal/rotate/rotate.go:302-319` | Once some Shutdown has returned nil no worker is left and none will come. |
| `RotateWorkers.WorkersMove` | `src/internal/rotate/rotate.go:411-442` | While a worker is left, some worker can move without its context being cancelled, and each such move brings the end nearer. |
| `RotateWorkers.CanDrain` | `src/internal/rotate/rotate.go:302-319` | From every state some continuation drains all workers, so Shutdown can always return nil. |
| `HiLink.Session.Snapshot` | `src/internal/device/hilink/session.go:41-48` | Shows the cookie and the first token exactly when there are both. |
| `HiLink.Session.Take` | `src/internal/device/hilink/session.go:50-59` | Takes the first token off the pool exactly when there are a cookie and a token. |
| `HiLink.Session.Install` | `src/internal/device/hilink/session.go:68-78` | Replaces the cookie and the pool by whatever is not empty. |
| `HiLink.Session.Absorb` | `src/internal/device/hilink/session.go:80-91` | Appends fresh tokens and keeps the newest thirty. |
| `HiLink.ShakenServes` | `src/internal/device/sim/tokenstore.go:41-60` | After a handshake the new cookie is valid, every token of its batch can be spent and no earlier token can. |
| `HiLink.ConsumedIsSpent` | `src/internal/device/sim/tokenstore.go:80-93` | A token is good once, and spending it affects no other. |
| `HiLink.HistoryDecides` | `src/internal/device/sim/tokenstore.go:41-122` | After any history of handshakes, requests, ageing and dropped sessions the device takes a token if and only if it is one of the thirty of the last handshake, no more than its lifetime ago, and since then it was not asked for, nothing aged and no session was dropped. |
| `HiLink.TokenStore.Handshake` | `src/internal/device/sim/tokenstore.go:41-60` | New cookie, empty table, thirty fresh tokens. |
| `HiLink.TokenStore.Consume` | `src/internal/device/sim/tokenstore.go:80-93` | Succeeds exactly on a known, unspent token within its time; marks it used, or expired if overdue. |
| `HiLink.TokenStore.ExpireAll` | `src/internal/device/sim/tokenstore.go:109-115` | Expires every token of the table. |
| `HiLink.ExecutedOnce` | `src/internal/device/sim/device.go:191-227` | A body is executed if and only if it is posted on a live session with an unspent token and no login is wanted; the token is spent and no other; the reply is one the client retries exactly if session or token were not good. |
| `HiLink.SimDevice.ServeHTTP` | `src/internal/device/sim/device.go:191-227` | Session, then token, then login, then the body; the body is recorded exactly when it was executed. |
| `HiLinkClient.DisturbedStaysSynced` | `src/internal/device/sim/tokenstore.go:41-122` | Expiry, a dropped session and the handshake of another client keep the pool within the unspent tokens of the device. |
| `HiLinkClient.Client.EnsureSession` | `src/internal/device/hilink/transport.go:131-136` | Leaves a usable session, a fresh one if there was none. |
| `HiLinkClient.Client.Attempt` | `src/internal/device/hilink/transport.go:138-180` | A token error means that nothing was executed and the session had been disturbed; otherwise the answer is the own answer of the device. |
| `HiLinkClient.Client.Do` | `src/internal/device/hilink/transport.go:95-121` | Whatever happened to the session before, one caller gets the own answer of the device within two attempts, never a token error, with the body executed exactly once; undisturbed, the first attempt succeeds. |
| `HiLinkClient.Run` | `src/internal/device/hilink/transport.go:95-180` | Over any run of calls and disturbances every call ends in the own answer of the device, and the bodies executed are those of the posts it had no reason to refuse, each once and in order. |
| `HiLinkCallers.NextKeepsInv` | `src/internal/device/hilink/transport.go:95-180` | Every lock section and message of any caller keeps pool, carried and spent tokens apart; taking in tokens and the cookie are two sections. |
| `HiLinkCallers.OneTokenOneRun` | `src/internal/device/hilink/transport.go:95-180` | In every interleaving of callers no token is sent in two POSTs and each Post has its body executed at most once. |
| `ReconcileWorld.ProxiesBySlot` | `src/internal/reconcile/world.go:36-45` | Each slot gets its proxy with the smallest id, in whatever order the map is walked. |
| `ReconcileWorld.LexMeans` | `src/internal/reconcile/world.go:36-45` | The order on ids: a prefix comes first, otherwise the first character that differs decides. |
| `ReconcileOrder.SortedSlots` | `src/internal/reconcile/actions.go:161-168` | The keys in ascending order, whatever order they came in. |
| `ReconcileOrder.ListingUnique` | `src/internal/reconcile/actions.go:161-168` | There is only one such list. |
| `ReconcilePlan.EgressReady` | `src/internal/reconcile/plan.go:179-237` | Ready if and only if the link is there, carries 192.168.(100+s).100/24, rules stand at 1000+s and at 1500+s, and table 1000+s has a default route over it; otherwise names the first of these that is missing. |
| `ReconcilePlan.PlanOneSlot` | `src/internal/reconcile/plan.go:40-95` | The accumulated list is the plan of the slot: nothing while an operation is live on it, its proxy or its dongle. |
| `ReconcilePlan.DropDestructive` | `src/internal/reconcile/actions.go:103-112` | Keeps the rest of a plan, in order. |
| `ReconcilePlan.Plan` | `src/internal/reconcile/plan.go:14-27` | The plan is a function of the world alone: no order of walking the maps can change it. |
| `ReconcilePlan.GraceIsHarmless` | `src/internal/reconcile/plan.go:23-26` | In the startup grace exactly the non-destructive part is planned. |
| `ReconcileExact.PlannedExactly` | `src/internal/reconcile/plan.go:14-207` | Action by action: a plan holds it if and only if rows and observations call for it, in the plain terms of both, on a slot nothing live has to do with, and the startup grace does not forbid it; each once, the host first and then slot by slot in a fixed order. |
| `ReconcileExact.OneInOrder` | `src/internal/reconcile/plan.go:14-207` | There is only one list with given actions in that order, so these two facts are the whole plan. |
| `ReconcileExact.IdleExactly` | `src/internal/reconcile/plan.go:14-207` | A plan is empty if and only if nothing is called for. |
| `ReconcileConverge.FirstSweep` | `src/internal/reconcile/plan.go:40-177` | After one sweep whose actions did what their reasons name, neither routing nor a reboot is planned any more. |
| `ReconcileConverge.SecondSweep` | `src/internal/reconcile/plan.go:40-177` | A sweep that planned neither leaves nothing to plan. |
| `ReconcileConverge.DebtFalls` | `src/internal/reconcile/actuator.go:86-109` | The number of sweeps still owed falls with every sweep. |
| `ReconcileConverge.ThirdPlanIsEmpty` | `src/internal/reconcile/plan.go:14-207` | From any world without live operations and past the grace, two sweeps are enough: the third plan is empty. |
| `ReconcileConverge.Converges` | `src/internal/reconcile/plan.go:14-207` | From any such world two such sweeps exist, and after them nothing is planned. |
| `ReconcilePoll.DelayBounds` | `src/internal/reconcile/backoff.go:32-80` | Every backoff lies within the jitter of its shortest and longest delay, whatever the settings. |
| `ReconcilePoll.DelayGrows` | `src/internal/reconcile/backoff.go:32-60` | The first delay is the shortest, each further one the last times the factor up to the longest and for twenty failures, and the dice spread each around that value. |
| `ReconcilePoll.TurnMeans` | `src/internal/reconcile/poll.go:205-281` | What a turn makes of an observation, field by field: an empty slot keeps nothing, one that backs off what it had, an answer sets connection and idle time and on a slow sweep SIM and login, a failure keeps all but that it answers and since when it does not. |
| `ReconcilePoll.Poller.PollDevice` | `src/internal/reconcile/poll.go:205-281` | Polls exactly when the slot is occupied and its backoff is over; the observation and the backoff afterwards are those of the answer and agree with the history of polls; an empty slot keeps nothing. |
| `ReconcilePoll.Poller.Sweep` | `src/internal/reconcile/poll.go:87-174` | Every observation and backoff afterwards is what the turn of its own slot makes of its own reading, and the observations agree with the history of polls, through backoff and empty slots. |
| `ReconcilePoll.RebootOnlyAfterSilence` | `src/internal/reconcile/plan.go:139-160` | A reboot is planned only for a slot whose latest poll failed and which answered no poll in the last minute. |
| `ReconcileBudget.RebootAllowed` | `src/internal/devops/reboot.go:669-692` | The scan allows a reboot if and only if the reboots filed on the dongle since the start of the UTC day are fewer than the budget and each is past the cooldown. |
| `ReconcileBudget.LoadBudgets` | `src/internal/reconcile/world.go:117-163` | Per subject id the count and latest start of the reboots of the day, per proxy the latest recent rotation, and the rotations in flight. |
| `ReconcileBudget.BudgetRefinesScan` | `src/internal/reconcile/contract.go:59-68` | With every reboot of the day made on dongle subjects, budget and scan give the same answer. |
| `ReconcileBudget.BudgetNeverLooser` | `src/internal/reconcile/contract.go:59-68` | The budget never allows what the scan refuses. |
| `ReconcileBudget.AgreeUnlessForeign` | `src/internal/rotate/rotate.go:736-759` | The two agree under every policy exactly when no reboot of the day is filed under the id on another kind of subject, as none is by this code (devops/reboot.go:567). |
| `EventBus.PublishKeeps` | `src/internal/eventbus/bus.go:51-89` | A publish keeps the invariant of channels, map and pending closes. |
| `EventBus.PublishDelivers` | `src/internal/eventbus/bus.go:51-89` | An accepted publish enters the log on its topic and reaches every subscription it is due to that has room; those without are let go with a close to come; everyone else stays as they were. |
| `EventBus.HistoryKept` | `src/internal/eventbus/bus.go:51-141` | The log of the bus is the sequence of publishes that were accepted, and its subscriptions are those asked for, as the actions alone say. |
| `EventBus.NothingSkipped` | `src/internal/eventbus/bus.go:51-141` | In every interleaving: no send or close on a closed channel, each channel closed at most once; of the publishes accepted since it began a subscription gets those on its topics in order, all of them while subscribed, and all up to the cancel, close or overflow that ended it; its reader has the first of them, one per read. |
| `EventBus.MemBus.PublishLocked` | `src/internal/eventbus/bus.go:60-82` | Accepted if and only if the type is known and the bus open; then the event is logged and counted once and delivered to whom it is due with room, in whatever order the map is walked; otherwise nothing changes. |
| `EventBus.MemBus.SubscribeLocked` | `src/internal/eventbus/bus.go:91-123` | Adds a subscriber to the wanted topics, or to all, unless the bus is closed. |
| `EventBus.MemBus.CancelLocked` | `src/internal/eventbus/bus.go:112-120` | Reports a close as due exactly when the subscriber was still in the map. |
| `EventBus.MemBus.CloseLocked` | `src/internal/eventbus/bus.go:125-141` | Empties the map once and owes every member a close. |
| `Limiter.WindowBound` | `src/internal/ratelimit/bucket.go:83-127` | With readings in order no key is granted more than Burst + T/Interval tokens in any window of length T. |
| `Limiter.LateIsHarmless` | `src/internal/ratelimit/bucket.go:85-126` | A call read earlier than the one before it is decided as if read on time, and leaves the same later levels exactly if it found the bucket full and takes nothing, asking for nothing or for more than fits. |
| `Limiter.LateReadingForgives` | `src/internal/ratelimit/bucket.go:85-126` | A finding: with readings out of order three tokens of a bucket of one are granted within one interval. |
| `Limiter.GrantedFrom` | `src/internal/ratelimit/bucket.go:83-127` | In whatever order the clock readings reach a bucket, a key is granted no more than its level at the start and what it gains over the time its readings move forward. |
| `Limiter.FullBucketGrants` | `src/internal/ratelimit/bucket.go:83-127` | All calls of a run on a key not seen before are granted if and only if every stretch of them asks for no more than Burst and what its own duration gains. |
| `Limiter.GrantedInFull` | `src/internal/ratelimit/bucket.go:83-127` | The same from any level: the run has to fit that level, and every later stretch a full bucket. |
| `Limiter.KeysAreApart` | `src/internal/ratelimit/bucket.go:83-127` | What a key is granted depends on its own calls alone. |
| `Limiter.RetryIsExact` | `src/internal/ratelimit/bucket.go:98-107` | After a refusal the same call succeeds from the returned wait on and not before, unless it asks for more than the burst. |
| `Limiter.ReapChangesNothing` | `src/internal/ratelimit/bucket.go:83-152` | Sweeps that drop keys idle for at least Burst * Interval, anywhere in a run, change no decision of it, and the window bound holds over the whole run. |
| `Limiter.ShorterReapForgives` | `src/internal/ratelimit/bucket.go:135-152` | With any shorter idle time some refusal is forgiven. |
| `Limiter.RateLimiter.AllowN` | `src/internal/ratelimit/bucket.go:83-127` | Refills, then decides; the new bucket, the decision and the wait are those of the refilled level. |
| `Limiter.RateLimiter.Forget` | `src/internal/ratelimit/bucket.go:129-133` | A forgotten key has a full bucket, every other key the level it had. |
| `Limiter.RateLimiter.Reap` | `src/internal/ratelimit/bucket.go:135-152` | Drops exactly the keys not seen since the cutoff and counts them. |
| `NetRules.Manager.EnsureGlobal` | `src/internal/netcfg/linux/manager.go:103-159` | From a list with rules of both families: no other priority and no IPv6 rule is touched; no command is issued exactly if there is one public rule per host already; and an error-free run ends with exactly that if and only if no host is IPv4-mapped and the rules at the public priority could stay or are all IPv4. |
| `NetRules.ExactMeans` | `src/internal/netcfg/linux/manager.go:220-244` | That goal in numbers: every rule at priority 900 comes from one of the hosts alone, in at lo and into table 254, each host has one, and no two rules are for one host. |
| `NetRules.AddedIsTheRule` | `src/internal/netcfg/linux/manager.go:227-244` | The rule added for a host is the rule of that host and of no other. |
| `NetRules.TidiedMeansInet4` | `src/internal/netcfg/linux/manager.go:238-244` | That condition is, for IPv4 hosts, that no IPv6 rule sits at the public priority. |
| `NetRules.Inet6RuleStays` | `src/internal/netcfg/linux/manager.go:238-244` | A finding: with an IPv6 rule at the public priority a run without an error ends inexact, and the next one issues commands again. |
| `NetRules.Survey` | `src/internal/netcfg/linux/manager.go:124-137` | The pass over the rules of both families finds out whether those at the public priority may stay, and for which hosts there is one. |
| `NetRules.Manager.RemoveSlot` | `src/internal/netcfg/linux/manager.go:340-379` | Without an error the list is the old one without exactly the IPv4 rules into table 1000+s from 192.168.(100+s).100/32 at 1000+s and for user 6100+s at 1500+s, and with or without one all others are left in order; no rule of the slot is left if and only if none of them was IPv6. |
| `NetRules.ForeignRulesStay` | `src/internal/netcfg/linux/manager.go:177-218` | The two specs of a slot together match exactly these rules, so that a rule outlives the removal exactly if it is none of them or is IPv6. |
| `NetRules.Inet6SlotRuleStays` | `src/internal/netcfg/linux/manager.go:196-206` | A finding: an IPv6 rule of the slot outlives a removal without an error. |
| `Netlink.ParseNfAttrs` | `src/internal/fw/conntrack.go:47-67` | The loop terminates on every byte string and returns its attributes. |
| `Netlink.EncodeNfAttr` | `src/internal/fw/conntrack.go:78-85` | The buffer holds length, kind, payload and padding. |
| `Netlink.RoundTrip` | `src/internal/fw/conntrack.go:47-85` | Parsing a concatenation of encoded attributes gives them back exactly when every payload is at most 65531 bytes. |
| `Netlink.ParseAttrs` | `src/internal/netcfg/linux/observe.go:119-135` | The loop terminates on every byte string and fails exactly on a bad length. |
| `Netlink.ParsersFind` | `src/internal/fw/conntrack.go:47-67` | Of any bytes the permissive parser returns the chain of framed attributes, each where the last one filled up to four bytes ends, up to the first that is not framed; the strict one returns the same if fewer than four bytes are left there, and fails otherwise. |
| `Netlink.ParsersAgree` | `src/internal/netcfg/linux/observe.go:119-135` | Where the strict parser succeeds both give the same attributes, exactly when no kind carries the byte-order flag. |
| `Enroll.Session.Push` | `src/internal/enroll/enroll.go:214-214` | A change pushed with its compensation leaves the way back unchanged. |
| `Enroll.Session.Unwind` | `src/internal/enroll/enroll.go:216-221` | Compensates newest first; every deletion is of a row nothing refers to. |
| `Enroll.Session.GuardPorts` | `src/internal/enroll/enroll.go:450-482` | Disables exactly the ports of other unprovisioned dongles, or none. |
| `Enroll.DevicesMean` | `src/internal/enroll/enroll.go:450-482` | The ports listed are those of devices that are not provisioned and not the one being enrolled. |
| `Enroll.Session.ReleasePorts` | `src/internal/enroll/enroll.go:484-499` | Switches each of them on again, or counts it. |
| `Enroll.Session.Allocate` | `src/internal/enroll/enroll.go:566-584` | Succeeds exactly when the slot asked for, or any slot if none is, can be taken and the store answers; the slot is the one asked for, or the lowest without a row. |
| `Enroll.Session.UpsertSlot` | `src/internal/enroll/enroll.go:807-842` | Creates or updates the row of the slot and attaches the dongle, exactly if its three calls go through; the update, and only the update, is not undone. |
| `Enroll.Session.PublishSlot` | `src/internal/enroll/enroll.go:707-790` | Firewall, three rows that refer to each other and the unit, with the way back known at every step; succeeds exactly if all calls do and no proxy is left on the row of the slot. |
| `Enroll.Session.RunSteps` | `src/internal/enroll/enroll.go:261-364` | At whatever step a run fails, the way back leads to the start, but for the path of the row it updated and for what was set up for the slot before and gets undone with it. |
| `Enroll.Session.EnrollDongle` | `src/internal/enroll/enroll.go:223-259` | Succeeds exactly if every call does and the slot can be taken; after a failing run the rows differ if and only if the update of an existing row of the slot had gone through with another path, and the host differs otherwise if and only if network files, a firewall entry or a unit had been set up for the slot before and the run got past setting them up; a success undoes nothing and switches the ports on again. |
| `Enroll.KeepsNewPath` | `src/internal/enroll/enroll.go:827-836` | A finding: a run that fails at the attachment leaves the row it found with the new path. |
| `Enroll.LosesNetFiles` | `src/internal/enroll/enroll.go:332-335` | A finding: a run that fails right after the network files takes away those the slot had before. |

## Left out

- Error texts, line numbers and notes: errors are values, and where several problems exist at once the model fixes only that there is an error; which one is reported first follows the code but is not stated.
- ProxyRevoke.UnrevokedStillServed: nothing is said for a new log path that itself names accounts or networks, because these count as granted in the comparison and admit nobody.
- Text is bytes written as characters; trimming knows the ASCII spaces only, and IPv6 addresses are printed, without zones, but not parsed (a valid spec has none).
- ProxyVerify.VerifyGlobals: an internal address is recognised in its IPv4 form only, because a spec with any other is refused before this check.
- `sort.Slice` over prefixes and slots is an insertion with the same order.
- What 3proxy itself does beyond first match, wildcards and the fields the renderer emits.
- ProxySupervisor.Supervisor.Apply: does not model MkdirAll, permissions and group checks one by one, because a failed install may leave the old or the new bytes either way.
- Supervisor.Stop and Status, config validation by a trial process, and the probe protocols: each is one answer of the outside.
- `SpecFor` in reconcile: it sets users and whitelist whatever the auth mode, so its result is not always valid; specs are taken as given.
- RotateRun.Engine.Execute: does not model the progress rows and the number of connections killed, because they feed reports only.
- Rotation results as rows, the escalation to a reboot, and the minimum interval between rotations.
- The operations table beyond what the worker protocol needs: one live row per subject, closing a row, and rows closed as stalled.
- RotateWorkers.Safety: does not cover the steps inside a run, because those are `RotateRun`; the reboot service is the same protocol with an unlimited semaphore.
- HiLink.SimDevice.ServeHTTP: does not model the handshake path, which is `HiLink.TokenStore.Handshake`, injected faults, and bodies that cannot be read, because they never reach the token table.
- HiLinkClient.Client.Attempt: no fresh tokens or cookies in replies, because the simulated device sends none; `HiLinkCallers` has both.
- ReconcilePoll.Poller.Sweep: polls one slot after the other, because only the order of two polls of one slot matters and each is polled once.
- HiLink XML, HTTP headers and the parsing of tokens out of them; network faults during a call for the single-caller result; the Go client's own connection reuse.
- HiLinkCallers.OneTokenOneRun: does not say that every caller makes progress, because with many callers a token can be lost to a reset by another one.
- ReconcileConverge.ThirdPlanIsEmpty: does not say that real actions succeed; a missing interface, for one, comes back only when someone plugs it in.
- Loading rows from the store, cloning of observations, generations of live operations, and the event notices of the engine.
- Poll results that no plan reads: signal, traffic, network mode.
- ReconcilePoll.DelayBounds: real arithmetic, because rounding to nanoseconds is not the point.
- Limiter.RateLimiter.AllowN: real arithmetic, because floating point rounding is not the point.
- Limiter.ReapChangesNothing: sweeps among readings in order only, because the cutoff of a sweep is a reading too.
- EventBus: context errors before the lock, and the count of subscribers let go.
- ProxySettings.OneOfEach: numbers up to 64 bits, because the words of a larger one would not be read back by `strconv.Atoi`.
- Writing network files, reloading networkd, ApplySlot and route flushing.
- Netlink attribute values and the messages around them.
- Enroll: device-side changes such as the moved LAN address are not undone by the code and not part of the host; conflicts among links, waiting for a link and rediscovery are checks that change nothing.
- Enroll.Session.UpsertSlot: one path stands for the three descriptive fields of a slot's row, and its time of update is left out, because all are written together.
- HTTP handlers, web pages, command line, metrics, logging, configuration, cryptography, SMS and time zones.
