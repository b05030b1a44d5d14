# drover-runner: a verified model of the microVM daemon

drover-runner is a daemon that boots one microVM per HTTP request and destroys it
on another. For each instance it makes a TAP link, copies a disk overlay, starts a
hypervisor process and configures it over a socket; to destroy it, it stops the
process, overwrites the overlay with zeros, unlinks it, writes an audit record and
removes the link. Every one of these is an external command that can fail, many
requests run at once, and the only lock in the daemon guards a sequence counter.

This project models that behaviour and proves what every run of it keeps.

## How the model is built

**The lifecycle protocol** (`Lifecycle*.dfy`). The state is the host and the daemon
together: overlay files as byte sequences, links, processes, the instance registry,
the running `Stop` calls and `StopAll` sweeps, the audit log and the answers given.
An `Action` is one atomic step of one handler, of a sweep or of the host, and carries
the outcome of its command: `Done`, `Refused`, or `Interrupted`: it took effect but
reported failure, as a command can that a signal ends late. The signal may come through
a cancelled request context, or, for the commands of `Stop`, which pass a background
context, from anything else on the host that signals the `ip` process. A list of actions is
one interleaving with one choice of failures, so "for all lists of actions" is "for
all runs". Two instances whose names coincide share a link, as on a host. What a
failed cleanup leaves is recorded per instance (`tapResidue`, `diskResidue`), so that
conservation is stated exactly.

- `Lifecycle` holds the steps, `LifecycleCells` what one instance's commands keep,
  `LifecycleInv` what every step of the whole keeps.
- `LifecycleTheorems` holds the results over whole runs; `LifecycleRollback` those
  about how launches end, `LifecycleRetry` those about entries and repeated deletes,
  `LifecycleSanitized` and `LifecycleAudits` those about what a 204 and an audit say of
  the overlay. `LifecycleShred` ties the shredder's method to the protocol's steps.
- `LifecycleLimits` shows where the guarantees stop: exact conditions, each with
  concrete runs that show it is needed.

**The handlers as code** (`Daemon.dfy`). The class `Daemon` writes `LaunchVM` with its
rollbacks, the `Stop` closure, the handlers, `StopAll` and `ServeHTTP` as imperative
methods over the protocol state. Before each command any number of actions of other
threads may happen. Each method is proved to extend the one run of the daemon, so the
theorems about runs hold of what it does. What the host answers to a method's own
commands is an input of the method, so that its contract says of every answer where it
leads: which statuses, which registry, and which overlay and link are left. The parts
that talk to the host take its answers in the same way.

**The parts**, each in its source's own form: `Purge.dfy` (the shredder's loop over an
array), `Firewall.dfy`, `Bridge.dfy` and `BridgeCalls.dfy` (the rule chain, packets over
traces, the setup commands, subnet derivation, overlapping calls of `SetupBridge` whose
commands may take effect and report failure), `Naming.dfy` (truncated link names), `Orchestrator.dfy`
(the boot protocol), `Slice.dfy` (the exit broadcast and the signals of `Stop`),
`Kraftfile.dfy` (both forms of a target), `Router.dfy` (the router and the client's URLs), `Text.dfy`, `Zeroing.dfy`
and `Common.dfy` (strings, bytes and stock types).

## What is assumed

- A link can be added only if no link bears its name and deleted only if it is there;
  `os.Remove` succeeds only on a name that exists. Commands have no other relation to
  their outcome: each may fail at any time.
- While the daemon runs nothing else on the host touches its links and overlays. What
  was there before it started is kept apart (`strayLinks`, `strayFiles`).
- A guest writes to its overlay only while its process lives. Nothing says that a
  process is gone when the shredder starts, because `Stop` kills without waiting
  (`pkg/firecracker/orchestrator.go:153-156`); results that need it say so (`reaped`).
- Rules that `SetupBridge` does not manage accept a packet from the bridge to the bridge
  only if it belongs to a tracked connection, as a rule for RELATED,ESTABLISHED does.
- Packets enter and leave by the side their endpoints are on, RELATED is an error report
  on a tracked connection that is sent to one of its ends, by whomever, and makes no
  connection of its own, and only packets that traverse the FORWARD chain are meant.
  Helpers that expect further connections are not loaded. A tracked connection counts as ESTABLISHED in
  both directions at once, while connection tracking calls one that has seen no reply
  NEW: the model accepts more than a host does, which is on the safe side for isolation,
  and what `Firewall.BridgingVerdictExact` calls exact is exact for the model.
- Client URLs follow the parsing rules of Go's `net/url` for a base URL without a path
  of its own: control characters are refused, the fragment and the query are cut off,
  percent escapes are decoded.

## What turned out not to hold in general

Each of these has a lemma that gives the exact condition, and one that gives an input on
which it fails where the condition does not name such inputs itself.

- Link names are truncated to 15 characters and collide from the 10000th id on.
  Releasing by id removes only an instance's own link in all runs exactly up to 9999
  ids (`Naming.DaemonOwnLinksOnly`; the first collision is `Naming.FirstCollision`).
- For the same reason at most one DELETE per instance is answered 204 in all runs exactly
  up to 9999 ids (`Naming.DaemonAnswersOnce`): beyond, two DELETEs of one instance can be,
  the second at the cost of another instance's link
  (`LifecycleLimits.SharedNameAnswersTwice`).
- An audit record does not by itself mean that the overlay was zero when it was
  unlinked: a process that outlives its `Stop` can write behind the shredder
  (`LifecycleLimits.UnreapedAudit`). It was zero exactly if at no offset the last write
  before the unlink was a guest's, of a byte that is not zero
  (`LifecycleAudits.AuditProvesZeroIff`). That the process had exited when the shredder
  opened the file is enough.
- `docs/diataxis/reference/rest-api.md:197` and `:207` say that a 204 means terminated
  and sanitized, and that an error of the shredder is answered 500. The code prints
  that error and goes on (`pkg/daemon/driver.go:215-217`), so a DELETE can be answered
  204 with the tenant's bytes still on the host. They are gone exactly if some run of
  the shredder on that overlay succeeded (`LifecycleSanitized`).
- A DELETE that failed cannot always be repeated to success. Its entry is still there
  unless another DELETE was answered 204 or a `StopAll` visited it
  (`LifecycleRetry.EntryStays`). But once a release has removed the link and reported a
  failure, every later release fails, and only `StopAll` removes the entry
  (`LifecycleLimits.StuckEntry`; `LifecycleRetry.RetryCanSucceed` is the exact condition).
- A successful `SetupBridge` does not mean that the isolation rule is in place, since it
  returns early when the bridge exists. However calls overlap, and whatever their
  commands report, the rule is in place exactly if the last command of the call that
  created the bridge has taken effect, or the host held more copies of it than that
  call's deletion removed (`BridgeCalls.IsolatedIffFinished`). On a host that held none,
  another call can return success at every point before
  (`BridgeCalls.SuccessBeforeIsolation`), and the creating call can even report failure
  after it (`BridgeCalls.FailureWithIsolation`). A host that held one copy, left behind
  when its bridge was deleted, loses it between the last two commands, and for good if
  the last one is refused (`BridgeCalls.SetupWithdrawsIsolation`).
- `docs/diataxis/explanation/architecture-and-security.md:129` says that traffic from the
  bridge to the bridge is unconditionally dropped. The rule that accepts RELATED and
  ESTABLISHED traffic comes first. No tracked connection ever has both ends on the
  bridge, which is an invariant over packet traces (`Firewall.StaysSeparated`), so what a
  guest sends to a guest is dropped, but for one kind of packet: an error report on a
  connection that the receiver has with the outside (`Firewall.TenantsAreIsolated`).
  On the bare installed chain that is exact (`Firewall.IsolationIsExact`), and
  `Firewall.ReportReachesTenant` is an instance.
- Installing the rules twice can differ from installing them once
  (`Firewall.ReinstallMovesDuplicates`). It makes no difference exactly if the chain
  without its first copy of each rule is settled: the copies that are left stand at its
  end already, in blocks that are in order (`Firewall.ReinstallIdempotentIff`). A chain
  with at most one copy of each is settled, and some with more are
  (`Firewall.ReinstallKeepsSettledDuplicates`).
- `docs/drun-006-secure-purge-design.md:73` gives the certificate as the hash of no bytes
  and as a proof of zeroing. The code hashes up to 1024 zero bytes, which is the hash of
  no bytes only for an empty file, and is one constant for all files of at least 1024
  bytes: the certificate tells the size at most (`Purge.CertificateIsSizeOnly`,
  `Purge.OneSampleForAll`).
- A declared target is found by `HasTarget` exactly if it prints as itself; targets with
  a leading slash, or with one name and a final slash, do not
  (`Kraftfile.DeclaredIsFound`); `/x86_64` and `qemu/` are not
  (`Kraftfile.SlashesAreLost`).
- The derived subnet is the network of the bridge address exactly if the prefix has at
  most 16 bits or the rest of the address is zero up to the prefix
  (`Bridge.SubnetIsBridgeNetwork`); for 10.0.1.1/24 it is another one
  (`Bridge.LongPrefixMissesNetwork`).
- Ids are distinct exactly up to 2^64 creates (`Naming.IssuedIdsDistinct`).

## Model

| member | source | states |
|---|---|---|
| LifecycleTheorems.TapConservation | pkg/daemon/driver.go:141-246 | Where the link names of the ids issued are distinct, in every interleaving of creates, deletes, retries and `StopAll`, with any command failing, the live links are those of the host before plus exactly one, never shared, per instance that is in flight past its allocation, registered and unreleased, or on record with a failed cleanup |
| LifecycleTheorems.OverlayConservation | pkg/daemon/driver.go:162-237 | The same for overlay files, in any number of creates below 2^64; a file that was there before is lost only to an overlay of the same path |
| LifecycleTheorems.ProcessesAreHeld | pkg/daemon/driver.go:176-212 | In every run a process that lives belongs to a launch in flight or a registered instance, or has been told to stop |
| LifecycleTheorems.AuditedOnceAndWiped | pkg/daemon/driver.go:211-230 | At most one destruction audit per instance in every run; its overlay is unlinked for good, its recorded size is the file's, every byte the guest did not write behind the shredder was zero, and all of them were if the process had exited before |
| LifecycleTheorems.DeletedOnceAndGone | pkg/daemon/server.go:143-160 | Where the link names of the ids issued are distinct, at most one DELETE per instance is ever answered 204; then it is unregistered, its link is gone, and it has at most one audit |
| LifecycleTheorems.RunAnswers | pkg/daemon/server.go:152-159 | In every run, whatever the names, an instance that was answered 204 is unregistered, and stays so |
| LifecycleLimits.AnsweredOnce | pkg/daemon/server.go:143-160 | In all runs with at most `bound` creates no instance is answered 204 twice, exactly if the first `bound` link names are pairwise distinct |
| LifecycleLimits.SharedNameAnswersTwice | pkg/network/network.go:167-180 | For any two ids that share a link name, a run in which two DELETEs of one are both answered 204 |
| LifecycleRetry.EntryStays | pkg/daemon/server.go:143-160 | Over any run, whatever runs beside, a registered entry is still there unless a 204 for it was answered or a `StopAll` visited it: no DELETE that is answered 500 removes it at any of its steps |
| LifecycleRetry.EntryAnswers | pkg/daemon/server.go:127-141 | Over any run a registered entry is found by every GET, with 200, as long as no 204 for it was answered and no `StopAll` visited it |
| LifecycleRetry.RunIsKnown | pkg/daemon/server.go:127-160 | In every run each answer about an instance is 200, 204, 404 or 500, and one that is not 404 is about an instance that came up |
| LifecycleTheorems.LifecycleIsMonotone | pkg/daemon/server.go:97-160 | Over any run an id moves only from unallocated to launching, then to failed or registered, then to removed |
| LifecycleTheorems.RunIsLater | pkg/daemon/driver.go:211-237 | Over any run what is on record of an instance that came up stays so: told to stop, unlinked, released, left behind, exited, unregistered |
| LifecycleTheorems.CreateIsFresh | pkg/daemon/server.go:105-108 | The id of a create is the number of creates so far and was never issued before |
| LifecycleTheorems.GoneStaysGone | pkg/daemon/server.go:127-133 | Once an id is removed or its launch has failed, every later GET of it answers 404 |
| LifecycleTheorems.StopAllCovers | pkg/daemon/server.go:182-193 | For every order of visits and whatever fails, all that was registered when `StopAll` began has been told to stop and is unregistered when it returns; if nothing was registered meanwhile the registry is empty |
| LifecycleTheorems.ExecKeepsSound | pkg/daemon/server.go:97-193 | Every run from a sound state ends in a sound state: each cell, teardown, file, audit and sweep is accounted for, and the counter counts the creates |
| LifecycleTheorems.RunKeepsTaps | pkg/network/network.go:137-180 | With distinct names, in every run each link exists exactly while its instance accounts for it, and no instance has two 204s written or on their way |
| LifecycleTheorems.RunKeepsStrays | pkg/daemon/driver.go:249-266 | Links of other programs are never touched, and their files are lost only to an overlay created in their place |
| LifecycleTheorems.PhaseStep | pkg/daemon/server.go:97-160 | One step moves an id along at most one edge of its lifecycle |
| LifecycleTheorems.NothingRegisters | pkg/daemon/server.go:117-117 | Without a store into the registry a run only shrinks it |
| LifecycleRollback.RollbackIsExact | pkg/daemon/driver.go:156-205 | In every run a failed launch registers nothing and hands out nothing, its process has been told to stop, and it leaves its overlay exactly if its removal failed or the copy failed after creating it |
| LifecycleRollback.RollbackReleasesLink | pkg/network/network.go:137-180 | Where link names are distinct, it leaves its link exactly if a cleanup of it failed or it was made behind a reported failure |
| LifecycleRollback.RunRecords | pkg/daemon/driver.go:156-205 | Until an instance is up, its residue record is exactly the mishaps of its own commands in the run, whatever runs beside it: that of its overlay in every run, that of its link where link names are distinct |
| LifecycleRollback.HandleIffComplete | pkg/daemon/driver.go:151-207 | In every run a launch gives its orders as they are written out (bridge, make, attach and raise the link, copy, spawn, await the socket, and the five requests), in order and up to the first that fails, and has handed out its handle exactly if it gave all twelve and each of them succeeded |
| LifecycleRollback.RequestsAreBoot | pkg/daemon/driver.go:183-207 | The requests among them are those of the boot protocol of `Orchestrator`, one each, in its order |
| LifecycleRollback.NothingLeaks | pkg/daemon/driver.go:141-246 | When nothing is in flight or registered and no failed removal of an overlay is on record, the host holds no file it did not hold before, and every process left has been told to stop; if no failed removal of a link is on record either and link names are distinct, it holds the links it held |
| LifecycleRetry.RetryCanSucceed | pkg/daemon/server.go:143-160 | Where link names are distinct, a registered instance can still be answered 204 exactly while its link exists or a DELETE that released it has not answered yet |
| LifecycleRetry.StuckForGood | pkg/network/network.go:177-180 | Where link names are distinct: once the link is gone and no such DELETE is left, no continuation of the run ever answers 204 |
| LifecycleRetry.RunReleases | pkg/network/network.go:167-180 | An instance is on record as released exactly if a release of it took effect in the run, whatever it reported |
| LifecycleLimits.StuckEntry | pkg/network/network.go:177-180 | A run in which a release removes the link and reports failure, so that the entry is stuck |
| LifecycleRetry.CanSucceed | pkg/daemon/driver.go:211-237 | While the link exists, or a DELETE that released it has not answered, some continuation of the run answers 204 without a further create |
| LifecycleSanitized.DeletedIsSanitizedIffPurged | pkg/daemon/driver.go:214-237 | After a 204 the overlay is gone exactly if some ShredFile on it succeeded; otherwise it is on record as left behind and has no audit |
| LifecycleSanitized.DeletedNotSanitized | pkg/daemon/driver.go:215-217 | A run in which a DELETE is answered 204 and every byte of the overlay is still there |
| LifecycleSanitized.RunPurges | pkg/storage/purge.go:92-103 | An overlay is recorded as unlinked exactly if a ShredFile on it reached a successful unlink in the run |
| LifecycleLimits.OwnLinksOnly | pkg/network/network.go:167-180 | In all runs with at most `bound` creates no command removes another instance's link, exactly if the first `bound` link names are pairwise distinct |
| LifecycleLimits.SharedNameRobs | pkg/network/network.go:137-142 | For any two ids that share a link name, a run in which the second of two overlapping deletes of one removes the link that the other made |
| LifecycleLimits.ReapedAuditsProveZero | pkg/firecracker/orchestrator.go:150-156 | In all runs an audit whose process had exited when the shredder opened the file stands for an overlay that was all zero; of the other audits that does not hold in all runs |
| LifecycleLimits.UnreapedAudit | pkg/firecracker/orchestrator.go:153-156 | A run in which a process that outlives its stop writes behind the shredder and the audited overlay is not zero |
| LifecycleLimits.WholeLife | pkg/daemon/driver.go:141-246 | A run with a whole life: created, booted, registered, deleted with a 204, its overlay audited as zero, and nothing left on the host |
| LifecycleAudits.AuditProvesZeroIff | pkg/daemon/driver.go:214-230 | For every audit of every run, the bytes that were not zero at the unlink are exactly those whose last write before it was a guest's, of a byte that is not zero; so the overlay was all zero exactly if there are none, as there are if the process had exited before |
| LifecycleAudits.AuditsAreComplete | pkg/daemon/driver.go:215-230 | In every run an overlay that a ShredFile removed, and no other, has exactly one audit, or a `Stop` call that is about to write it |
| LifecycleShred.MethodIsProtocol | pkg/storage/purge.go:22-104 | While only the shredder writes to an overlay, whatever the guest wrote before, the failures of the protocol's shredder steps leave exactly what some error of the method `File.Shred` may leave, and their success is exactly the audit of the whole file zeroed |
| LifecycleShred.NoFileNoPurge | pkg/storage/purge.go:26-29 | Without the file the steps of a purge are one failed open |
| Naming.DaemonOwnLinksOnly | pkg/network/network.go:137-180 | With the daemon's own names no command removes another instance's link in all runs with at most `bound` creates, exactly if `bound` is at most 9999 |
| Naming.DaemonAnswersOnce | pkg/daemon/server.go:143-160 | With the daemon's own names no instance is answered 204 twice in all runs with at most `bound` creates, exactly if `bound` is at most 9999 |
| Naming.DaemonConserves | pkg/daemon/driver.go:141-246 | Conservation of links and overlays for the daemon's own names, up to 9999 creates |
| Naming.TapNamesDistinct | pkg/network/network.go:138-142 | The link names of the first `bound` ids are distinct exactly up to 9999 |
| Naming.FirstCollision | pkg/network/network.go:138-142 | `inst-1000` and `inst-10000` share the name `dvr-t-inst-1000` |
| Naming.TapNameIsHead | pkg/network/network.go:138-142 | For every id the link name is the prefix with the first four decimal digits of its number |
| Naming.SameTapName | pkg/network/network.go:138-142 | Two ids share a link name exactly if their first four digits agree |
| Naming.OverlayPathInjective | pkg/daemon/driver.go:163-163 | Overlay paths never collide |
| Naming.OverlayIsSpelled | pkg/daemon/driver.go:163-163 | The path of an overlay, spelled out |
| Naming.IssuedIdsDistinct | pkg/daemon/server.go:105-108 | The ids of the first `k` creates are pairwise distinct exactly up to 2^64 |
| Daemon.Daemon.LaunchVM | pkg/daemon/driver.go:141-246 | Under any interference the orders it gives are the twelve, in order up to the first that fails, and it returns a handle exactly if all were given and succeeded; otherwise nothing is registered and the host keeps its overlay, and where link names are distinct its link, exactly if one of its own commands went astray. Where no other link has its name, it succeeds exactly if the host answers all twelve orders well, and which of overlay and link a failed launch leaves is told exactly by the answers to its orders and its rollback |
| Daemon.Daemon.Acquire | pkg/daemon/driver.go:152-205 | The stages and rollbacks, as the code branches, take the launch to its handle if the host answers all orders well, and otherwise to its end, with exactly the residue that the answers tell |
| Daemon.Daemon.Boot | pkg/daemon/driver.go:176-207 | Socket and requests take a spawned launch to its handle exactly if the host answers all six well; otherwise the rollback takes it to its end, and leaves the overlay or the link exactly if their removal is refused |
| Daemon.Daemon.AllocateTAP | pkg/network/network.go:147-165 | The launch goes on to the copy if the link is made, attached and raised, and is over otherwise, with the link left exactly if it was made behind a reported failure or its deletion was refused |
| Daemon.Daemon.ShredOverlay | pkg/daemon/driver.go:214-230 | Shredding under interference ends at the release, whatever it met, its loop terminates, and the overlay is gone for good if the host answers every step well |
| Daemon.Daemon.Stop | pkg/daemon/driver.go:211-237 | The closure ends in an error exactly if the release failed, and then goes no further; overlay and, where names are distinct, link are gone as far as the host answered well |
| Daemon.Daemon.HandleCreate | pkg/daemon/server.go:97-125 | 400 changes nothing and issues no id; otherwise the id is fresh, 201 means registered, 500 means the launch failed and is not registered. Where no other link has its name, 500 means that the host failed one of the twelve orders, and what it leaves is told exactly by the host's answers |
| Daemon.Daemon.HandleDelete | pkg/daemon/server.go:143-160 | 404 changes nothing and means no entry has the id; 204 means the entry is removed and, where link names are distinct, its link gone; 500 is recorded as the answer, and the entry is still there unless another DELETE was answered 204 or a `StopAll` visited it meanwhile. Whatever the status, overlay and link are gone as far as the host answered well |
| Daemon.Daemon.Load | pkg/daemon/server.go:128-134 | Finds the registered instance with the id, exactly if there is one |
| Daemon.Daemon.StopAll | pkg/daemon/server.go:182-193 | Under any interference, everything registered at its start has been told to stop and is unregistered when it returns; what it visited itself is shredded and released as far as the host answered well |
| Daemon.Daemon.ServeHTTP | pkg/daemon/server.go:43-95 | 401 exactly without the token, 405 exactly for a refused method on a known path, 404 for unknown paths and ids that no entry has; all of these and all GETs change nothing, and 200 is exactly a GET that finds its entry. A POST is 400 exactly if its body does not decode, 201 means registered and 500 failed and unregistered; a DELETE of an entry is 204 or 500 as `HandleDelete` says, and that status is on record |
| Daemon.Daemon.Read | pkg/daemon/server.go:127-179 | GET of an instance or of its logs finds it exactly if it is registered |
| Daemon.Daemon.Others | pkg/daemon/server.go:97-193 | Any number of actions of other threads leave the progress of this thread alone |
| Daemon.OthersKeep | pkg/daemon/server.go:97-193 | No other thread's action moves a launch, a running `Stop` or a `StopAll` that is not its own |
| Daemon.ExecSplit | pkg/daemon/server.go:97-193 | A run can be cut anywhere into a run and its continuation |
| Purge.File.Shred | pkg/storage/purge.go:22-104 | It succeeds exactly if the file has its name and none of its calls (open, stat, a check and a write per 64 KiB block, sync, seek, read, remove) fails; then all bytes are zero, with exactly one write per block, the certificate is that of the size, and the name is gone. Otherwise it returns the error of the first call that failed, keeps the name, and the zeros reach as far as the error says, the rest being untouched |
| Purge.File.Overwrite | pkg/storage/purge.go:39-61 | At every iteration a prefix is zero and the rest untouched; it stops at the first check or write that fails, between blocks if it was a check; ceil(size/65536) writes on success |
| Purge.File.Certify | pkg/storage/purge.go:63-86 | The hash is that of min(size, 1024) zero bytes, even if the read comes up short; an error is that of the first of flush, seek and read that failed |
| Purge.CertificateIsSizeOnly | pkg/storage/purge.go:73-86 | Two sizes have the same sample exactly if they are equal or both at least 1024 |
| Purge.OneSampleForAll | pkg/storage/purge.go:73-86 | Files of 1 and of 4 KiB share one sample, and only an empty file has the empty one |
| Firewall.TenantsAreIsolated | pkg/network/network.go:117-132 | After one complete SetupBridge, over every trace of traffic, every packet from a guest to a guest that traverses FORWARD is dropped, unless it is an error report on a connection that the receiver has with the outside; provided no other rule accepts one that belongs to no tracked connection, and no guest-to-guest connection was tracked before |
| Firewall.IsolationIsExact | pkg/network/network.go:123-132 | On the bare installed chain, over every trace, a packet from a guest to a guest is accepted exactly if it is such a report |
| Firewall.ReportReachesTenant | pkg/network/network.go:123-132 | A trace in which one guest's error report reaches another |
| Firewall.StaysSeparated | pkg/network/network.go:123-132 | Over every trace no tracked connection ever has both ends on the bridge |
| Firewall.GuestsAreConnected | pkg/network/network.go:117-127 | On the installed chain, from any chain and for any policy, and unless another rule matches: a packet from a guest to the outside is accepted, one from the outside to a guest exactly if it belongs to a tracked connection or the policy accepts, and any other is left to the policy |
| Firewall.RepliesReturn | pkg/network/network.go:117-127 | Over any trace, from the moment a packet of a guest to the outside is let through, every reply to it, and every error report on it, is accepted until its connection expires |
| Firewall.RepliesStop | pkg/network/network.go:123-127 | Once it has expired, what would have been a reply is left to the policy |
| Firewall.FirstMatchDecides | pkg/network/network.go:117-132 | The first rule that matches decides, with the target that it was installed with |
| Firewall.BridgingVerdict | pkg/network/network.go:123-132 | A packet from the bridge to the bridge is accepted only if it belongs to a tracked connection |
| Firewall.BridgingVerdictExact | pkg/network/network.go:123-132 | On the bare installed chain, exactly if it does, a tracked connection counting as established: the accept rule comes before the drop |
| Firewall.ReinstallNormalForm | pkg/network/network.go:117-132 | From any chain, delete-then-append leaves the three rules as the suffix in fixed order, keeps other rules in order, and turns the count n of a managed rule into max(1, n) |
| Firewall.ReinstallIdempotentIff | pkg/network/network.go:117-132 | Installing again changes nothing exactly if, in the chain without its first copy of each managed rule, the copies that are left stand at the end in blocks that are in order |
| Firewall.ReinstallIdempotent | pkg/network/network.go:117-132 | So it changes nothing if no managed rule was there twice |
| Firewall.ReinstallMovesDuplicates | pkg/network/network.go:117-132 | A chain in which a second copy of a rule is moved to the back |
| Firewall.ReinstallKeepsSettledDuplicates | pkg/network/network.go:117-132 | A chain with two copies of a rule on which installing again changes nothing |
| Firewall.ReinstallForm | pkg/network/network.go:117-132 | The result is the chain without its first copy of each rule, followed by the three rules |
| Bridge.SubnetOfAddress | pkg/network/network.go:101-109 | Every address a.b.c.d/len yields a.b.0.0/len |
| Bridge.SubnetIsBridgeNetwork | pkg/network/network.go:101-113 | Its network in the sense of section 3.1 of RFC 4632 is that of the bridge address, exactly if len is at most 16 or the rest of the address is zero up to it |
| Bridge.LongPrefixMissesNetwork | pkg/network/network.go:101-109 | 10.0.1.1/24 yields 10.0.0.0/24, which is another network |
| Bridge.FallbackSubnet | pkg/network/network.go:101-109 | What is not an address of four parts with one prefix yields the subnet of 172.20.0.1/16 |
| Bridge.CompleteSetup | pkg/network/network.go:86-134 | All commands together bring the bridge up and reinstall the chain, deletions that failed being ignored |
| Bridge.IsolationComesLast | pkg/network/network.go:84-134 | After the first `k` commands the isolation rule is there exactly if these are all, or there were more copies of it than the deletion removed if it is among them; the bridge from the first on |
| Bridge.IsolationCount | pkg/network/network.go:129-132 | The number of copies of the rule after the first `k` commands: one less from the deletion on, if it took effect and there was one, and one more with the last |
| BridgeCalls.IsolatedIffFinished | pkg/network/network.go:78-135 | From any rules on the host, in every interleaving of any number of calls, each command taking effect or not and reporting what it likes, the isolation rule is there exactly if the last command of the call that created the bridge has taken effect, or the host held more copies of it than that call's deletion removed; and the bridge exactly if it was there or the first command of a call has |
| BridgeCalls.RunKeeps | pkg/network/network.go:78-135 | However calls overlap, the host is as if the creating call had run alone up to some command |
| BridgeCalls.FinishedMeansIsolated | pkg/network/network.go:117-132 | From the moment that command has taken effect, whatever rules were there and however other calls go on, every guest-to-guest packet is dropped, over any trace, but for error reports on what the receiver has opened to the outside |
| BridgeCalls.FinishedReinstalls | pkg/network/network.go:84-134 | From then on the bridge is there, addressed and raised, its NAT rule is installed, and the chain is reinstalled |
| BridgeCalls.SuccessBeforeIsolation | pkg/network/network.go:80-82 | On a host that did not hold the rule, for every point of the creating call between its first and its last command, a run in which another call has returned success and tenants are not isolated |
| BridgeCalls.FailureWithIsolation | pkg/network/network.go:130-132 | A run in which the creating call reports failure although the isolation rule is in place |
| BridgeCalls.SetupWithdrawsIsolation | pkg/network/network.go:129-132 | On a host that held the rule once, a run in which the creating call deletes it and fails to append it, another call returns success, and the rule is gone |
| BridgeCalls.InterruptedSetupIsNotIsolated | pkg/network/network.go:80-82 | On a host that did not hold the rule, for every mandatory command after the first, a run in which the creating call fails there and another call returns success without the rule |
| BridgeCalls.NetworkManager.SetupBridge | pkg/network/network.go:78-135 | Beside any other calls: it returns early if the host can show a bridge that was there before; success means that the bridge is there, and, without the early return, that all mandatory commands worked and its own last command took effect; failure although they all work means that another call made the bridge; the rule is in place exactly as `BridgeCalls.IsolatedIffFinished` says |
| Orchestrator.Orchestrator.Boot | pkg/daemon/driver.go:176-207 | It succeeds exactly if the process can be spawned, one of twenty polls sees its socket (not a stale one), and all five requests are acknowledged, in order; otherwise a started process has been told to stop |
| Orchestrator.Orchestrator.StartProcess | pkg/firecracker/orchestrator.go:51-76 | It succeeds exactly if the process can be spawned and one of twenty polls sees its socket; a timeout stops the process, a failed start leaves none |
| Orchestrator.Orchestrator.Configure | pkg/firecracker/orchestrator.go:79-110 | The acknowledged requests are a prefix of the first three, all three exactly on success, which is when the host acknowledges them |
| Orchestrator.Orchestrator.ConfigureNetwork | pkg/firecracker/orchestrator.go:113-123 | The fourth is acknowledged exactly on success, which is when the host does so |
| Orchestrator.Orchestrator.StartVM | pkg/firecracker/orchestrator.go:126-134 | The fifth is acknowledged exactly on success, which is when the host does so |
| Orchestrator.Orchestrator.Stop | pkg/firecracker/orchestrator.go:137-160 | A started process is signalled and its socket removed; without one nothing happens; no process is promised to be gone |
| Slice.ExitIsBroadcast | pkg/kraft/launcher.go:85-135 | In every interleaving the channel closes at most once and only after the error is recorded, all `Wait` calls return that one error, and after a `Stop` returned no `Wait` blocks |
| Slice.KillsOnlyAfterTimeout | pkg/kraft/launcher.go:107-135 | In every run a `Stop` interrupts the process group first, kills it exactly if it timed out waiting for the exit, and sends nothing else; a `Wait` sends nothing |
| Slice.CallsTerminate | pkg/kraft/launcher.go:99-135 | While a `Wait` or `Stop` has not returned, an action that helps it is possible, for a `Stop` the exit of the process only after the kill; nine helping actions are enough |
| Slice.HelpAddsUp | pkg/kraft/launcher.go:85-135 | Over any run each helping action brings a call nearer to its return and no action takes it further |
| Kraftfile.KraftTargets.UnmarshalYAML | pkg/kraft/kraftfile.go:75-125 | Appends exactly the kept entries of the list, in order |
| Kraftfile.KraftTargets.ListTargetStrings | pkg/kraft/kraftfile.go:188-197 | Lists every target as it prints, in order |
| Kraftfile.KraftTargets.HasTarget | pkg/kraft/kraftfile.go:200-207 | True exactly if some target prints as the string |
| Kraftfile.ShorthandRoundTrip | pkg/kraft/kraftfile.go:75-139 | Parsing then listing keeps order, drops exactly the empty string and "/", and prints a survivor as itself unless it starts with a slash or is one name with a final slash |
| Kraftfile.DeclaredIsFound | pkg/kraft/kraftfile.go:200-207 | A declared string is found exactly if it prints as itself; the empty string exactly if some target starts with a slash |
| Kraftfile.SlashesAreLost | pkg/kraft/kraftfile.go:200-207 | `/x86_64` and `qemu/` are declared and not found |
| Kraftfile.TableRoundTrip | pkg/kraft/kraftfile.go:93-122 | A table is listed at its place in the order, whatever is declared around it: as "plat/arch" if it says both, else as its name, else as its platform, and not at all if it says nothing; "platform" and "architecture" count exactly if the short key gives no text |
| Kraftfile.TableIsFound | pkg/kraft/kraftfile.go:200-207 | A table that says both, under either key and with or without a name, is found |
| Kraftfile.KConfigIsText | pkg/kraft/kraftfile.go:109-116 | The kconfig of a table holds exactly its text entries |
| Kraftfile.OthersAreIgnored | pkg/kraft/kraftfile.go:117-119 | An entry that is neither a string nor a table declares nothing |
| Router.RouterIsExact | pkg/daemon/server.go:56-95 | Each handler is reached by exactly its own method and path with that id; other methods on known paths are refused, all other paths unknown |
| Router.ClientMeetsServer | pkg/runner/sandbox.go:81-135 | The client's get, delete and logs requests reach the matching handler with the same id exactly for non-empty ids without '/', '?', '#', '%' and control characters |
| Router.CreateMeetsServer | pkg/runner/sandbox.go:46-60 | The client's create request reaches the handler of creates |
| Router.TokenOpensServer | pkg/daemon/server.go:44-51 | A client is refused as unauthorized exactly if the server has a token and the client another |
| Router.IssuedIdsAreClean | pkg/daemon/server.go:107-107 | Every id the server issues is such an id |
| Text.SplitJoin | pkg/daemon/server.go:70-70 | Splitting is the inverse of joining parts that do not hold the separator |
| Text.DecimalInjective | pkg/daemon/server.go:107-107 | Different numbers print differently |

## Left out

- `QemuDriver.LaunchVM` in the interleavings: its `Stop` shreds and audits as the modelled one does but has no link to release, so the argument that at most one DELETE is answered 204 does not apply to it and several may be; its process side is `Slice`.
- The log buffer and the `Logs` closure: reading logs succeeds whenever the entry is registered, since that closure never fails.
- `GenerateMAC` and SHA-256: the hash is a parameter, and no collision freedom is claimed.
- JSON and YAML decoding, request and response bodies: a create's body either decodes or does not, and a Kraftfile's targets are given as decoded values. `Component.UnmarshalYAML`, the nil receiver and a target list that is not a list are not modelled.
- `ParseKraftfile` file discovery, the argument list of `kraft run`, `pkg/kraft/exec.go`, telemetry, configuration and the printing of audits: no hard logic.
- Clocks, durations and timeouts: every timeout is a free choice. The orchestrator's polling loop is bounded by its count.
- The mock network manager: it touches no link.
- Layer-2 bridging, and whether bridged frames reach iptables: host configuration.
- Orchestrator.Orchestrator.Stop: what a second call of `cmd.Wait` on the same process returns is not modelled, because its result is ignored.
- Daemon.Daemon.StopAll: its loop visits what was registered at the start; entries stored while it ranges may also be visited in the source, which the protocol's `SweepVisit` and `LifecycleTheorems.StopAllCovers` allow.
- Bridge setup inside the lifecycle protocol is one stage with one outcome; its commands and overlapping calls are in `BridgeCalls`.
- Bytes written to an overlay after it has lost its name: the file is no longer part of the state.
- A restart of the daemon: the counter starts at 0 again, and the links and overlays of the previous run are then leftovers of another program.
- CreateInstance of the client beyond its URL and its token, and base URLs with a path, a query or a fragment of their own.
