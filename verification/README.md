# Verification of the NIDAN core

NIDAN gives remote users a desktop in a virtual machine: a broker hands out machines, an agent in
the machine and a proxy on its host stream video and relay input, and a client shows the one and
sends the other. This project models the parts of it that carry state or arithmetic and proves what
they guarantee over every run. `dafny verify dfyconfig.toml` checks all of it.

## The parts

**VM pool.** `PoolState` holds the data and the effect of each await-free segment on it;
`PoolSystem` lets these segments interleave in any order (requests, the one refill task, clones that
succeed or fail, releases begun and ended, sweeps, health checks) under a clock. Over all such traces:
`PoolOwnership` (entries stay sound, a dynamic machine serves one session, a release touches only
its own machine), `PoolLedger` (the CID ledger is exact if and only if no release ends after its
entry is gone and its CID taken again; in particular when no sweep removes a machine under a
release), `PoolDoubleFree` (a run in which one CID ends up with two holders), `PoolQuota` (bounds by
the provisions under way at once, and the exact condition on a run under which `max_total` and
`max_per_user` themselves are kept), `PoolQuotaReached` (runs that reach both bounds, for every quota and
every number of provisions at once), `PoolWarm` (warm machines and the refill under way never exceed
`min_ready`). `OrphanSweep` adds the hypervisor and orphan sweeps to the interleaving and proves that a
machine that is in the pool or on its way there is selected by a sweep with grace only if its
provision took the grace period or longer; `OrphanTaken` says exactly which machines in use a sweep
without grace takes; `OrphanRuns` has a run of each kind; `OrphanCycles` says exactly when an
orphan is selected over repeated sweeps. `PoolAlone` says what each operation amounts to when nothing comes
between its steps. `VmPool` is the broker's mutable pool itself: classes whose
methods have the effects that the transition system uses.

**Forensic watermark.** `Crc` (linearity, parity, period of the CRC-8 register), `Residues` and
`MarkScatter` (when two bits of the mark meet), `MarkBits`, `Watermark` (the class that marks frames
in place and extracts marks) and `MarkRoundTrip`: the mark is read back from every frame with all
data if and only if the scatter's cycle is long enough and the reader is no stronger than the writer;
up to three damaged bytes never yield wrong data.

**Domain XML.** `DomainXml` (the find-and-replace loops over a string that changes length),
`CloneDisks` (extracting after rewriting gives the clones of the paths extracted before),
`DomainClone` (rename and removal of the uuid leave the paths alone, so the XML names the files the
volume cloner made; the broker's copy of the renaming agrees except where the host agent's panics),
`DomainVsock` (the CID set is the one read back; setting it twice, with the case in which devices are lost).

**Session recorder.** `Bytes`, `Vint` (element sizes of RFC 8794, sections 4 and 6), `Recorder` (the
class), `Playback` (a reader: read-back, seeking, and what the evidence chain does and does not
determine).

**Input sender.** `InputSender` (the sending loop), `InputReplay` (order, numbers, batches; replaying
what was sent gives the desktop on which the events were lived through; clicks land where they would have exactly when
none overtakes a held move).

**Rate limiter.** `RateLimiter` (the classes' methods), `AuthRuns` (every interleaving of
authentications, with evaluations in flight: verdicts are those of the full history; the bound on
evaluated failures; when the rate-limited answer exists at all).

**Control channel.** `StreamCipher` (nonces of section 2.8 of RFC 8439 unique over all calls exactly
when ciphers with one key have no direction in common), `ControlChannel` (framing, sending and
reading, round trips, frames that are too long).

**vsock.** `Rendezvous` (the channel of inputs per CID, stale senders), `FrameRouting` (the broadcast
and its filter: what a session gets, and what it skips), `Handshake` (agent and proxy over one connection).

## What the proofs show about the code

Some promises hold only under a condition, which is then proved exact or shown by a run.

- A stale sweep that removes a machine between the begin and the end of its own release lets its
  CID be freed twice, and two machines can then share a CID (`PoolDoubleFree.DoubleFree`).
- `max_total` and `max_per_user` are compared with the machines in the pool, before the awaits. They are
  kept exactly in the runs in which machines and provisions together are below them whenever a
  provision starts (`PoolQuota.TotalExact`, `PoolQuota.UserExact`); otherwise requests that overlap exceed
  them, one for one (`PoolQuotaReached.TotalReached`, `PoolQuotaReached.UserReached`).
- The sweep at boot grants no grace. It takes exactly the machines that were listed and on their way
  when it decided (`OrphanTaken.BootSweepExact`), so it is harmless when nothing is past its clone as it
  lists (`OrphanTaken.QuietListingHarmless`) and not otherwise (`OrphanRuns.BootSweepTakesClone`). A machine
  whose provision takes the grace period is taken by a sweep with grace too
  (`OrphanRuns.LateCloneTaken`).
- The mark overwrites itself on frames whose scatter has a short cycle, and is then lost for some
  data (`MarkRoundTrip.RecoversExactly`).
- Block sizes of 2^21 - 1 and more are written wrongly; 2^21 - 1 itself reads as an unknown size
  (`Vint.SizeReadBack`). The comment in the source says that the code is right below 2^21.
- After a failed write the recorder's index has an entry for the frame that is not there
  (`Recorder.SessionRecorder.RecordFrame`).
- The evidence chain hashes no lengths: one frame can stand for two (`Playback.MergedFramesUnnoticed`).
- A click received after a move in the same interval is sent before it (`InputReplay.ClickOvertakes`).
- Evaluations of one address that overlap add to the limit, one for one (`AuthRuns.BoundReached`).
- With `max_failures` 0 one failed evaluation is still let through (`AuthRuns.FailuresBounded`), and
  with a ban no shorter than the window the rate-limited answer does not exist
  (`AuthRuns.LimitedReachable`).
- A control frame over the bound is skipped by its length only, and its body is read as frames
  (`ControlChannel.LongBodyReadAsFrames`).
- A second setting of the CID over an unclosed vsock element deletes what stands between that element
  and the end of the devices (`DomainVsock.OpenElementSwallows`).
- Two disks of a template in one directory with one extension get one and the same clone file
  (`CloneDisks.ClonesDistinctExactly`).
- A path without a slash loses its first character, and an empty one panics
  (`CloneDisks.NoSlash`, `DomainXml.RewriteDiskPaths`).

## Assumptions

- A segment of code between two awaits is one atomic step, clocks do not go back, and the readings
  of one segment are one reading. In the pool, the hypervisor gives clones names and ids never used
  before, `mark_unhealthy` is not called, and refills come from the one task that `build` starts. Registration of a client and acceptance of an agent
  are atomic.
- Counters of 32 or 64 bits that only count (sessions served, frames marked, frames recorded, input
  numbers) do not run over; the nonce counter's limit, truncations to 8, 16 and 32 bits and the
  frame size in `u32` are modelled.
- A subscriber to the broadcast channel that is more than the capacity behind is moved on to the oldest
  frame kept, and told so; a subscriber sees only frames sent after it subscribed.
- Strings are sequences of characters; the patterns searched are ASCII, so positions in bytes and in
  characters correspond.

## Model

| member | source | states |
|---|---|---|
| VmPool.CidAllocator.Allocate | nidan-broker/src/pool/mod.rs:97-105 | gives the lowest CID of the range that is not in use and marks exactly that one, or none when all are |
| VmPool.CidAllocator.Release | nidan-broker/src/pool/mod.rs:108-110 | frees that CID and no other |
| VmPool.CidAllocator.Available | nidan-broker/src/pool/mod.rs:113-115 | free and used make up the range, where the subtraction is safe |
| VmPool.VmPool.constructor | nidan-broker/src/pool/mod.rs:154-219 | the declared machines, all available, and an unused allocator |
| VmPool.DeclaredLast | nidan-broker/src/pool/mod.rs:176-193 | every declared machine is there and no other, as the last declaration of its id says |
| VmPool.VmPool.FindAvailable | nidan-broker/src/pool/mod.rs:946-955 | an available machine with the tag that has served fewest sessions, or proof that there is none |
| VmPool.VmPool.FindWarmReady | nidan-broker/src/pool/mod.rs:422-430 | the machine that has been warm longest, or proof that there is none |
| VmPool.VmPool.AssignVm | nidan-broker/src/pool/mod.rs:223-256 | the preferred tag first, then any; the chosen entry is assigned and no other changes |
| VmPool.VmPool.BeginRequest | nidan-broker/src/pool/mod.rs:265-325 | the outcome that static machines, quotas, warm machines and free CIDs allow, in that order, and its effect |
| PoolState.OutcomeKinds | nidan-broker/src/pool/mod.rs:265-325 | which outcome it is, as an equivalence for each test in turn: a free static machine, the total, the user's share, a warm machine, a configuration, and a CID, the lowest free one |
| VmPool.VmPool.FinishProvision | nidan-broker/src/pool/mod.rs:335-397 | the new entry, or the CID given back |
| VmPool.VmPool.AssignOrProvision | nidan-broker/src/pool/mod.rs:265-397 | a whole request gets its session a machine of its own, from idle ones or new with an unused CID, or leaves everything as it was |
| VmPool.VmPool.ProvisionWarm | nidan-broker/src/pool/mod.rs:433-500 | a warm entry under the lowest free CID, or nothing changed and the reason |
| VmPool.VmPool.Replenish | nidan-broker/src/pool/mod.rs:503-535 | ends with enough warm machines, or the total reached, or a failed provision; adds idle warm machines only, each with a new CID of its own |
| VmPool.VmPool.Release | nidan-broker/src/pool/mod.rs:791-862 | with nothing else going on: a dynamic machine of this session goes with its CID, a static one is available again, anything else is left alone |
| VmPool.VmPool.DropStale | nidan-broker/src/pool/mod.rs:727-785 | exactly the dynamic entries absent from the listing go, with exactly their CIDs |
| VmPool.VmPool.DropExpired | nidan-broker/src/pool/mod.rs:885-915 | no assignment is left whose clock difference exceeds the limit in whole seconds, every other entry is untouched, expired statics are available and expired dynamic entries gone, and exactly their CIDs are freed |
| VmPool.ExpireMeans | nidan-broker/src/pool/mod.rs:885-915 | the same of the effect on the pool that the transition system shares |
| VmPool.VmPool.CleanupOrphans | nidan-broker/src/pool/mod.rs:576-691 | candidates and choices are those of the sweep that `OrphanCycles.SweepExact` describes |
| VmPool.VmPool.RecordHealth | nidan-broker/src/pool/mod.rs:974-997 | only available entries become unhealthy and only unhealthy ones available |
| PoolAlone.ReleaseAlone | nidan-broker/src/pool/mod.rs:791-862 | the two halves of a release with nothing between them are the release of the class |
| PoolAlone.RequestAlone | nidan-broker/src/pool/mod.rs:316-396 | reservation, clone and insertion with nothing between them leave one new entry in its first session with that CID |
| PoolAlone.RefillAlone | nidan-broker/src/pool/mod.rs:433-500 | the same for a refill, whose entry is warm and serves nobody |
| PoolAlone.GiveUpAlone | nidan-broker/src/pool/mod.rs:335-362 | a reservation given up leaves the pool as it was |
| PoolOwnership.SoundTrace | nidan-broker/src/pool/mod.rs:265-397 | in every state of every trace dynamic entries are warm and unserved or in their first session, and provisions and releases under way fit the entries |
| PoolOwnership.AssignedForGood | nidan-broker/src/pool/mod.rs:288-308 | a dynamic machine once assigned stays with that session until it is gone, and its name never comes back |
| PoolOwnership.ReleaseOnlyOwnVm | nidan-broker/src/pool/mod.rs:791-862 | whatever happens during its awaits, a release changes only the machine that its session owns |
| PoolLedger.ReleaseEndExact | nidan-broker/src/pool/mod.rs:841-850 | the end of a release keeps the ledger exactly when its machine is still there or its CID is in use by nobody |
| PoolLedger.LedgerExact | nidan-broker/src/pool/mod.rs:316-396 | over a whole trace: used CIDs are those of dynamic entries and provisions, one holder each, if and only if every release ends safely |
| PoolLedger.LedgerExclusive | nidan-broker/src/pool/mod.rs:727-785 | the ledger is exact in every state when nothing removes a machine under its release |
| PoolLedger.CidsInUse | nidan-broker/src/pool/mod.rs:316-396 | with an exact ledger, CIDs in use are as many as dynamic entries and provisions together |
| PoolLedger.NoUnderflow | nidan-broker/src/pool/mod.rs:113-115 | in every run CIDs in use are never more than the range, so that `available` cannot underflow |
| PoolLedger.InRangeTrace | nidan-broker/src/pool/mod.rs:97-105 | only CIDs of the configured range are ever in use |
| PoolDoubleFree.DoubleFree | nidan-broker/src/pool/mod.rs:758-776 | for every session limit, a trace of eight steps in which a stale sweep during the release of an expired session leaves the refill and a request with one CID |
| PoolQuota.QuotaBound | nidan-broker/src/pool/mod.rs:277-286 | dynamic machines and provisions never exceed the total less one plus the most provisions at once; likewise per user |
| PoolQuota.TotalExact | nidan-broker/src/pool/mod.rs:277-281 | over a whole trace the total is kept if and only if every provision starts while machines and provisions together are below it |
| PoolQuota.UserExact | nidan-broker/src/pool/mod.rs:282-286 | the same per user, warm machines given to the user included |
| PoolQuotaReached.TotalReached | nidan-broker/src/pool/mod.rs:277-397 | for every total and every number of requests at once, a trace reaches the bound |
| PoolQuotaReached.UserReached | nidan-broker/src/pool/mod.rs:277-397 | for every user quota and every number of that user's requests at once, a trace reaches the user's bound |
| PoolWarm.WarmBound | nidan-broker/src/pool/mod.rs:503-535 | in every state of every trace, warm machines and the refill under way are at most `min_ready` |
| PoolWarm.RequestBound | nidan-broker/src/pool/mod.rs:277-281 | dynamic machines and provisions never exceed the total plus the most requests provisioning at once |
| OrphanSweep.TrackedRun | nidan-broker/src/pool/mod.rs:582-650 | over all interleavings with sweeps, candidates, queues and the hypervisor's list stay true to the clone and insertion times |
| OrphanSweep.OrphanSafety | nidan-broker/src/pool/mod.rs:582-684 | a machine about to be deleted after its grace, yet in the pool or on its way, took the grace period or longer from clone to insertion |
| OrphanTaken.VisitedWasOnItsWay | nidan-broker/src/pool/mod.rs:582-614 | a machine in use that any sweep comes to was on its way both when it listed and when it decided, and may be deleted by its name |
| OrphanTaken.VisitTakes | nidan-broker/src/pool/mod.rs:640-650 | without grace every machine visited is selected |
| OrphanTaken.QuietListingHarmless | nidan-broker/src/pool/mod.rs:538-542 | a sweep that lists while no provision is past its clone comes to no machine in use |
| OrphanTaken.BootSweepExact | nidan-broker/src/pool/mod.rs:538-542 | of the machines in use when it ends, a sweep without grace has taken exactly those listed, deletable and on their way when it decided |
| OrphanRuns.BootSweepTakesClone | nidan-broker/src/pool/mod.rs:538-545 | for every grace period, a run in which the sweep without grace takes a machine being provisioned, whose start succeeds before the deletion |
| OrphanRuns.LateCloneTaken | nidan-broker/src/pool/mod.rs:632-650 | for every grace period, a run in which the sweep with grace takes a machine whose provision lasts just that long |
| OrphanCycles.VisitDecides | nidan-broker/src/pool/mod.rs:622-684 | a sweep chooses an orphan exactly when grace is skipped or over since its first sighting |
| OrphanCycles.SweepExact | nidan-broker/src/pool/mod.rs:582-684 | one sweep chooses exactly the listed, unprotected and unknown machines seen for the grace period, or all of them without grace, and remembers since when the others are seen |
| OrphanCycles.FirstSighting | nidan-broker/src/pool/mod.rs:632-636 | the first sighting survives all later cycles while the orphan does |
| OrphanCycles.OrphanDeletedWhenDue | nidan-broker/src/pool/mod.rs:632-650 | an orphan of every cycle is chosen by exactly those cycles that come the grace period or more after the first |
| Crc.Crc8 | nidan-audit/src/watermark/mod.rs:194-207 | the byte and bit loops compute the register specified |
| Crc.CheckValue | nidan-audit/src/watermark/mod.rs:194-207 | the check value of the CRC with polynomial 0x07 over the digits 1 to 9 is 0xF4 |
| Crc.RegisterLinear | nidan-audit/src/watermark/mod.rs:194-207 | the CRC of an exclusive or is the exclusive or of the CRCs |
| Crc.RegisterParity | nidan-audit/src/watermark/mod.rs:194-207 | the CRC has the parity of the data, of any length |
| Crc.OddFlipsDetected | nidan-audit/src/watermark/mod.rs:141-145 | any odd number of flipped bits in data or CRC is noticed, at any length |
| Crc.Period | nidan-audit/src/watermark/mod.rs:198-204 | the register started at 1 is 1 again after 127 shifts and not before |
| Crc.PairDetected | nidan-audit/src/watermark/mod.rs:141-145 | any two flipped bits are noticed up to 15 bytes |
| Crc.PairMissed | nidan-audit/src/watermark/mod.rs:194-207 | from 16 bytes on, some two flipped bits are not |
| Crc.SmallCorruptionDetected | nidan-audit/src/watermark/mod.rs:141-145 | one, two or three flipped bits of the 104 are always noticed |
| Crc.FourFlipsMissed | nidan-audit/src/watermark/mod.rs:141-145 | four can go unnoticed |
| Residues.TermsMeet | nidan-audit/src/watermark/mod.rs:185-190 | two terms of a multiplicative scatter fall together exactly when their ranks differ by a multiple of the modulus over the greatest common divisor |
| MarkScatter.PixelsDistinctExactly | nidan-audit/src/watermark/mod.rs:182-191 | the 104 pixels are all different exactly when the zone over its greatest common divisor with the multiplier is at least 104 |
| MarkScatter.ScatteredExactly | nidan-audit/src/watermark/mod.rs:91-104 | no byte carries two bits exactly when that number is at least 104, or 52 if odd |
| MarkScatter.FullHd | nidan-audit/src/watermark/mod.rs:182-191 | on 1920 by 1080 the cycle is 172800 and no byte is shared |
| MarkScatter.FullHdTargets | nidan-audit/src/watermark/mod.rs:182-191 | the bytes of the first three bits on such a frame, blue and red in turn |
| Watermark.Watermarker.constructor | nidan-audit/src/watermark/mod.rs:45-63 | strength is clamped to 1..4 |
| Watermark.Watermarker.BuildPayload | nidan-audit/src/watermark/mod.rs:160-173 | session, elapsed seconds in 32 bits and their CRC |
| Watermark.ElapsedMeans | nidan-audit/src/watermark/mod.rs:161-165 | the seconds passed while they fit 32 bits, wrapped after that, none if the clock is before the start |
| Watermark.Watermarker.MarkFrame | nidan-audit/src/watermark/mod.rs:71-111 | the frame becomes the marked frame in place and the count is that of the changing writes; a frame too short is left as it is |
| Watermark.Watermarker.ExtractMark | nidan-audit/src/watermark/mod.rs:114-155 | what the extraction specified gives, none for a short frame or a wrong CRC |
| MarkRoundTrip.MarkSpares | nidan-audit/src/watermark/mod.rs:97-104 | green and alpha bytes and those beyond the zone never change, others only under the mask |
| MarkRoundTrip.GatheredHas | nidan-audit/src/watermark/mod.rs:126-139 | the gathered payload has exactly the bits read |
| MarkRoundTrip.PayloadLayout | nidan-audit/src/watermark/mod.rs:160-173 | eight bytes of session, four of seconds, and the CRC of these twelve |
| MarkRoundTrip.LeLayout | nidan-audit/src/watermark/mod.rs:160-173 | the seconds are written with the low byte first |
| MarkRoundTrip.ShortFrameRefused | nidan-audit/src/watermark/mod.rs:133 | a frame that ends within a pixel of the mark yields nothing |
| MarkRoundTrip.RoundTrip | nidan-audit/src/watermark/mod.rs:71-155 | with no byte shared, any frame gives back exactly the session and seconds it was marked with, for readers no stronger than the writer |
| MarkRoundTrip.RecoversExactly | nidan-audit/src/watermark/mod.rs:71-155 | the mark is recovered from all frames with all data if and only if the cycle is long enough and the reader no stronger than the writer |
| MarkRoundTrip.DamageDetected | nidan-audit/src/watermark/mod.rs:141-145 | three bytes of a marked frame changed in any way give the right data or none |
| MarkRoundTrip.ChangesCount | nidan-audit/src/watermark/mod.rs:84-106 | the count returned is at least the bytes changed, and exactly that when no byte is shared |
| DomainXml.FindPath | nidan-host-agent/src/libvirt_ops.rs:326-328 | the search of both loops, for the opening and then the closing quote, finds the next path or that there is none |
| DomainXml.ExtractQuoted | nidan-host-agent/src/libvirt_ops.rs:324-332 | the scanning loop gives the paths in one kind of quote and ends |
| DomainXml.ExtractDiskPaths | nidan-host-agent/src/libvirt_ops.rs:321-335 | single-quoted paths, then double-quoted ones |
| CloneDisks.DiskFound | nidan-host-agent/src/libvirt_ops.rs:321-335 | the text between the quotes of the first source element is the first path, and the rest is searched after it |
| DomainXml.RewriteQuoted | nidan-host-agent/src/libvirt_ops.rs:351-362 | the replacing loop, over a text that may grow, gives the text with each path's clone, or panics at an empty path |
| DomainXml.RewriteDiskPaths | nidan-host-agent/src/libvirt_ops.rs:348-365 | both kinds of quote, one after the other |
| CloneDisks.SameQuote | nidan-host-agent/src/libvirt_ops.rs:348-365 | in one kind of quote, paths after rewriting are the clones of those before |
| CloneDisks.OtherQuote | nidan-host-agent/src/libvirt_ops.rs:348-365 | rewriting in one kind of quote leaves the paths in the other |
| CloneDisks.RewriteThenExtract | nidan-host-agent/src/libvirt_ops.rs:321-365 | extracting from the rewritten text gives the clone of every path extracted before, in order; it panics exactly when some path is empty |
| CloneDisks.OutsideUnchanged | nidan-host-agent/src/libvirt_ops.rs:348-365 | all text outside the paths stays, in place |
| CloneDisks.CloneShape | nidan-host-agent/src/libvirt_ops.rs:337-346 | dir/base.ext becomes dir/name.ext, the extension from the last dot on |
| CloneDisks.NoSlash | nidan-host-agent/src/libvirt_ops.rs:337-346 | without a slash the first character is lost |
| CloneDisks.ClonesCollideExactly | nidan-host-agent/src/libvirt_ops.rs:276-278 | the clones of two disks are one file exactly when directory and extension are the same |
| CloneDisks.ClonesDistinctExactly | nidan-host-agent/src/libvirt_ops.rs:276-278 | a template's clones are all different exactly when no two of its disks share both |
| DomainClone.RewriteDomainXml | nidan-host-agent/src/libvirt_ops.rs:248-270 | name replaced, uuid and its newline removed, disks rewritten; error without a name, panic on a name's tags out of order or an empty path |
| DomainClone.NameReplaced | nidan-host-agent/src/libvirt_ops.rs:251-256 | the text of the first name element becomes the new name and nothing else changes |
| DomainClone.UuidGone | nidan-host-agent/src/libvirt_ops.rs:258-265 | the first uuid element goes with the line end after it and nothing else changes |
| DomainClone.CloneTargets | nidan-host-agent/src/libvirt_ops.rs:276-278 | the files that the volume cloner makes |
| DomainClone.RenameKeepsPaths | nidan-host-agent/src/libvirt_ops.rs:251-256 | renaming leaves the disk paths |
| DomainClone.UuidKeepsPaths | nidan-host-agent/src/libvirt_ops.rs:258-265 | removing the uuid leaves the disk paths |
| DomainClone.CloneAgrees | nidan-host-agent/src/libvirt_ops.rs:160-164 | the disks in the clone's XML are exactly the files made from the template's XML, in order |
| DomainClone.CopiesAgree | nidan-broker/src/provider/libvirt.rs:351-361 | the broker's copy of the renaming gives the same as the host agent's exactly where that does not panic, and never panics |
| DomainVsock.SetVsockInXml | nidan-host-agent/src/libvirt_ops.rs:302-319 | replaces the first element or inserts one before the end of the devices; fails without devices |
| DomainVsock.CidReadBack | nidan-host-agent/src/libvirt_ops.rs:302-319 | read with a decimal reader, the address in the first vsock element of the result is the CID asked for, unless an open element stands before it |
| DomainVsock.CidsTellApart | nidan-host-agent/src/libvirt_ops.rs:302-319 | so different CIDs give different texts |
| DomainVsock.LastCidWins | nidan-host-agent/src/libvirt_ops.rs:302-319 | around the element stands the text of before, without its first vsock element if it had one; a second setting replaces the first and changes nothing else but its indentation |
| DomainVsock.OpenElementSwallows | nidan-host-agent/src/libvirt_ops.rs:308-316 | in all remaining cases it deletes the text from the open element to the place of insertion |
| Vint.SizeReadBack | nidan-audit/src/recording/mod.rs:286-298 | a reader gets the size that was written exactly below 2^21 - 1 |
| Recorder.SessionRecorder.constructor | nidan-audit/src/recording/mod.rs:88-124 | starts after the header with nothing recorded |
| Recorder.SessionRecorder.RecordFrame | nidan-audit/src/recording/mod.rs:127-169 | output, offset, index, count and chain are those of one frame more; after a failed write exactly the index and the bytes written differ |
| Recorder.SessionRecorder.Finalize | nidan-audit/src/recording/mod.rs:172-190 | the file is header, blocks, index and tags, and the chain that of all frames |
| Recorder.MakeSimpleBlock | nidan-audit/src/recording/mod.rs:264-305 | the block of a frame |
| Recorder.MakeCues | nidan-audit/src/recording/mod.rs:308-325 | the index element of all entries |
| Playback.BlockReadBack | nidan-audit/src/recording/mod.rs:264-305 | a block is read back, its time in 16 bits, exactly when its size is below 2^21 - 1 |
| Playback.RecordingReadBack | nidan-audit/src/recording/mod.rs:127-190 | a finished file gives every frame and every index entry in order |
| Playback.IndexExact | nidan-audit/src/recording/mod.rs:131-140 | entries are exactly those of keyframes and of the first 40 ms of a second, each with its frame's offset |
| Playback.KeyframesIndexed | nidan-audit/src/recording/mod.rs:131-140 | every keyframe is in the index at its offset |
| Playback.OffsetsIncrease | nidan-audit/src/recording/mod.rs:133-138 | offsets strictly increase and stay inside the blocks |
| Playback.SeekFindsFrame | nidan-audit/src/recording/mod.rs:133-157 | reading at an indexed offset gives that entry's frame |
| Playback.ChainDetermines | nidan-audit/src/recording/mod.rs:152-155 | among recordings with the same data lengths, the hashed bytes are equal exactly when all numbers and data are |
| Playback.MergedFramesUnnoticed | nidan-audit/src/recording/mod.rs:152-155 | across lengths they are not: two frames hash as one |
| InputSending.InputSender.Start | nidan-client/src/input/mod.rs:144-208 | the loop sends what the run of its signals sends and leaves its next number |
| InputSending.ToProto | nidan-client/src/input/mod.rs:57-124 | every event but the clipboard's gets the number given, and only moves are moves |
| InputReplay.ProtoMeans | nidan-client/src/input/mod.rs:57-124 | the event can be read off its message by the kinds of the protocol, with the code of the agent's buttons |
| InputReplay.NonMovesInOrder | nidan-client/src/input/mod.rs:157-203 | over every run all events but moves are sent, lost with the last batch or pending, once each and in order |
| InputReplay.NumbersUsedOnce | nidan-client/src/input/mod.rs:165-171 | no number is used twice and every event sent was received under it |
| InputReplay.BatchesProper | nidan-client/src/input/mod.rs:174-201 | no batch is empty, and a move is its last event |
| InputReplay.BatchesBounded | nidan-client/src/input/mod.rs:173-201 | over every run, only ticks and keys send, at most one batch each, and never more than the channel takes |
| InputReplay.FlushKeepsAll | nidan-client/src/input/mod.rs:190-201 | a flush adds, drops and reorders nothing |
| InputReplay.ReplayAgrees | nidan-agent/src/remote_desktop.rs:247-314 | over every run, replaying what was sent and is held gives the desktop of the plain stream of messages |
| InputReplay.RunLives | nidan-agent/src/remote_desktop.rs:247-314 | that desktop is the one on which the events themselves were lived through: downs press, ups release, moves set the pointer, scrolls count |
| InputReplay.FlushSettles | nidan-client/src/input/mod.rs:173-201 | after a tick or a key that the channel takes, nothing is pending, held or lost |
| InputReplay.FlushedAgrees | nidan-client/src/input/mod.rs:173-201 | whenever nothing is, the batches alone replay to the desktop of the plain stream of messages |
| InputReplay.SettledLives | nidan-client/src/input/mod.rs:173-201 | the batches alone replay to the desktop on which every event signalled was lived through as it came |
| InputReplay.AimsExactly | nidan-client/src/input/mod.rs:165-179 | clicks and scrolls find the pointer of the plain stream exactly when none arrives while a move elsewhere is held |
| InputReplay.ClickOvertakes | nidan-client/src/input/mod.rs:165-179 | a move and then a click is such a case |
| RateLimiting.RateLimiter.Prune | nidan-broker/src/auth/ratelimit.rs:26-29 | keeps exactly the times after the cutoff, in order |
| RateLimiting.RateLimiter.IsBanned | nidan-broker/src/auth/ratelimit.rs:56-65 | banned while the end of the ban is ahead |
| RateLimiting.RateLimiter.IsRateLimited | nidan-broker/src/auth/ratelimit.rs:68-74 | counts the window and prunes that address only |
| RateLimiting.RateLimiter.RecordFailure | nidan-broker/src/auth/ratelimit.rs:77-92 | the failure is counted and a ban set at the limit, for that address only |
| RateLimiting.RateLimiter.RecordSuccess | nidan-broker/src/auth/ratelimit.rs:95-97 | that address is forgotten |
| RateLimiting.RateLimiter.Begin | nidan-broker/src/auth/mod.rs:159-167 | ban, then limit, which counts as a failure, then admission |
| RateLimiting.RateLimiter.End | nidan-broker/src/auth/mod.rs:186-208 | success forgets, failure counts, a request for a second factor does neither |
| AuthRuns.RunAgrees | nidan-broker/src/auth/ratelimit.rs:26-97 | over every interleaving the pruned entry serves every later window as the full history since the last success would |
| AuthRuns.VerdictFromHistory | nidan-broker/src/auth/mod.rs:159-167 | the next verdict is the one the full history gives |
| AuthRuns.FailuresBounded | nidan-broker/src/auth/mod.rs:159-203 | in any stretch of the window's length, evaluated failures since the last success are at most the limit less one plus the evaluations at once |
| AuthRuns.BoundReached | nidan-broker/src/auth/mod.rs:159-203 | for any number at once some run reaches that bound |
| AuthRuns.LimitedReachable | nidan-broker/src/auth/mod.rs:163-167 | the rate-limited answer can happen if and only if bans are shorter than the window or the limit is zero |
| StreamCiphers.NonceInjective | nidan-common/src/crypto.rs:179-193 | counter and direction can be read off a nonce |
| StreamCiphers.NonceSays | nidan-common/src/crypto.rs:179-193 | the first eight bytes read back as the counter, low byte first, the ninth is the direction and the rest are zero |
| StreamCiphers.StreamCipher.EncryptDir | nidan-common/src/crypto.rs:199-215 | seals under a nonce that says the old counter and the direction, and counts, or fails and does not |
| StreamCiphers.StreamCipher.Encrypt | nidan-common/src/crypto.rs:218-233 | the same with direction 0 |
| StreamCiphers.StreamCipher.DuplicateFresh | nidan-common/src/crypto.rs:170-175 | the same key with a counter of its own from 0 |
| StreamCiphers.StreamCipher.Decrypt | nidan-common/src/crypto.rs:236-248 | opens with nonces of 12 bytes only |
| StreamCiphers.NoncesUniqueExactly | nidan-common/src/crypto.rs:165-233 | over all calls folded through the operation, failures and saturation included, and for every cipher, the nonces returned under one key are all different if and only if ciphers with one key have no direction in common |
| StreamCiphers.SessionSeparated | nidan-proxy-encoder/src/stream/mod.rs:669-673 | the client's control cipher, the server's duplicate and the video cipher have none |
| StreamCiphers.SaturatedFails | nidan-common/src/crypto.rs:210-213 | at the last counter value every call fails |
| ControlChannel.FrameControlMessage | nidan-client/src/stream/mod.rs:629-654 | the frame of a message, clear or sealed, and the counter after it |
| ControlChannel.LengthLayout | nidan-client/src/stream/mod.rs:612-625 | a frame is its length in four bytes, the high one first, and its body |
| ControlChannel.FrameLayout | nidan-client/src/stream/mod.rs:629-654 | the body is the kind, the flag, and the payload in clear or the nonce of the counter and the sealed payload |
| ControlChannel.SendAll | nidan-client/src/stream/mod.rs:247-255 | the opening frame in clear and then all messages, on the wire in order |
| ControlChannel.ReadControl | nidan-proxy-encoder/src/stream/mod.rs:709-739 | the reading loop gives the messages specified and ends |
| ControlChannel.ControlRoundTrip | nidan-client/src/stream/mod.rs:612-654 | what was sent is read, in order, when every frame fits |
| ControlChannel.ClientToServer | nidan-proxy-encoder/src/stream/mod.rs:709-739 | with the server's bound of 65536 bytes |
| ControlChannel.ServerToClient | nidan-client/src/stream/mod.rs:581-593 | with the client's bound of 1100000 bytes |
| ControlChannel.AllSent | nidan-common/src/crypto.rs:199-215 | every message is sent if sealing works and the counter lasts |
| ControlChannel.ClearExactly | nidan-proxy-encoder/src/stream/mod.rs:714-716 | in clear, a list comes through if and only if each message fits |
| ControlChannel.ServerExactly | nidan-proxy-encoder/src/stream/mod.rs:714-716 | for the server the payloads that fit are those of at most 65534 bytes |
| ControlChannel.ClientExactly | nidan-client/src/stream/mod.rs:581-593 | for the client those of at most 1099998 bytes |
| ControlChannel.OneByteFrame | nidan-client/src/stream/mod.rs:581-593 | a frame of one byte is skipped whole by the server, and by the client up to its byte, which then counts as the next frame's |
| ControlChannel.LongBodyReadAsFrames | nidan-proxy-encoder/src/stream/mod.rs:714-716 | the body of a longer one is read as frames |
| Rendezvous.VsockService.RegisterInputForCid | nidan-proxy-encoder/src/capture/vsock_service.rs:308-321 | the stored sender, or a new channel with both ends stored |
| Rendezvous.VsockService.GetInputTxForCid | nidan-proxy-encoder/src/capture/vsock_service.rs:324-326 | the stored sender, nothing created |
| Rendezvous.VsockService.AcceptAgent | nidan-proxy-encoder/src/capture/vsock.rs:234-248 | the stored receiver taken, or a new channel whose sender replaces the stored one |
| Rendezvous.RendezvousHolds | nidan-proxy-encoder/src/capture/vsock.rs:503-533 | over all orders: stored ends pair, a channel has one CID and one reader ever, the stored sender is the latest agent's, and a reader relays a first part of what was taken, in order, once each |
| Rendezvous.InputsStayWithCid | nidan-proxy-encoder/src/capture/vsock_service.rs:308-326 | a client and an agent on one channel have one CID |
| Rendezvous.SentIsRelayed | nidan-proxy-encoder/src/capture/vsock.rs:503-533 | what a client sends on an open channel read up to date is what its agent relays next, and no other channel is touched |
| Rendezvous.FindsLatestAgent | nidan-proxy-encoder/src/capture/vsock_service.rs:308-326 | after every run a client that registers or looks up holds the channel of the latest agent of its CID |
| Rendezvous.AgentFindsClient | nidan-proxy-encoder/src/capture/vsock.rs:234-248 | the first agent to come after a client registered reads that client's channel |
| Rendezvous.StaleExactly | nidan-proxy-encoder/src/capture/vsock.rs:239-247 | a sender stays the stored one exactly until an agent comes to no stored receiver |
| FrameRouting.Adapt | nidan-proxy-encoder/src/capture/vsock_service.rs:375-414 | the adapter passes on what the run of its events gives |
| FrameRouting.RoutingHolds | nidan-proxy-encoder/src/capture/vsock_service.rs:381-402 | what it passes on is in order, without duplicates and of its agent if it asked for one, and every frame before the cursor was passed on exactly if it was not skipped and is of that agent |
| FrameRouting.OnlyItsAgent | nidan-proxy-encoder/src/capture/vsock_service.rs:385-389 | a session with a CID gets that agent's frames only |
| FrameRouting.SkipsExactly | nidan-proxy-encoder/src/capture/vsock_service.rs:394-402 | frames are skipped exactly when a poll finds the subscriber more than the capacity behind |
| FrameRouting.LagLosesOldest | nidan-proxy-encoder/src/capture/vsock_service.rs:394-402 | such a poll moves on to the last eight frames, passes on nothing and skips exactly those before |
| FrameRouting.SkippedAreOld | nidan-proxy-encoder/src/capture/vsock_service.rs:394-402 | in every run, a frame skipped had at least eight newer ones after it |
| FrameRouting.KeepingUpGetsAll | nidan-proxy-encoder/src/capture/vsock_service.rs:171-198 | one that keeps up has got exactly its agent's frames among those since it subscribed and before its cursor, in order, or all of them without a CID |
| FrameRouting.CaughtUp | nidan-proxy-encoder/src/capture/vsock_service.rs:375-414 | once it has caught up, that is everything announced since it subscribed, its agent's or everybody's |
| Handshake.HandshakeHolds | nidan-agent/src/vsock_link.rs:62-102 | in every interleaving neither side meets a message out of order; both wires keep their grammar; frames and inputs come out as read, the first frame and no other a keyframe |
| Handshake.FramesAsAsked | nidan-proxy-encoder/src/capture/vsock.rs:330-361 | every frame sent has the format the proxy asked for, after the agent read the request |
| Handshake.AsksFirstOffer | nidan-proxy-encoder/src/capture/vsock.rs:330-361 | in every run the proxy greets, then asks for the first format offered if it knows it and for BGRA otherwise |

## Left out

- Transport, TLS, X.509, vsock sockets and shared-memory capture: library plumbing.
- libvirt, Proxmox and qemu-img: their answers are parameters or steps that may succeed or fail.
- Real cryptography (X25519, HKDF, ChaCha20-Poly1305, SHA-256, HMAC, JWT): the session hash is a
  parameter, sealing is abstract with an inverse law, the evidence chain is the bytes hashed.
- JSON, protobuf and TOML: payloads are opaque, domain XML is text; timestamps in input events.
- Hosts, ports, dates added, last health checks, metrics and logging of the pool: no branch reads
  them. The fallback names `dyn-N` and `warm-N` fall under the assumption of fresh names.
- `list_vms` in a stale sweep may be older than a clone just inserted, which the sweep then drops:
  in the transition system a listing is any set, so the ledger's theorems cover it; that the machine is
  lost to its session is not stated.
- OrphanSweep.OrphanSafety: speaks of sweeps that grant the grace period; the one at boot is the
  subject of `OrphanTaken.BootSweepExact`.
- OrphanTaken.BootSweepExact: a deletion that fails counts as taken; the sweep has gone through its list.
- VmPool.VmPool.Release: describes a release with nothing else going on; its interleavings are in
  `PoolSystem` as two steps. The same goes for `VmPool.VmPool.DropExpired`, `VmPool.VmPool.Replenish` and
  `VmPool.VmPool.AssignOrProvision`.
- PoolLedger.LedgerExact: releases are driven by the expiry sweep, whose failing deletions are not
  told apart from successful ones: either way the broker goes on to free the CID.
- Watermark.Watermarker.MarkFrame: asks for a frame of at least four pixels whose size fits 32
  bits, or one too short to be marked; the source divides by zero or overflows elsewhere. The bounds
  check on each pixel, which cannot fail after the length check, is left out.
- DomainClone.CloneAgrees: asks that paths contain no angle bracket and that the name and uuid
  elements hold text only and stand outside other tags, as in XML that libvirt writes.
- ControlChannel.ControlRoundTrip: frames over the bound are treated in clear
  (`ControlChannel.ClearExactly`); for sealed ones only that fitting frames come through.
- FrameRouting.Adapt: a session that closes its end is a cancellation; the back-pressure of its own
  queue is a pause between polls.
- The broker's copies of the disk path loops and of the vsock element are the host agent's line for line
  and are not modelled twice; only their renaming differs (`DomainClone.CopiesAgree`).
- Rendezvous.RendezvousHolds: the relay's failing write is a batch taken by the reader; the shared
  sender that serves sessions without a CID is not modelled (no session reads its receiver).
- Handshake.HandshakeHolds: messages arrive whole; the length prefix and the 32 MiB bound of the vsock
  framing are not modelled, nor are reconnections, which start a new run.
- AuthRuns.FailuresBounded: addresses are numbers, and evaluations (mTLS, Kerberos, OIDC, SAML) are
  answers.
- Codecs, capture backends, portals, rendering, scaling, scancode tables, clipboard policy, admin
  API, session registry, configuration defaults and the copies of this code in `nidan-server`: easy,
  foreign or repeated.
