# IP pool failover: a verified model

IP Pool Monitor keeps a table of hosts, watches their heartbeats, elects one
leader by priority, runs a connect command on it, points a DNS name at it and
commits it as the leader. This project models that control loop and the parts
around it in Dafny and proves what it does in every cycle and over every run.

Check it with `dafny verify dfyconfig.toml`.

## How the model is built

- `Models` holds the tables (`Db`) and the `Effect` datatype. Whatever a cycle
  does (state changes, audit events, commands, DNS calls, leader writes,
  notifications) is one effect in a trace; `Replay` says what a trace does to the
  tables. `Storage.Store` is the mutable database.
- `Cycles` says what one cycle does, as functions of the world it starts from
  (`World`: tables, streak maps, breaker) and of everything it learns from
  outside (`Env`: heartbeats, exit codes, DNS outcomes, and the order in which
  the unstable `sort.Slice` leaves equal priorities). `Pollers.Poller.RunOnce`
  and its parts (`StateMachines`, `Elections`, `Circuits`) do the same step by
  step on mutable objects and are proved equal to it.
- `CheckPhase`, `Failover`, `CycleTheorems`, `TraceSafety`, `Connects`, `CommitDns`
  and `AuditTrail` prove what holds of every cycle, and `Heartbeats` what becomes of
  a host by the heartbeats it sends; `Runs`, `Histories`, `Flapping` and `FlapSharpness`
  what holds of every run, in which cycles interleave with host, pool and rule
  handlers, operator overrides, restarts, and crashes inside a cycle.
  `Convergence` and `Thrashing` follow two kinds of run in detail, and `Witnesses`
  holds inputs on which a cycle or a run disappoints.
- `DdnsRules` and `DdnsNames` treat the DDNS rules: normalising, masking, and the
  name each leader gets. `Handlers` and `PoolLeaders` treat hosts and pools.
- `RandomStrings`, `ShellQuoting` and `Templates` treat three small algorithms;
  `Notices` applies the last one to the notifications the program sends.

## Assumptions

Cycles and handlers are atomic, except that a crash can end a cycle after any of its
effects, and where a property speaks of the steps inside a cycle. Database calls
succeed. Host ids are positive and distinct and are never given out twice. Every host
is Ready, Full or Dead. A notifier is configured. The random source fills its buffer
or fails. An address that `net.ParseIP` accepts holds a dot or a colon, and besides
these only hexadecimal digits.

## Where the code and its documentation differ

- The repository's README says that hosts are probed over TCP and die after two
  failed checks. The poller reads heartbeats only and needs three failed
  snapshots (engine/poller.go:21-24); the model follows the code.
- A Dead host that recovers over its traffic threshold is asked to become Full
  (engine/statemachine.go:139), which the matrix does not allow
  (engine/statemachine.go:23). The request is refused and the host stays Dead.
- After three failed attempts nobody asks the breaker again. `BreakerAfterCycle`
  says in advance exactly when a cycle leaves it wrong, and `BreakerMisses` is such
  a cycle.
- With no host in the table the breaker is closed, but every cycle notifies
  circuit_open (engine/poller.go:238-242), as `CircuitNotices` says.
- A restart, or a crash inside a cycle, forgets that the breaker was open without a
  word in the audit log, so that circuit_open can follow circuit_open there.
  `CircuitHistory` says exactly when the events of a run alternate, and
  `RestartRepeatsOpen` is a run in which they do not.
- The leader is committed by separate writes (engine/poller.go:414-416). At most one
  host is flagged in any case, but a crash between flagging a host and storing it
  leaves the flag on another host than the stored leader (`CrashAgrees` says exactly
  when, `TornCommit` is one such crash), until a cycle commits a host again
  (`FlagsAfterCycle`).
- A cycle can disconnect the leader only to commit it again. `RecommitsExactly` says
  when: someone else is elected first, and the first host of the walk that connects
  is the stored leader. A host of least priority that keeps its heartbeats but cannot
  be connected makes every cycle do so, as often as there are cycles
  (`RunThrashes`; `DuoNeverSettles` is such a pool).
- Two hosts may share the least priority, in different pools. Then even under the
  best conditions the leader need not come to rest: `ConvergesExactly` says that a
  pool settles for good exactly when one host has the least priority.
- A pool name submitted with surrounding space is looked up trimmed but stored as
  it is (api/hosts.go:196-217, api/hosts.go:290-295), and a blank one is stored by
  an update without being looked up. `CreateHostKeeps` and `UpdateHostKeeps` say
  exactly when that leaves a host without a registered pool; `CreateHostBreaks`,
  `UpdateHostBreaks` and `StartupMisses` are inputs that do.
- An automatic priority is computed from the hosts of the trimmed pool name
  (api/hosts.go:522) and stored under the name as it was submitted. With an untrimmed
  name it therefore collides as soon as that name holds the next priority
  (`PaddedPriorityCollides`); with a trimmed one only when the 64-bit increment wraps
  around onto a priority in use (`WrappedPriorityCollides`). `AutoPriorityFree` says
  exactly when, for every name.
- A zero value in an update means "keep", so that a threshold or a command once set
  cannot be cleared by an update. `UpdateUndone` says exactly which updates another
  one can undo.

A value that spells a placeholder would be replaced again by the template renderer;
`InertIsExact` says exactly which texts one replacement leaves alone. This concerns
the renderer by itself (`ValueReplacedAgain`): no notification the program sends
carries such a value, and `NoticeRenders` shows that all of them fill any template
in one pass.

## Model

| member | source | states |
|---|---|---|
| StateMachines.CheckOutcome | engine/statemachine.go:108-142 | The request, filtered by the matrix, comes to this: no contact kills, both numbers within the threshold is Ready, either over it is Full, except that a Dead host stays Dead; one audit event exactly when the state changes |
| StateMachines.StateMachine.Transition | engine/statemachine.go:51-92 | Writes and logs the transition exactly when the row exists, the state differs and the matrix allows it; reports failure for a missing row or a refused transition |
| StateMachines.StateMachine.ApplyCheckResult | engine/statemachine.go:108-142 | Asks by the caller's snapshot and is judged by the row as it is now; with a current snapshot it fails exactly for a Dead host that is in contact again and has more inbound or more outbound traffic than its threshold |
| Elections.ElectionOf | engine/election.go:21-64 | No leader exactly when no host is Ready; otherwise a Ready host of least priority, changed exactly when it is not the current leader, with the current leader's row as the previous one |
| Elections.SortSliceSorts | engine/election.go:33-35 | Sorting orders the Ready hosts by priority and keeps each of them, as a multiset |
| Elections.AnyBestReadyCanWin | engine/election.go:33-37 | Equal priorities are left open: every Ready host of least priority wins under some order of equals |
| Elections.Elect | engine/election.go:21-64 | The collecting, sorting and searching loops compute that election and log it when the leader changes |
| Elections.FindPrevious | engine/election.go:39-45 | The search loop returns the row with the current leader's id, or none exactly if there is none |
| Circuits.OpenIsNoLeader | engine/circuit.go:18-56 | The breaker's condition is: there are hosts and no election would return a leader |
| Circuits.CircuitBreaker.Check | engine/circuit.go:18-56 | Leaves the breaker open exactly under that condition, reports a flip exactly when there was one, and logs each flip once |
| Pollers.Poller.constructor | engine/poller.go:54-68 | A new poller has empty streak maps |
| Pollers.Poller.CountHost | engine/poller.go:134-196 | One snapshot updates exactly one host's two streaks: a recent heartbeat that reports both network and SSH up adds one to the successes and ends the failures, anything else the other way round; then the hysteresis is applied |
| Pollers.Poller.TakeSnapshots | engine/poller.go:133-202 | The loop over hosts gives each host its own result, counts each once, and writes exactly the check trace, though rows change while it runs |
| Pollers.Poller.Reachability | engine/poller.go:227-230 | The map holds exactly the checked ids, each with its own host's result |
| Pollers.Poller.CheckHosts | engine/poller.go:133-230 | The loop over hosts writes each host's own check result, counts every host once, and marks as reachable exactly the hosts that passed |
| Pollers.Poller.CheckBreaker | engine/poller.go:209-218 | Asks the breaker about the checked table, and logs and notifies each flip once |
| Pollers.Poller.DisconnectPrevious | engine/poller.go:251-270 | Disconnects a reachable previous leader and blanks its commands if it is not Ready |
| Pollers.Poller.Connect | engine/poller.go:285-295 | Gives the exit code of the connect command, 0 for a blank one, and blanks the commands of a leader that is connected but not Ready |
| Pollers.Poller.SettleLeader | engine/poller.go:272-309 | Commits exactly when the leader is reachable and its connect command succeeds; otherwise marks it Dead for that reason |
| Pollers.Poller.UpdateByRule | engine/poller.go:318-367 | The rule loop with its skips, its failures and its break |
| Pollers.Poller.UpdateGlobal | engine/poller.go:369-412 | For a non-blank global record, each at most once: an update exactly with either kind of credentials, a sync exactly with those of an API key, and last, always, a verification; whether the update succeeds decides neither of the latter two |
| Pollers.Poller.Commit | engine/poller.go:414-450 | Clears the other flags, sets the leader's, stores it and notifies, in this order |
| Pollers.Poller.WriteLeader | engine/poller.go:414-416 | The three writes of a commit, in order |
| Pollers.Poller.TryOnce | engine/poller.go:232-452 | One attempt: its effects, the breaker after it and whether it ends the loop |
| Pollers.Poller.ElectAndSwitch | engine/poller.go:224-452 | The retry loop, on mutable state, equals the recursive one |
| Pollers.Poller.RunOnce | engine/poller.go:103-455 | A whole cycle, on mutable state, equals `Cycle`, and its effects are `CycleTrace` |
| CheckPhase.CheckedRows | engine/poller.go:134-207 | The check phase changes nothing but host states, each decided by its own host |
| CheckPhase.CheckTraceKind | engine/poller.go:199-201 | The effects of the check phase are exactly the changes of state it makes, both ways |
| CheckPhase.ReadyIsReachable | engine/poller.go:195-230 | Every host Ready after the checks is marked reachable |
| Heartbeats.CheckedByHeartbeat | engine/poller.go:134-207 | What the checks make of a host, by its heartbeat and its streak numbers alone: in contact or not, and Ready, Full or Dead by the flags of a recent heartbeat and by either traffic number of a recent or an old one |
| Heartbeats.SnapshotsOfHeartbeats | engine/poller.go:134-156 | Over any run, a snapshot in a host's history is a success exactly if its heartbeat was recent and reported both network and SSH up |
| Heartbeats.LivesByHeartbeats | engine/poller.go:134-202 | Over any run, a host that is not Dead dies in the checks exactly if each of its last three heartbeats was missing, old or reported a failure, and otherwise is Full exactly if either number of the last one is over its threshold; a Dead one becomes Ready exactly if the last two were good and neither number is over it, and stays Dead otherwise |
| Heartbeats.DisconnectsInContact | engine/poller.go:227-258 | By heartbeat and streak numbers: a cycle disconnects the stored leader exactly if someone else is elected and the leader is in contact |
| Connects.CycleConnects | engine/poller.go:285-309 | The n-th connect command of a cycle is that of a host Ready after the checks and ends with the n-th exit code, or with 0 if blank; exactly the hosts whose command failed are killed for it, in order, and exactly the one whose command succeeded is stored |
| Failover.FailuresFirstIsLeast | engine/poller.go:232-309 | The number of failures is the position of the first host in the order that connects, among those the attempts allow |
| Failover.FailedAttempt | engine/poller.go:272-309 | A failed attempt leaves the tried host Dead, every other state, flag and every other Ready host as they were, and the stored leader too |
| Failover.LoopWalks | engine/poller.go:232-452 | From any attempt on, the retry loop does what a walk along some priority order of the Ready hosts does; the breaker too |
| CycleTheorems.WalkByPosition | engine/poller.go:232-452 | The walk tries the hosts up to and including the first that connects, kills those before it and commits it; it commits nothing if none of the allowed ones connects |
| CycleTheorems.CycleWalks | engine/poller.go:224-452 | Main refinement: when the election does not return the stored leader, the whole cycle tries, kills and commits exactly as that walk says, and its final table is the checked one with exactly the killed hosts Dead and the committed one stored |
| CycleTheorems.CycleTrichotomy | engine/poller.go:209-452 | Every cycle ends with no Ready host, or with a stored leader that is Ready and of least priority, or with three different hosts killed by their connect command and the leader unchanged |
| CycleTheorems.UnchangedCycle | engine/poller.go:238-249 | A cycle that elects nobody, or the stored leader, tries, kills and commits nobody and leaves the table as the checks did |
| CycleTheorems.Quiescence | engine/poller.go:247-249 | If the stored leader is the one Ready host of least priority, a cycle runs no command, touches no DNS name and writes no leader |
| CycleTheorems.CycleShape | engine/poller.go:232-452 | Every cycle is a part that touches no DNS name and no leader, followed, if it commits a host, by that host's successful connect, its DNS effects and the commit |
| Thrashing.RecommitsExactly | engine/poller.go:232-452 | A cycle both disconnects its stored leader and stores it again if and only if the first election returns someone else and, along the priority order, the first host that connects within the attempts is that leader |
| Thrashing.CycleThrashes | engine/poller.go:232-452 | One way to meet that again and again: the host of least priority is healthy but fails to connect, the leader comes second; the cycle tries and kills the one, disconnects, connects and commits the other, and leaves the same situation |
| Thrashing.RunThrashes | engine/poller.go:169-452 | Over any number n of such cycles: n deaths of the one host, n disconnects and n commits of the other |
| Witnesses.DuoNeverSettles | engine/poller.go:169-452 | A pool of two hosts in which this happens in every one of n cycles, for every n |
| Convergence.GoodRun | engine/poller.go:21-24 | From any world, under good heartbeats and a working connect: after one cycle every host is alive or one snapshot short of it, after two all are Ready, the breaker is closed and the leader has the least priority |
| Convergence.Converges | engine/poller.go:103-455 | If one host has the least priority, every such cycle after the second has no effect at all |
| Convergence.ConvergesExactly | engine/election.go:33-37 | The third of three good cycles has no effect, whatever their heartbeat values and orders of equals, if and only if exactly one host has the least priority |
| TraceSafety.CycleDisconnects | engine/poller.go:251-285 | At most one disconnect in a cycle, before every connect; commands are blanked only right after disconnecting their host |
| TraceSafety.DisconnectedExactly | engine/poller.go:233-258 | A cycle disconnects the stored leader, once, exactly when someone else is elected and the leader has a row and is reachable; it disconnects no one otherwise |
| TraceSafety.DisconnectSafety | engine/poller.go:251-295 | Only the old stored leader is disconnected or blanked, only if reachable, blanked only if not Ready, and never if the cycle commits it |
| TraceSafety.CycleBlanks | engine/poller.go:251-270 | A disconnect is followed at once by blanking that host's commands if and only if the checks left the host Full or Dead |
| TraceSafety.CommandsAfterCycle | engine/poller.go:251-295 | After a cycle exactly a disconnected host that the checks left Full or Dead has lost both its commands; every other row keeps its own |
| TraceSafety.DnsSafety | engine/poller.go:285-416 | Every DNS effect carries the address of one Ready host that connected before it and is stored as the leader after it |
| TraceSafety.FlagsAtEveryStep | engine/poller.go:414-416 | At every point inside a cycle that starts with at most one flagged host, wherever the flag sits, at most one is flagged |
| TraceSafety.FlagsAfterCut | engine/poller.go:414-416 | After any first k effects of a cycle, the flagged host is the stored leader if and only if a host has been stored, or the last effect flagged the stored leader, or the last effect cleared the other flags and the host it spares is unflagged or the stored leader, or, with the commit not begun, it was so before |
| TraceSafety.FlagsAfterCycle | engine/poller.go:414-416 | After a cycle no other host than the stored leader is flagged if and only if this was so before or the cycle stored a leader |
| TraceSafety.FlagFollowsLeader | engine/poller.go:414-416 | A cycle that stores a leader leaves the flag on that host and on no other; any other cycle leaves every flag as it was |
| AuditTrail.CycleOnRecord | engine/election.go:47-57 | The leader_changed audit events name, in order, exactly the hosts the cycle tries; the first leaves the stored leader, the others nobody; one leader_changed notification per commit, none without |
| AuditTrail.CircuitNotices | engine/poller.go:209-245 | The circuit_open notification is sent exactly if the checks leave hosts but no Ready one and the breaker was closed, or leave a Ready one and the cycle ends with the breaker open, or there is no host at all; circuit_close exactly if the breaker was open and the checks leave a Ready host or no host |
| Runs.RunKeepsSound | engine/poller.go:103-455 | Over any interleaving of cycles, handlers, overrides, restarts and crashes inside cycles: ids stay sound, at most one host is flagged, stored rules stay normalised |
| Runs.CrashAgrees | engine/poller.go:414-416 | Where the flag was on the stored leader, a crash inside a cycle leaves it on another host if and only if the last effect written was flagging a host that is not the stored leader |
| Runs.RunAgrees | engine/poller.go:414-416 | Over any run without such a crash no other host than the stored leader is flagged |
| Witnesses.TornCommit | engine/poller.go:415-416 | A crash after which one host is flagged and another stored |
| Runs.FlagsInEveryRun | api/hosts.go:307-319 | At every point inside every cycle of every run, host deletions and crashes included, at most one host is flagged |
| Runs.RunKeepsIntegrity | api/hosts.go:196-224 | Over any run with trimmed pool names every host's pool stays registered, the default pool is never removed and no two hosts share a pool and a priority |
| Histories.TrailingRunIs | engine/poller.go:169-176 | A trailing run of length at least k means that the last k snapshots are equal |
| Histories.StreaksAreTrailingRuns | engine/poller.go:169-176 | Over any run the streak maps hold the lengths of the trailing failed and successful runs of each host's snapshots |
| Histories.ExactHysteresis | engine/poller.go:169-196 | Over any run, a host that is not Dead dies in the check phase exactly if its last three snapshots failed; a Dead one becomes Ready exactly if its last two succeeded and its traffic is within the threshold, and else stays Dead |
| Histories.CircuitHistory | engine/circuit.go:40-55 | Over any run from a closed breaker, restarts and crashes inside cycles included: circuit_open and circuit_close events alternate, open first, with the breaker open exactly if the last was circuit_open, if and only if no restart and no crash finds the breaker open |
| Histories.BreakerAfterCycle | engine/poller.go:209-309 | A cycle leaves the breaker wrong exactly when the checks leave three Ready hosts with non-blank connect commands, the election does not return the stored leader, and the three connect commands fail; it is never wrongly open |
| Witnesses.BreakerMisses | engine/poller.go:232-309 | Three Ready hosts, none of which connects: no host is Ready after the cycle, and the breaker is closed |
| Witnesses.RestartRepeatsOpen | engine/circuit.go:11-14 | A Dead host, a cycle, a restart and a cycle: the audit log says circuit_open twice in a row |
| Flapping.LoopKillsOnly | engine/poller.go:297-309 | After the checks a cycle changes states only by killing Ready hosts whose connect command failed |
| Flapping.FlapBound | engine/poller.go:169-200 | Over any run of a fresh poller without an override of this host, N cycles, those cut short by a crash included, kill it by health check at most (N + 2) / 5 times, whatever else happens |
| Flapping.FlapWindow | engine/poller.go:169-200 | Any stretch of such a run with N cycles, after any beginning, adds at most (N + 4) / 5 deaths by health check, so two of them are at least five cycles apart |
| FlapSharpness.FlapBoundIsReached | engine/poller.go:21-24 | For every N there is a run that reaches the bound |
| Flapping.RunObeysMatrix | engine/statemachine.go:20-24 | No run ever makes a transition outside the matrix, or one to the same state; none goes from Dead to Full |
| Flapping.RunNeverGuards | engine/poller.go:272-283 | The branch for an elected leader that is not reachable is never taken |
| DdnsRules.NormalizeAccepts | api/config.go:164-216 | Submitted rules are accepted exactly when all are objects and what they come to is trimmed, with one rule a pool and one pool a domain |
| DdnsRules.NormalizeWellFormed | api/config.go:135-217 | Whatever is accepted is well formed in that sense |
| DdnsRules.ShownRestored | api/config.go:182-188 | A list that shows the stored rules with secrets masked in any way that leaves an asterisk normalises to the stored rules, exactly when these are well formed |
| DdnsRules.MaskRoundTrip | api/config.go:35-51 | Reading the rules masked and submitting them back gives the stored rules, secrets included, exactly when these are well formed |
| DdnsRules.NormalizeStored | api/config.go:120-131 | Normalising a stored list gives it back exactly when it is well formed |
| DdnsRules.NormalizeTwice | api/config.go:81-131 | After saving, the second normalisation succeeds and changes nothing |
| DdnsRules.NormalizeDdnsRules | api/config.go:135-217 | The loops with their maps and their first error compute that normalisation |
| DdnsRules.NormalizeItems | api/config.go:164-216 | With sets of the pools and domains seen so far, the loop finds the first error or returns all rules |
| DdnsRules.ReadItem | api/config.go:168-188 | One item becomes a trimmed rule; a secret that is empty or holds an asterisk is the stored one of its pool |
| DdnsRules.NormalItemByFields | api/config.go:168-188 | By the submitted keys: texts are trimmed, a missing or other value reads as blank, a rule is enabled unless "enabled" is false, and a secret that is blank or holds an asterisk is that of the last stored rule of the pool, or blank without one |
| DdnsRules.FirstErrorIs | api/config.go:164-201 | The error names the first item that spoils the list: not an object, no pool, a pool already used, or a domain already used, in this order |
| DdnsRules.NonArraysRefused | api/config.go:142-162 | A request is refused as no array exactly if it is a decoded value other than an array |
| DdnsRules.UpdateRules | api/config.go:81-131 | Saving keeps the stored rules well formed, or unchanged on an error; what is then applied is what was saved |
| DdnsRules.MaskRules | api/config.go:35-51 | Of each rule in the list it returns, a secret longer than four characters shows its last four after as many asterisks as it has others, a shorter one is shown whole, and every other field is shown as it is |
| DdnsRules.MaskedRuleHides | api/config.go:35-51 | The same for the item that stands for one rule, key by key, with no other key |
| CommitDns.GlobalNameExactly | engine/poller.go:369-450 | A cycle that stores a leader to whose pool no rule applies makes exactly these DNS calls, by the fields of the settings: for a non-blank global record an update exactly with either kind of credentials, a sync exactly with those of the API key, and last a verification; and it sends the ddns notification that says whether the record resolves to the leader, or none for a blank record |
| CommitDns.RuleNamesExactly | engine/poller.go:318-450 | A cycle that stores a leader to whose pool some rule applies calls for exactly the applicable rules with credentials, in order, up to the first call that succeeds, then syncs and verifies that rule's record; no call is made for the global record; and it sends the ddns notification that says whether a call succeeded and its record resolves |
| CommitDns.NobodyStoredNoDns | engine/poller.go:311-450 | A cycle that stores no leader makes no DNS call and sends no ddns notification |
| DdnsNames.RuleDnsCalls | engine/poller.go:318-369 | The poller calls for the applicable rules with credentials in order until one call succeeds, syncs and verifies that one, looks at none after it, and leaves the global record alone exactly when some rule applies |
| DdnsNames.VerifyDdns | api/ddns.go:17-51 | Looks up the first name of the leader's pool, else the global one; an error when there is no leader, no row for it or no name |
| DdnsNames.VerifyRecordIs | api/ddns.go:30-47 | By the fields: the trimmed record of the first enabled rule for the pool that names one, else the trimmed global record |
| DdnsNames.OneNameExactly | engine/poller.go:318-412 | Whatever calls fail, the poller touches only the name VerifyDDNS looks up, exactly when every applicable rule with credentials names it |
| DdnsNames.NormalizedOneTarget | api/config.go:190-203 | Rules that went through normalisation meet this condition |
| DdnsNames.CycleTouchesVerifiedName | api/ddns.go:30-52 | With normalised rules all DNS effects of a cycle are on one name, the one VerifyDDNS looks up for the leader just stored |
| Handlers.CreateHostKeeps | api/hosts.go:191-224 | Creating a host keeps the unique index in any case, and pool integrity exactly when the submitted pool name is trimmed; a refused request changes nothing |
| Handlers.CreateHostBreaks | api/hosts.go:196-217 | A host created under a padded name whose pool is not registered |
| Handlers.UpdateHostKeeps | api/hosts.go:266-304 | The same for an update |
| Handlers.UpdateHostBreaks | api/hosts.go:290-295 | Updates that store a padded and a blank pool name |
| Handlers.PoolHandlersKeep | api/pools.go:35-87 | Pool handlers, host deletion and overrides keep integrity whatever they are given |
| Handlers.StartupEstablishes | database/dbcore/pool_seed.go:11-44 | Startup establishes integrity exactly when all hosts carry trimmed, non-blank pool names |
| Handlers.StartupMisses | database/dbcore/pool_seed.go:31-43 | A host with a padded pool name that stays unregistered at startup |
| Handlers.StartupKeeps | database/dbcore/pool_seed.go:11-44 | Where integrity holds, starting up again changes nothing |
| Handlers.AutoPriorityFree | api/hosts.go:519-526 | An automatic priority is taken, for a trimmed name, exactly when the pool holds both the greatest and the least 64-bit priority; for an untrimmed name, exactly when a host of that name holds the priority next to the greatest of the trimmed pool |
| Handlers.PaddedPriorityCollides | api/hosts.go:196-224 | Two hosts created under a padded pool name without priorities: the second is refused |
| Handlers.WrappedPriorityCollides | api/hosts.go:519-526 | Two hosts created without priorities where one has the greatest: the first gets the least, the second is refused |
| Handlers.HostApi.Create | api/hosts.go:191-224 | Success adds exactly one row at the end: a new id, Ready, not a leader, the submitted fields, the default pool for an empty one, and for a priority not above 0 the one next to the greatest of the trimmed pool; any failure changes nothing |
| Handlers.HostApi.Update | api/hosts.go:266-304 | Success leaves every other row as it was and keeps the row's id, state and flag; each field takes the submitted value unless that is zero; no two hosts come to share a slot; not found exactly when no row has the id; any failure changes nothing |
| Handlers.HostApi.Delete | api/hosts.go:307-319 | Afterwards the table holds exactly the rows with another id, and nothing else has changed, the stored leader included |
| Handlers.CreateThenDelete | api/hosts.go:196-319 | Deleting a host just created leaves nothing of it but the id it used up |
| Handlers.UpdateTwice | api/hosts.go:266-304 | Sending the same update twice is sending it once |
| Handlers.UpdateUndone | api/hosts.go:295-304 | Asking for the old row undoes an update exactly when the update gave no value to a field that was zero |
| Handlers.HostRefusals | api/hosts.go:191-304 | By what the request and the tables hold: when creating or updating a host is refused for a bad address or an unknown pool, for a missing row, and for a slot in use |
| Handlers.PoolApi.Create | api/pools.go:35-60 | Success exactly for a valid trimmed name that is not there; then exactly that name is added; nothing else changes |
| Handlers.PoolApi.Delete | api/pools.go:62-87 | Never succeeds for the default pool or one that a host names; success removes exactly the trimmed name; nothing else changes |
| Handlers.PoolRoundTrips | api/pools.go:35-87 | Creating a pool and deleting it changes nothing; deleting one and creating it again changes nothing exactly if it was there under a valid name |
| Handlers.PoolRefusals | api/pools.go:35-87 | When creating a pool is refused as a bad name and when as a name in use, and when deleting one is refused: a blank name, the default pool, or a pool that a host names |
| Handlers.ValidNamesAre | api/pools.go:13 | A name is valid exactly if it has 1 to 100 characters, each a letter, a digit, an underscore or a hyphen; "my_pool-2" is |
| Handlers.PoolApi.Seed | database/dbcore/pool_seed.go:11-44 | Registers the default pool and every pool that a host names |
| PoolLeaders.PoolLeaderIsFirst | api/ddns_apply.go:135-143 | The ordered query returns the first Ready host of the pool by priority and id, or none exactly if there is none |
| PoolLeaders.ElectionsAgree | api/ddns_apply.go:135-143 | The host elected among all pools is the one returned for its own pool, exactly when its pool name is trimmed |
| RandomStrings.GenerateRandomString | utils/random.go:7-31 | The output is the letters of the first `length` bytes below 248 in all the chunks read, or empty if a read fails before there are enough |
| RandomStrings.Fill | utils/random.go:21-28 | One pass over the buffer appends the letters of its accepted bytes and stops at the wanted length |
| RandomStrings.PreimagesAreExact | utils/random.go:11-23 | Which runs of accepted bytes give a string |
| RandomStrings.Unbiased | utils/random.go:11-23 | Every string of n letters comes from exactly 4^n runs of n accepted bytes |
| ShellQuoting.QuoteRoundTrip | engine/agent_install.go:227-230 | Every string, quoted and read by the rules of sections 2.2.1 and 2.2.2 of the POSIX.1-2017 Shell Command Language, is exactly one word, itself |
| ShellQuoting.ReadQuoted | engine/agent_install.go:227-230 | Wherever it stands in a command line, a quoted string adds exactly itself to the current word |
| ShellQuoting.QuoteAllRoundTrip | engine/agent_install.go:227-230 | Any list of strings, quoted and separated by spaces, reads back as that list |
| Templates.InertIsExact | notifier/telegram.go:75-107 | Replacing one placeholder leaves a text alone in every context exactly when no end of it begins a match and no match lies inside it |
| Templates.OnePass | notifier/telegram.go:75-107 | One replacement fills exactly the holes of its placeholder |
| Templates.RenderIsSimultaneous | notifier/telegram.go:75-107 | The chain of five replacements fills all holes at once, when the text is inert and each value is inert for the placeholders replaced after it |
| Templates.NoBraceIsSafe | notifier/telegram.go:75-107 | Text and values without an opening brace always meet that condition; the value of {state} may be anything |
| Templates.PlaceholdersStandFor | notifier/telegram.go:75-107 | What {event}, {time}, {ip}, {host} and {state} each turn into, by the keys of the payload and which of them goes first |
| Notices.ChainIsOnePass | notifier/telegram.go:75-107 | For any template whatever, the chain fills every placeholder once, in one pass from the left, if no value holds a brace or is part of a placeholder replaced after it |
| Notices.NoticeRenders | notifier/telegram.go:75-107 | Every notification the program sends meets that: its event name, time, address, id and state appear once at their placeholders, in any template |
| Notices.DecimalReads | notifier/telegram.go:88-93 | The id in a notification is written in decimal: it reads back as itself and has no leading zero |
| Notices.RunKeepsAddresses | api/hosts.go:191-288 | Over any run the host table holds only addresses that the parser can accept |
| Notices.LeaderNoticeRenders | engine/poller.go:418-436 | So the notification for any host of any table a run reaches renders in one pass, in any template |

## Left out

- Cloudflare calls, DNS lookups, SSH, HTTP and command execution: their outcomes are inputs.
- Which of the two Cloudflare interfaces an update goes through when both kinds of credentials are there.
- Time: whether a heartbeat is too old is an input, and so is the current time in a template.
- The gorm and SQLite layer, JSON decoding and the configuration store's conversions: tables and settings are read and written as they are.
- Failing database calls: the early returns and breaks they cause in the cycle are not modelled.
- Handlers running between the steps of a cycle, and crashes inside a handler: a cycle can be cut short but not interrupted, and handlers are atomic.
- The exit code of the disconnect command: it is only logged.
- Texts of errors, audit events and notifications, and the payloads sent with them, except which notification is sent.
- Summaries broadcast to the browser, install tasks, accounts, sessions, pages and logging.
- `id`, `state` and `is_leader` sent in host JSON, and `current_leader_id` sent through the configuration handler: they bypass the logic modelled here; overrides of a state are separate steps of a run.
- The default disconnect command that CreateHost takes from the configuration.
- Streak counters are unbounded; the program counts in 64 bits.
- DdnsRules.MaskRoundTrip: does not count bytes as the program does when it masks a secret, because a string is a sequence of code points here; the round trip holds for any masking that leaves an asterisk (ShownRestored).
- Templates.RenderIsSimultaneous: does not cover an empty template, which takes fixed texts instead.
- Templates.RenderIsSimultaneous: its condition is sufficient for the whole chain; it is exact for one replacement (InertIsExact), since a later replacement can undo an earlier one.
- ShellQuoting.QuoteRoundTrip: reads only the characters the two sections and blanks are about; other unquoted special characters stop the reader.
- `HealthChecker` and its SSH probes, which the poller never calls.
