# A verified model of frp's bookkeeping

frp is a reverse proxy: clients behind a NAT register proxies with a public server, and the server hands
visitors' connections to them. This project models the in-memory bookkeeping that has to stay right while
sessions, messages and timers interleave, and proves what that bookkeeping promises. Sockets and streams are
not modelled: an operating-system listen or probe is a boolean or a set of taken ports, a clock reading and a
random draw are parameters.

| file | what it models |
|---|---|
| `Sessions.dfy`, `Registrations.dfy`, `Server.dfy` | control sessions and proxy registration as one step machine: login, replacement, waiting for the old control, the separate steps of a registration, exit, delayed removal |
| `Controls.dfy` | the server's objects (`ControlManager`, `ProxyManager`, `Control`), each method tied to the machine or proved against interference |
| `ProxyWrapper.dfy`, `ClientServer.dfy`, `ClientRetries.dfy`, `ClientManager.dfy` | the client's wrapper, wrapper and server joined by two FIFO queues, when a wrapper tries again, and the reconciliation of running proxies with a new configuration |
| `VhostRouter.dfy`, `VhostLookup.dfy` | the routing index as a table, and both lookups as "the most specific route" |
| `HoleScores.dfy`, `Analyzer.dfy`, `NatClassify.dfy` | the NAT-hole recommender, its roles, NAT classification and candidate ports |
| `PortBook.dfy`, `Ports.dfy` | the port allocator, first on values, then with its shared records |
| `TcpPorts.dfy`, `PortWindows.dfy`, `TcpProxies.dfy` | TCP proxies and load-balancing groups that share the allocator, with acquiring, listening, closing the listener and giving back as separate steps; what a real probe sees in between; the objects |
| `Resources.dfy` | the server, the TCP ports and the HTTP routes as one machine: what is left when all controls are done |
| `HttpRoutes.dfy`, `HttpGroups.dfy` | HTTP groups that share the routing index with ungrouped proxies |
| `PortRanges.dfy` | the text of port ranges: one printer, two parsers, the ports a list denotes |
| `Backoff.dfy` | retry delays with fast retries |
| `DateCounter.dfy` | the sliding window of daily counts |
| `Base.dfy`, `Text.dfy` | optional values, going round, strings |

Machines follow one pattern: `Enabled` and `Step` give the source's critical sections, `Inv` is kept by every
step, and the main lemmas speak about every run. Code that updates objects or loops is a class or a method
whose contract is the specification function or the machine's step.

Where the code does not do what its comments or a reader would expect, the model follows the code, and a lemma
says exactly when the expectation is met:

- A wildcard whose suffix starts at a dot of the host is honoured exactly when another dot follows
  (`VhostLookup.WildcardCoversIff`); so `*.com` serves neither `example.com` nor, although the comment above the
  loop lists it, `test.example.com` (`VhostLookup.TopLevelWildcardIsSkipped`).
- The comment at the score field names a lower bound. Any bound lasts exactly while recommendations less gains
  do not exceed the surplus of the scores over it (`HoleScores.BoundHoldsIff`; without reports
  `HoleScores.BoundLastsIff`), and scores do fall below any (`HoleScores.ScoresFallForever`).
- The comment above the mode 4 table names a send delay of 2000 ms; the table has 3000 (`Analyzer.RowsAsk`).
- The reserved-port branch does not look at the free ports: it hands out a used port exactly when the probe does
  not see that port (`PortBook.DoubleGrantIff`, reached in `PortBook.DoubleGrantHappens`). A failed request uses
  up port 0 exactly when that port is allowed and comes first among the available tries
  (`PortBook.FailureLeavesNoTrace`, reached in `PortBook.ZeroIsLost`).
- A holder is remembered for the port it holds, and so keeps its reservation through cleaning and gets its port
  back, all along a run if and only if that name itself is never granted a second port while it holds one
  (`PortBook.RunRemembersForIff`, for all names together `PortBook.RunRemembersIff`; then
  `PortBook.CleanKeepsHolders` and `PortBook.PortIsSticky`; a run with honest probes that breaks it is in
  `PortBook.SecondPortIsForgotten`).
- TCP ports are conserved all along a run if and only if no request clashes with a port in use or loses port 0
  and no first listen of a group fails (`TcpPorts.RunConservesIff`).
- Even with real probes that is not always so: no lock is held from acquiring a port to listening on it, nor from
  closing the listener to giving the port back. A request for any port keeps the ports conserved exactly when the
  name's reserved port is not in such a window, and not counted by a group that listens elsewhere, unseen by the
  probe (`PortWindows.RequestConservesIff`, `PortWindows.ExactRequestConservesIff`, over runs
  `PortWindows.RealRunConservesIff`). Runs in which every probe sees exactly the listeners, and which leave a live
  proxy or group on a free port, are in `PortWindows.ClosingWindowLosesPort`, `PortWindows.OpeningWindowLosesPort`
  and `PortWindows.StrayGroupLosesPort`.
- A group that asks for any port listens on the port it has counted exactly when the operating system chose that
  one (`TcpPorts.NewGroupMatchesIff`).
- A port stays in use all along a run if and only if no step gives it back, and after a clash that can be somebody
  else's step (`TcpPorts.RunStaysUsedIff`, `PortWindows.StrayGroupLosesPort`); without clashes the port of a group
  stays in use while members stay (`TcpPorts.GroupKeepsPort`).
- The client's phase does not say by itself whether the server holds the proxy: a late answer can lock the
  client out (`ClientServer.LateAnswerLocksOut`, `ClientServer.LockedOutForever`). Once the queues are drained,
  the server holds it exactly when a NewProxy sent after the last CloseProxy was accepted
  (`ClientServer.HeldIffAccepted`, with `ClientServer.PhaseIsTrueIff` as a corollary about the phase).
- Updating twice with the same list is idle exactly under a condition on repeated names
  (`ClientManager.SecondUpdateIsIdle`).
- Port-range text round-trips exactly for non-empty lists of canonical ranges (`PortRanges.RoundTrip`).
- A reading of the date counter is true exactly when the clock has not gone back or both days happen to agree
  (`DateCounter.ReadingIsTrueIff`, with an input in `DateCounter.ClockBackMisplaces`).

## Model

| member | source | states |
|---|---|---|
| Sessions.StepKeepsInv | server/control.go:58-78 | every step of login, replacement, start, leave, finish and delayed removal keeps the chain of waiting controls and the index on the newest control |
| Sessions.OneLivePerRunID | server/service.go:604-616 | two started, unfinished controls with one run id are the same control |
| Sessions.HistoryIsKnown | server/control.go:58-70 | over every run: the controls are the logins in order, each in the phase its starting, leaving and finishing brought it to, and one is disconnected if and only if its connection was lost or a later login found it in the index |
| Sessions.IndexIsKnown | server/control.go:72-78 | over every run: the index leads to a control if and only if it was the last to log in under its run id and has not been forgotten |
| Registrations.StepKeepsInv | server/control.go:456-564 | with Exist, Run, Add, ownership and rollback as separate steps of interleaving controls: the registry is what the controls hold, open proxies are in their maker's hands, nothing is closed twice |
| Registrations.StepTouchesOne | server/control.go:497-546 | although Del and Add work by name only, a step of one control leaves the entries, proxies and counters of all others alone |
| Registrations.StepKeepsPorts | server/control.go:481-546 | the port counter stays the sum over owned and in-flight proxies and within the limit through every registration, rollback and close by message; a leaving control does not lower its counter |
| Registrations.RegisterInOneGo | server/control.go:456-530 | run back to back, a registration either enters both maps or gives everything back |
| Server.StepKeepsInv | server/service.go:597-619 | sessions and registrations together keep their joint invariant in every interleaving |
| Server.SessionsFollow | server/service.go:597-619 | the sessions of every run of the server go through a run of their own, of which the two laws above speak |
| Server.SessionSafety | server/service.go:604-616 | in every reachable state a started control has only finished predecessors, the index names the newest control, and a run id without entry has only finished controls |
| Server.RegistryIsDisjointUnion | server/proxy/proxy.go:333-355 | an entry is in the registry exactly when its maker, a live control, holds it, and nobody else does |
| Server.ClosedExactlyOnce | server/control.go:336-354 | over every run an open proxy is in the hands of a live control, and a proxy no longer open was closed exactly once |
| Server.PortsAreCounted | server/control.go:481-495 | in every reachable state the counter of a limited running control equals owned plus in-flight ports and does not exceed the limit |
| Server.HandoverIsClean | server/service.go:604-608 | a running control is never refused a name because of an older session of its own run id |
| Server.CleanupEnds | server/control.go:319-359 | steps the server takes on its own cannot go on forever |
| Server.QuietMeansSettled | server/service.go:604-616 | no deadlock: when no such step is left, every control is done or runs as the newest of its run id |
| Server.QuietIndexIsExact | server/service.go:613-617 | and the index then names exactly the run ids with a running control |
| Controls.ControlManager.Add | server/control.go:58-70 | one login step: the new control waits with an open connection, exactly the replaced one is told to go, and none is replaced only if all earlier ones are done |
| Controls.ControlManager.Del | server/control.go:72-78 | one removal step: the own entry goes, the entry of a newer control survives the late removal of an older one |
| Controls.ControlManager.GetByID | server/control.go:80-85 | the newest control of the run id, or none if all are done |
| Controls.ProxyManager.Add | server/proxy/proxy.go:333-342 | refuses exactly a present name and then changes nothing |
| Controls.Control.RegisterProxy | server/control.go:456-530 | whatever others do between Exist and Add: accepted exactly when the limit, both checks and Run allow it; refused without a trace, closing an opened proxy once |
| Controls.Control.CloseProxy | server/control.go:532-546 | takes the name out of both maps, returns its ports, closes it once; unknown names change nothing |
| Controls.Control.WorkerExit | server/control.go:336-339 | every owned proxy is closed once and exactly the owned names leave the registry |
| Controls.RegisterThenClose | server/control.go:456-546 | closing undoes registering |
| ProxyWrapper.Wrapper.CheckOnce | client/proxy/proxy_wrapper.go:189-233 | one round of the check worker; when it sends what is in ClientRetries.TickSends |
| ProxyWrapper.Wrapper.SetRunningStatus | client/proxy/proxy_wrapper.go:133-159 | an answer counts only while waiting; it leads to running or to a start error |
| ProxyWrapper.Wrapper.Stop | client/proxy/proxy_wrapper.go:168-187 | stopping closes the wrapper and sends CloseProxy |
| ProxyWrapper.ClosedIsFinal | client/proxy/proxy_wrapper.go:133-233 | no check and no answer changes the phase of a closed wrapper or makes it send |
| ClientServer.StepKeepsInv | pkg/msg/handler.go:53-78 | wrappers, their successors, two FIFO queues and the server's map: every step keeps the invariant that ties the last message of each wrapper to what the server holds |
| ClientServer.DrainedMeansReleased | client/proxy/proxy_wrapper.go:189-233 | once the messages are drained, phases new, check failed and closed mean that the server does not hold the name |
| ClientServer.CloseIsLastMessage | client/proxy/proxy_manager.go:144-175 | a stopped wrapper's last message is CloseProxy and all of a successor's messages come later |
| ClientServer.ClosedForever | client/proxy/proxy_wrapper.go:168-187 | over every further run a closed wrapper stays closed and silent |
| ClientServer.LateAnswerLocksOut | client/proxy/proxy_wrapper.go:133-159 | a concrete run after which the wrapper shows a start error, the queues are empty and the server holds the name |
| ClientServer.LockedOutForever | server/control.go:497-512 | from there it never runs again until it is stopped or its health check fails |
| ClientServer.HeldIffAccepted | server/control.go:497-546 | in every run, once the queues are drained, the server holds the name if and only if a NewProxy sent after the last CloseProxy was answered with an acceptance |
| ClientServer.PhaseIsTrueIff | client/proxy/proxy_wrapper.go:133-159 | corollary: the drained phase tells whether the server holds the name if and only if it is running just when such an acceptance was read |
| ClientServer.TimelyPhaseIsTrue | client/proxy/proxy_wrapper.go:189-233 | when no NewProxy is sent before the earlier one is answered, the drained phase says exactly whether the server holds the name |
| ClientRetries.PhasesAreKnown | client/proxy/proxy_wrapper.go:133-233 | over every run the events and messages tell the phase and health of each wrapper, when a waiting one sent its last NewProxy, and when a failed one got its error |
| ClientRetries.TickSends | client/proxy/proxy_wrapper.go:195-224 | the retry law: a turn of the worker sends NewProxy if and only if the wrapper is healthy and is new, failed its check, sent its last NewProxy more than 20 s ago or got its error more than 30 s ago; CloseProxy if and only if it is unhealthy and was waiting or running |
| ClientRetries.HealthyStartsAgain | client/proxy/proxy_wrapper.go:195-224 | whatever else happens, a healthy wrapper that is new, failed its check or shows a start error has sent NewProxy again once its worker takes a turn, in the last case more than 30 s after the error |
| ClientRetries.WaitingAsksAgain | client/proxy/proxy_wrapper.go:195-224 | and one that waits does so more than 20 s after its last NewProxy, if no answer is delivered meanwhile |
| ClientManager.Manager.StopChanged | client/proxy/proxy_manager.go:144-161 | stops exactly the names that are gone or configured differently by the last entry of the name |
| ClientManager.Manager.StartMissing | client/proxy/proxy_manager.go:166-179 | starts each missing name with the first entry of the name and leaves the others |
| ClientManager.Manager.UpdateAll | client/proxy/proxy_manager.go:136-179 | afterwards exactly the configured names run, each kept or fresh as specified |
| ClientManager.SecondUpdateIsIdle | client/proxy/proxy_manager.go:136-179 | repeating an update stops nothing if and only if every listed name already ran with its last entry or has equal first and last entries |
| ClientManager.KeyByNameIsLast | client/proxy/proxy_manager.go:138-140 | of several configurations with one name the last one counts |
| VhostRouter.SortIsDescending | pkg/util/vhost/router.go:61-63 | sorting puts locations in strictly descending order |
| VhostRouter.DescendingIsUnique | pkg/util/vhost/router.go:61-63 | whatever sorting algorithm is used, the bucket is the same |
| VhostRouter.FirstHitIsLongest | pkg/util/vhost/router.go:110-115 | in descending order the first prefix of a path is the longest one |
| VhostRouter.AddRefines | pkg/util/vhost/router.go:36-70 | adding a new key adds exactly that key to the table |
| VhostRouter.DelRefines | pkg/util/vhost/router.go:72-94 | deleting removes exactly that key from the table |
| VhostRouter.Routers.Add | pkg/util/vhost/router.go:36-70 | fails exactly on a present key and then changes nothing |
| VhostRouter.Routers.Del | pkg/util/vhost/router.go:72-94 | removes exactly the key, present or not |
| VhostRouter.Routers.Get | pkg/util/vhost/router.go:96-118 | the unique longest registered prefix of the path, or none if there is none |
| VhostRouter.Routers.Exist | pkg/util/vhost/router.go:120-136 | true exactly when the key is in the table |
| VhostRouter.Replay | pkg/util/vhost/router.go:36-94 | after any sequence of additions and deletions the index stands for the table they build key by key |
| Text.LowerIs | pkg/util/vhost/router.go:37-37 | lower case leaves no capital letter, gives the k-th small letter for the k-th capital one, and keeps every other character |
| Text.SameLowerIff | pkg/util/vhost/router.go:97-97 | two texts have the same lower case if and only if they differ in ASCII case at most |
| VhostRouter.GetIgnoresCase | pkg/util/vhost/router.go:96-118 | hosts that differ in ASCII case only get the same route |
| VhostRouter.AddIgnoresCase | pkg/util/vhost/router.go:36-94 | a route under one spelling of the domain refuses it under another, and deleting it under a third makes room again |
| VhostLookup.MostSpecificIsUnique | pkg/util/vhost/http.go:203-244 | at most one route is the most specific one |
| VhostLookup.RankIsInjective | pkg/util/vhost/http.go:220-242 | two domains that cover a host with equal specificity are equal |
| VhostLookup.FindRouter | pkg/util/vhost/http.go:203-212 | the best route of one domain: exact user before the empty user, then the longest location |
| VhostLookup.HTTPReverseProxy.GetVhost | pkg/util/vhost/http.go:203-244 | the loop ends; it answers nothing exactly when no route matches and otherwise the most specific route |
| VhostLookup.Muxer.GetListener | pkg/util/vhost/vhost.go:150-188 | the second copy of the lookup meets the same specification |
| VhostLookup.Muxer.Listen | pkg/util/vhost/vhost.go:131-148 | registers the listener under its route or fails without change |
| VhostLookup.Muxer.CloseListener | pkg/util/vhost/vhost.go:292-296 | withdraws exactly the listener's route |
| VhostLookup.GetVhostIgnoresCase | pkg/util/vhost/http.go:203-244 | the HTTP lookup answers hosts that differ in ASCII case only alike |
| VhostLookup.GetListenerIgnoresCase | pkg/util/vhost/vhost.go:150-188 | and so does the muxer's |
| VhostLookup.WildcardNeedsThreeLabels | pkg/util/vhost/http.go:226-238 | some wildcard other than the star can cover a host if and only if the host has three labels or more |
| VhostLookup.WildcardCoversIff | pkg/util/vhost/http.go:224-238 | the wildcard of a dot of the host covers it if and only if another dot follows or it is the host itself |
| VhostLookup.TopLevelWildcardIsSkipped | pkg/util/vhost/http.go:224-228 | with only `*.com` registered the lookup of `test.example.com` answers nothing |
| HoleScores.MakeHoleRecords.ReportSuccess | pkg/nathole/analysis.go:218-232 | rewards the first matching entry only |
| HoleScores.MakeHoleRecords.Recommand | pkg/nathole/analysis.go:234-247 | picks and lowers the first entry of maximal score; an empty list yields mode 0 and index 0 |
| HoleScores.RewardedAt | pkg/nathole/analysis.go:218-232 | a report changes at most one entry, by two up to the cap |
| HoleScores.AlwaysCapped | pkg/nathole/analysis.go:218-247 | over every run no score exceeds 10 |
| HoleScores.TotalIsConserved | pkg/nathole/analysis.go:218-247 | over every run the total is the initial total less the recommendations plus the capped gains |
| HoleScores.NobodyStarves | pkg/nathole/analysis.go:234-247 | an entry of score x among n is recommended within (n-1)(11-x)+2k+1 calls in any run with k reports |
| HoleScores.RoundRobin | pkg/nathole/analysis.go:151-161 | from equal scores the i-th recommendation is entry i mod n |
| HoleScores.LevelsOut | pkg/nathole/analysis.go:234-247 | from any scores the list is level after exactly its surplus over a lower bound |
| HoleScores.EachOncePerRound | pkg/nathole/analysis.go:234-247 | from then on any n consecutive calls try each of the n entries exactly once |
| HoleScores.DueComesFirst | pkg/nathole/analysis.go:234-247 | without reports no entry is recommended before every entry with a better score, or with the same one further up, has been |
| HoleScores.ScoresFallForever | pkg/nathole/analysis.go:249-254 | scores have no lower bound |
| HoleScores.BoundLastsIff | pkg/nathole/analysis.go:234-247 | without reports a bound holds after i calls if and only if i is at most the surplus over it |
| HoleScores.BoundHoldsIff | pkg/nathole/analysis.go:218-254 | with any reports a bound holds all along a run if and only if recommendations less gains never exceed the surplus |
| Analyzer.BuildScores | pkg/nathole/analysis.go:151-161 | one entry for each row of the table, scored by the role of its first side |
| Analyzer.ClassifyFeatureCount | pkg/nathole/classify.go:110-127 | counts easy, hard and regularly changing hard NATs |
| Analyzer.NewMakeHoleRecords | pkg/nathole/analysis.go:179-216 | the initial list: the rows of the modes of the pair's class in order, each with the score it starts with |
| Analyzer.EachRowOnce | pkg/nathole/analysis.go:193-214 | every list the analyzer ever has for a key holds each row of the modes of its class exactly once and no other row |
| Analyzer.InitialFits | pkg/nathole/analysis.go:179-216 | so it is for the initial list, with capped scores |
| Analyzer.ApplyKeepsFitting | pkg/nathole/analysis.go:218-247 | recommendations and reports keep that |
| Analyzer.RolesAreRight | pkg/nathole/analysis.go:271-301 | for every suitable entry: one sender and one receiver, the hard side sends in mode 1 and receives in mode 2, in mode 4 the sender has regular port changes |
| Analyzer.FirstModeIs | pkg/nathole/analysis.go:193-214 | the mode of the first recommendation for each class of pair: 0 with a public side and at most one hard NAT; else 1 or 2 for a regular or irregular hard NAT, and 3, 4 or 0 for two of which two, one or none is regular |
| Analyzer.PublicSideReceivesFirst | pkg/nathole/analysis.go:182-191 | with at most one hard NAT the first recommendation lets the side on a public network receive |
| Analyzer.FirstRecommendations | pkg/nathole/analysis.go:271-301 | for a new key, without reports, any number of recommendations come in order: no row before every row that starts with a better score, or with the same one in an earlier mode or further up in the same |
| Analyzer.RowsAsk | pkg/nathole/analysis.go:38-119 | what the rows of each table ask of the sender and the receiver |
| Analyzer.Analyzer.GetRecommandBehaviors | pkg/nathole/analysis.go:271-301 | in every reachable analyzer state the answer is a row of its table with the right roles, for a new key of the mode that FirstModeIs says, and only the list of the key changes, by one recommendation |
| Analyzer.Analyzer.ReportSuccess | pkg/nathole/analysis.go:303-311 | rewards the list of the key and no other, and sets its time |
| Analyzer.Analyzer.Clean | pkg/nathole/analysis.go:313-326 | drops exactly the lists that were not used for the reserve duration |
| NatClassify.ClassifyNATFeature | pkg/nathole/classify.go:42-108 | fails on one address or none or a bad port; the result names which component varies, the port spread, and whether an address is local |
| NatClassify.OrderDoesNotMatter | pkg/nathole/classify.go:42-108 | with non-empty IPs the result does not depend on the order of the addresses |
| NatClassify.EasyMeansOneAddress | pkg/nathole/classify.go:83-103 | easy if and only if all addresses coincide |
| NatClassify.RangePortsAreLegal | pkg/nathole/controller.go:369-392 | the candidate range is exactly the ports in 1..65535 that are at most the difference and five, and at most maxNumber, away from the last observed port |
| PortBook.GrantIsAllowed | server/ports/ports.go:71-141 | a grant takes an allowed, available port, and the asked one if one was asked for |
| PortBook.DoubleGrantIff | server/ports/ports.go:89-98 | a used port is granted again exactly in the reserved branch with a probe that misses it |
| PortBook.HonestMeansExclusive | server/ports/ports.go:71-141 | with honest probes a grant takes a free port |
| PortBook.CertainAnswerIs | server/ports/ports.go:121-139 | a certain port is granted exactly when it is free and available, and each of the three refusals has its own reason |
| PortBook.AnyAnswerIs | server/ports/ports.go:89-120 | any port: the reserved one if available, else the first available one among five tries, else a refusal |
| PortBook.FailureLeavesNoTrace | server/ports/ports.go:71-141 | a failed request changes something exactly when any port is asked for, the reserved port cannot be had, and port 0 is the first available one tried |
| PortBook.DoubleGrantHappens | server/ports/ports.go:89-98 | a reachable state in which a used port is granted again |
| PortBook.ZeroIsLost | server/ports/ports.go:101-120 | a reachable state in which a failed request uses up port 0 |
| PortBook.CleanDropsExpired | server/ports/ports.go:177-188 | cleaning drops exactly the closed reservations older than a day, and so no record of a port in use |
| PortBook.CleanKeepsHolderIff | server/ports/ports.go:177-188 | in any state: the holder of a port keeps a reservation through cleaning if and only if it has one that is the record of a port in use or not yet expired |
| PortBook.CleanKeepsHolders | server/ports/ports.go:177-188 | over every run in which the holder itself was never granted a second port while it held one, whatever others took, cleaning never drops its reservation |
| PortBook.StepKeepsRememberedIff | server/ports/ports.go:89-130 | a step keeps a name the reservation of what it holds if and only if it does not grant that name a second port |
| PortBook.RunRemembersForIff | server/ports/ports.go:71-188 | the same all along every run, whatever the probes report and others take |
| PortBook.RunRemembersIff | server/ports/ports.go:71-188 | and so for all names together: every holder is remembered at every point if and only if no name takes a second port |
| PortBook.OpenReservationsAreHolders | server/ports/ports.go:71-188 | with honest probes, a name that took no second port has an open reservation exactly when it holds a port |
| PortBook.SecondPortIsForgotten | server/ports/ports.go:89-130 | a run with honest probes after which a holder loses its reservation to cleaning and gets another port than the one it releases |
| PortBook.RunKeepsInv | server/ports/ports.go:71-188 | over every run free and used partition the allowed ports and live reservations are open records of their port |
| PortBook.ReleasedPortReturnsIff | server/ports/ports.go:89-98 | right after a holder with a reservation released its port, with nothing busy, it gets that port back if and only if the reservation is for it |
| PortBook.PortIsSticky | server/ports/ports.go:89-98 | a holder who itself took no second port gets the port it released back, after anything others did before and since and any cleaning up to a day later, if the port is available |
| Ports.Manager.constructor | server/ports/ports.go:44-69 | the free ports are exactly those of the configured ranges |
| Ports.Manager.TryFree | server/ports/ports.go:100-118 | the first available port among at most five tries |
| Ports.Manager.Acquire | server/ports/ports.go:71-141 | the objects follow the allocator on values; the record in use is the reservation |
| Ports.Manager.Release | server/ports/ports.go:165-175 | frees the port and closes the shared record with the time |
| Ports.Manager.CleanReservedPorts | server/ports/ports.go:177-188 | the objects follow the cleaning on values |
| TcpPorts.StepKeepsSane | server/group/tcp.go:94-178 | whatever the probes report: free and used ports partition the allowed ones, member lists and members agree, a locked group has no members and exactly one opening or closing holds its lock |
| TcpPorts.GrantIsFreeIff | server/ports/ports.go:71-141 | a request that succeeds takes a port nobody uses if and only if it does not clash; one that fails takes a port exactly when it loses port 0 |
| TcpPorts.ListenGroupConservesIff | server/group/tcp.go:98-125 | the first listen of a group conserves the ports if and only if it succeeds |
| TcpPorts.StepKeepsInvIff | server/proxy/tcp.go:49-96 | with acquire, listen, close and release as separate steps of interleaving proxies: a step conserves the ports if and only if it is no request that clashes or loses port 0 and no first listen of a group that fails |
| TcpPorts.RunConservesIff | server/group/tcp.go:94-178 | over every run, with any probes: ports are conserved at every point if and only if every step meets its condition |
| TcpPorts.GroupsListenWhereCounted | server/group/tcp.go:98-125 | in every run a group that asked for a certain port listens on the port it has counted |
| TcpPorts.NewGroupMatchesIff | server/group/tcp.go:98-115 | in every run a new group counts the port it was granted and listens there if and only if it asked for a certain port or the operating system chose the granted one |
| TcpPorts.MembersShareEverything | server/group/tcp.go:121-137 | over every run all members of a group have asked for the group, key, address and port it has |
| TcpPorts.JoinedIff | server/group/tcp.go:121-138 | in every run a later member joins if and only if it asks for what all present members asked for |
| TcpPorts.GroupKeepsFieldsIff | server/group/tcp.go:110-115 | whatever the probe reports: a group keeps its fields exactly until its last member closes |
| TcpPorts.RunKeepsFields | server/group/tcp.go:94-178 | over every run a group has members all along, and the same fields in the end, if and only if its last member never closes |
| TcpPorts.StaysUsedIff | server/ports/ports.go:165-175 | in any state: a port in use stays in use if and only if the step is not one that gives it back |
| TcpPorts.RunStaysUsedIff | server/ports/ports.go:165-175 | the same all along every run, conserved or not |
| TcpPorts.ConservedGroupKeepsPort | server/group/tcp.go:163-178 | from a state whose ports are conserved no step frees the port of a group with members |
| TcpPorts.GroupKeepsPort | server/group/tcp.go:163-178 | over every run whose steps meet their condition, a group keeps its port in use while members stay |
| TcpPorts.LastCloseGivesBack | server/group/tcp.go:163-178 | the last member's close, with anything others do before it gives the port back, ends with the port free, without a holder, and the group gone |
| PortWindows.MissedIff | server/ports/ports.go:143-163 | a port that a real probe misses is in use if and only if its holder is opening or closing or is a group that listens elsewhere |
| PortWindows.SettledMeansHonest | server/ports/ports.go:143-163 | with nothing on its way and no group that listens elsewhere a real probe sees every used port as taken |
| PortWindows.RequestConservesIff | server/proxy/tcp.go:67-79 | with a real probe: a request conserves the ports if and only if it does not ask for any port while the name's reserved port is in a window and unseen |
| PortWindows.ExactRequestConservesIff | server/group/tcp.go:99-107 | with a probe that sees exactly the listeners: if and only if the name's reserved port is in no window, save one on which a group that counts another port happens to listen |
| PortWindows.RealRunConservesIff | server/proxy/tcp.go:49-96 | over every run with real probes the ports are conserved at every point if and only if every step meets that condition and every first listen of a group succeeds |
| PortWindows.PortsAreConserved | server/proxy/tcp.go:49-96 | over every such run that meets it: a port is used exactly when one ungrouped proxy, one group with members or one opening or closing holds it, and it is listened on or in a window |
| PortWindows.ClosingWindowLosesPort | server/proxy/tcp.go:91-96 | a run with exact probes in which every listen succeeds and a proxy ends up live on a free port with a closed record that cleaning drops: another proxy was between closing its listener and releasing |
| PortWindows.OpeningWindowLosesPort | server/proxy/tcp.go:67-80 | a run with exact probes in which a proxy ends up live on a free port: another proxy was granted it before the first one listened, and gave it back |
| PortWindows.StrayGroupLosesPort | server/group/tcp.go:98-107 | a run with exact probes in which every listen succeeds, a group and an ungrouped proxy get one port, and the port is free in the end while the group lives |
| TcpProxies.TCPResources.RunSolo | server/proxy/tcp.go:67-88 | the steps of opening back to back; a failed listen gives the port back |
| TcpProxies.TCPResources.CloseSolo | server/proxy/tcp.go:91-96 | closes the listener, then releases the port |
| TcpProxies.TCPResources.AcquireGroup | server/group/tcp.go:97-102 | the first member takes a port and the group's lock |
| TcpProxies.TCPResources.ListenGroup | server/group/tcp.go:103-120 | the first listen sets up the group; when it fails the port is not given back |
| TcpProxies.TCPResources.JoinGroup | server/group/tcp.go:121-138 | later members join exactly with equal address, port and key and get the group's port |
| TcpProxies.TCPResources.Listen | server/group/tcp.go:46-59 | the first member opens exactly when it is granted a port and can listen, later ones join; the port returned is the group's |
| TcpProxies.TCPResources.CloseListener | server/group/tcp.go:163-178 | takes the member off the list; the last one then releases the port and removes the group |
| Resources.StepKeepsInv | server/control.go:497-546 | registrations, TCP ports and HTTP routes together, whatever the probes report: every listener, port on its way, route and seat belongs to a proxy that is open or being run or closed, and ports are on their way only meanwhile |
| Resources.ClosingIsPossible | server/control.go:532-546 | while a proxy is being run or closed, each thing it has can be moved on or given back at once; no lock stands in the way |
| Resources.NothingIsLeft | server/control.go:336-354 | over every run, with any probes: when all controls are done the registry is empty, nobody listens, no port is on its way, no HTTP route is left and no group of either kind has members; and all ports are free if and only if they are conserved |
| Resources.RealRunConservesIff | server/control.go:511-519 | over every run of the whole server with real probes the ports are conserved at every point if and only if every step meets the caller-side condition |
| Resources.EveryPortIsFree | server/control.go:336-354 | over every run with real probes that meets it, when all controls are done every port is free |
| Resources.QuietMeansSettled | server/service.go:604-617 | no deadlock: when the server has no step of its own left, no port is on its way, no group is locked, and every control is done or runs as the newest of its run id |
| Resources.QuietProbesAreHonest | server/ports/ports.go:143-163 | in such a state, if the ports are conserved and no group listens elsewhere, a real probe sees every used port as taken |
| Resources.QuietLeavesNothing | server/service.go:604-617 | and if all connections are lost too, nothing is left of anything |
| Resources.CleanupEnds | server/control.go:319-359 | the steps the server takes on its own, with listens that succeed or fail as they like, cannot go on forever |
| HttpRoutes.StepKeepsInv | server/group/http.go:30-59 | every step of groups and ungrouped proxies keeps routes owned and member lists duplicate-free |
| HttpRoutes.RoutesAreOwned | server/group/http.go:84-142 | over every run the routes are exactly those of groups with members and of ungrouped proxies, one owner each, and every member list enumerates the function map |
| HttpRoutes.EmptyGroupGivesUpRoute | server/group/http.go:126-142 | the last member takes exactly the group and its route along, others nothing |
| HttpRoutes.MembersShareEverything | server/group/http.go:106-116 | over every run all members of a group have asked for the domain, location, user and key it has |
| HttpRoutes.AdmittedIff | server/group/http.go:84-124 | over every run: a first member is admitted if and only if the route is free, a later one if and only if it asks for the same route under the same key as the present members and none has its name; each refusal has its own reason |
| HttpRoutes.AdmittedBecomesMember | server/group/http.go:117-123 | exactly an admitted proxy becomes a member, with its own function, and nobody else's membership changes |
| HttpRoutes.DirectIff | pkg/util/vhost/router.go:36-70 | over every run an ungrouped proxy gets its route if and only if nobody owns it |
| HttpRoutes.GroupOfAnySize | server/group/http.go:84-124 | for every n a run after which a group has exactly n members |
| HttpRoutes.EachMemberOncePerRound | server/group/http.go:144-186 | while nobody joins or leaves, any n consecutive choices take each of the n members once, whatever other groups do |
| HttpGroups.HTTPGroup.Register | server/group/http.go:84-124 | the errors in order; a refusal changes neither the group nor the routes |
| HttpGroups.HTTPGroup.UnRegister | server/group/http.go:126-142 | removes the member and, with the last one, the route |
| HttpGroups.HTTPGroup.ChooseEndpoint | server/group/http.go:167-186 | the member whose turn it is |
| HttpGroups.HTTPGroup.CreateConn | server/group/http.go:144-165 | the function of the member whose turn it is; it fails only without members |
| HttpGroups.HTTPGroup.CreateConnByEndpoint | server/group/http.go:188-198 | works exactly for members |
| HttpGroups.HTTPGroupController.Register | server/group/http.go:30-44 | the objects of all groups follow the machine's registration |
| HttpGroups.HTTPGroupController.UnRegister | server/group/http.go:46-59 | the objects of all groups follow the machine's removal |
| PortRanges.String | pkg/config/types/types.go:127-140 | prints the pieces joined by commas |
| PortRanges.NewPortsRangeSliceFromString | pkg/config/types/types.go:143-179 | parses piece by piece, fails on the first bad one |
| PortRanges.ParseRangeNumbers | pkg/util/util/util.go:67-111 | lists the numbers of all pieces, fails on the first bad one |
| PortRanges.FreePorts | server/ports/ports.go:53-66 | exactly the ports the ranges denote; without ranges all of 1..65535 |
| PortRanges.RoundTrip | pkg/config/types/types.go:127-179 | parsing the printed form gives the list back if and only if it is not empty and all ranges are canonical |
| PortRanges.PrintingNormalizes | pkg/config/types/types.go:127-179 | printing what a text parsed to and parsing again yields the same list |
| PortRanges.ParsersAgree | pkg/util/util/util.go:67-111 | both parsers accept the same texts, and the allocator's free ports are the listed numbers |
| PortRanges.TrimIs | pkg/config/types/types.go:144-144 | trimming takes the spaces off both ends and nothing else |
| PortRanges.SpacesDoNotMatter | pkg/config/types/types.go:143-179 | spaces around the pieces of a text do not change what it means |
| PortRanges.SignedIs | pkg/config/types/types.go:152-176 | digits are read as their value, with or without a sign, as far as 64 bits reach |
| PortRanges.OnlySignedDigits | pkg/config/types/types.go:152-176 | and nothing else is a number |
| Backoff.FastBackoffImpl.Backoff | pkg/util/wait/backoff.go:66-113 | one call: new counters and the delay |
| Backoff.BackoffUntil | pkg/util/wait/backoff.go:115-152 | the delays of the retry loop, sliding or not, are those of the run of its calls |
| Backoff.FastRetriesAreLimited | pkg/util/wait/backoff.go:80-90 | over every run at most n-1 fast retries before the first reset and n for each reset |
| Backoff.ResetsAreLimited | pkg/util/wait/backoff.go:85-89 | resets are more than the window apart, so their windows fit into the elapsed time |
| Backoff.FastRetriesAreLinear | pkg/util/wait/backoff.go:80-90 | with n fast retries per window W, those past the first 2n-1, times W, are at most n times the elapsed time |
| Backoff.ErrorsAreFastWhileTheyLast | pkg/util/wait/backoff.go:80-84 | while the count lasts every error is retried fast |
| Backoff.DelaysAreBounded | pkg/util/wait/backoff.go:83-112 | in every run a delay after an error is within the maximum or, on the fast path, between the fast delay and that with its whole share of jitter |
| Backoff.ErrorsBackOff | pkg/util/wait/backoff.go:92-111 | with fast retries off and any positive factor, the k-th error in a row waits between the closed forms without jitter and with full jitter |
| Backoff.ErrorsBackOffExactly | pkg/util/wait/backoff.go:92-111 | without jitter the delay is the closed form: a growing sequence cut off at the maximum, a shrinking one cut off at its first term |
| Backoff.SlowErrorsBackOff | pkg/util/wait/backoff.go:92-111 | with any fast retries: errors in a row that are not retried fast wait between the closed forms from their base |
| Backoff.ErrorsInWindow | pkg/util/wait/backoff.go:80-111 | within a window the fast retries that are left come first, each within its jitter, and after the last one the delays back off from it |
| Backoff.ErrorsPastFast | pkg/util/wait/backoff.go:80-111 | when none is left they back off from the base |
| Backoff.FastExactlyFirst | pkg/util/wait/backoff.go:80-90 | in a run of errors within a window exactly those are retried fast for which the count lasts |
| Backoff.ResetRefills | pkg/util/wait/backoff.go:85-89 | an error past count and window is not retried fast, but starts a window in which exactly the next n errors are |
| Backoff.BackOffAfterSuccess | pkg/util/wait/backoff.go:74-111 | over every run from the start, errors after a success that are not retried fast back off from the initial duration for failures, else the duration, else a second |
| DateCounter.StandardDateCounter.Rotate | pkg/util/metric/date_counter.go:114-134 | shifts the counts by the days gone by, in a fresh array |
| DateCounter.StandardDateCounter.Inc | pkg/util/metric/date_counter.go:80-85 | rotates and adds to today |
| DateCounter.StandardDateCounter.Dec | pkg/util/metric/date_counter.go:87-92 | rotates and subtracts from today |
| DateCounter.StandardDateCounter.TodayCount | pkg/util/metric/date_counter.go:57-63 | the first slot after rotation |
| DateCounter.StandardDateCounter.GetLastDaysCount | pkg/util/metric/date_counter.go:65-78 | the first slots after rotation, at most the window |
| DateCounter.WindowIsLedger | pkg/util/metric/date_counter.go:57-134 | while the clock never goes back, after any mix of calls and gaps slot i is the net amount recorded i days ago |
| DateCounter.ClockBackKeepsSlots | pkg/util/metric/date_counter.go:114-124 | when the clock goes back the slots keep the counts of the later days |
| DateCounter.ReadingIsTrueIff | pkg/util/metric/date_counter.go:114-134 | a slot read at any time is true if and only if the clock has not gone back or the ledger has the same amount on both days |

## Left out

- Sockets, TLS, KCP, QUIC, websockets, multiplexing, STUN, encryption, compression, configuration files, dashboards and metrics: foreign calls or plumbing.
- UDP proxies: their Close releases the port outside the once-guard, so the conservation of TCP ports does not carry over.
- The gap in the group controllers between finding a group and locking it: the two are one step here; the code does not exclude that another call removes the group in between.
- TcpProxies.TCPResources: groups, proxies and listeners are values and numbers here, so aliasing between group objects is not captured; the allocator behind them is an object.
- Controls.ControlManager: control objects are named by their login order.
- PortWindows.RealRunConservesIff: for port 0 not among the allowed ports; the condition that is exact for every set of allowed ports and every probe is in TcpPorts.RunConservesIff.
- Resources.StepKeepsInv: joins TCP listeners and HTTP routes; UDP ports and the other muxers are not joined to the server's steps. A proxy may open any number of listeners and routes in any order, which is more than each type of proxy does.
- Ports that other processes take or give up: a probe may see them or not, and a listen may fail at any time.
- Plugins that rename or refuse proxies, authentication and login checks.
- Server shutdown (ControlManager.Close), work connections and their pool, heartbeats: a lost connection is an arbitrary step.
- The health monitor: its verdict is an arbitrary flag.
- The key of the NAT analysis is the tuple of hashed fields; hash collisions are not modelled.
- Wrap-around of 64-bit integers: the round-robin index and a range that ends at the largest integer.
- Text.ToLower: ASCII letters only. PortRanges.Trim knows the spaces of Latin-1.
- Backoff.FastBackoffImpl.Backoff: durations are reals, so rounding of floating-point numbers and truncation to nanoseconds are not modelled.
- Backoff.ErrorsBackOff: negative factors, which would make negative delays.
- StandardDateCounter.Snapshot, which copies without rotating, and days that daylight saving makes shorter or longer; a negative number of days, on which the source panics.
- The example programs, the SOCKS5 samples and bandwidth limits: nothing hard.
