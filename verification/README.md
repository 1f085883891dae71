# A verified model of pfrd

pfrd probes a list of destinations through several peers, measures round trip times and
loss, and keeps a BGP RIB of /32 routes in step with what it measured. This project models
that behaviour in Dafny and proves what it keeps over whole runs. `dafny verify
dfyconfig.toml` checks everything.

## What is modelled

**The round engine.** `Engine.Pfrd` is an object with the daemon's tables as fields: the
measurements `r[dst][round][peer][seq]`, the decisions `route[dst][round]`, the log, and the
advertised /32s as a map from destination to peer (an add replaces the route, a delete
removes it, as in section 3.1 of RFC 4271). Its methods are the phases of a round in the
program's order: drop vanished destinations, aggregate, choose peers, free the round two
back, delete silent destinations, advertise. `Phases` says for each phase what the whole
table is afterwards; every method is proved equal to that, `Pfrd.Round` to `RoundStep`, and
`Pfrd.RunAll` to `After`, the state after any run. The theorems over runs are lemmas about
`After`:

* `RibAgreement`, `LostWithdraws`, `SkippedRounds`: when the RIB agrees with the table.
  The loop that drops vanished destinations is kept as it is written: its loop over rounds
  assigns the parameter that holds the round number (`src/pfr_rdata.cpp:248`), and the
  withdraw test of the next destination reads it (`src/pfr_rdata.cpp:241`). With that loop
  the agreement is false; `LostWithdraws.WithdrawLost` is a run of three rounds that ends
  with a route advertised that no table knows. `RibAgreementIff` says that agreement
  fails with the first lost withdraw, and `WrittenRunAgreesIff` gives the condition, for runs
  on any replies, in what a round can see beforehand: the RIB agrees after every round if and
  only if no advertised destination leaves the list behind another vanished one without
  having had a peer in the round before the last round of that one. When replies are at most
  a round late, that is two rounds ago (`OrdinaryRunAgreesIff`). `RibAgreementKept` proves the
  agreement for the loop with a variable of its own (`keepRound`). Skipped rounds break it for
  either loop: `AgreementWithSkipsIff` is the exact condition and `RouteLeftBySkip` a run.
  `ListExamples` gives both runs on destination lists that follow from each other by the
  rebuilds of `DstList`. The loop also erases the element its iterator stands on
  (`src/pfr_rdata.cpp:269`); the model walks a snapshot of the keys.
* `LateStart`: what the first round that announces leaves unannounced when announcing is
  turned on during a run.
* `Suppression`: skipping unchanged destinations and choosing explicit or implicit
  withdraw refines announcing everything, after every round of every run.
* `Silence`: deletion of silent destinations is exact, and how long records are kept.
* `Hysteresis`, `Stays`: bounded flapping and competitiveness of the least-move rule.
  A silent round stores metric 0 and keeps the peer; `StuckAfterSilenceInRuns` shows that
  the destination then keeps its peer for the rest of its stay.
* `Selection`, `Stats`, `PathChoice`: the peer chosen is a per-destination argmin despite
  the scratch variables shared between destinations, and what its statistics mean.
* `RoundResults`: what every run leaves in the tables of a round, read off the replies, the
  configuration and the entries of the round before: the statistics of every peer, the
  entry of every destination, and the log record.

**Record ownership.** `Ownership.Records` allocates and frees records by address; for every
sequence of operations nothing is freed twice, the places taken are exactly those the
operations leave, allocated minus freed records are those stored and those leaked, and
leaked are exactly the replies numbered 99 that statistics, kept under that number, are
stored over. `RunRecords` reads off the operations of each phase and proves that after every
run the engine's tables hold exactly the records that are stored. So allocated minus freed
equals stored if and only if no processed round finds a reply of its own numbered 99
(`RunLosesNothingIff`); with 100 requests or more that happens, and `RecordLost` is such a run.

**The stop handshake.** `Handshake` is a state machine over the atomic steps of main, the
receiver and the senders. `HandshakeSafety` and `DeadlockFree` hold in every reachable state
of every interleaving. Main can work on an acknowledgement older than its request
(`StaleAcknowledgement`); `ActsOnFreshIff` says exactly when: if one stands already when it
asks. `Progress` shows that main is never trapped: from every reachable state it can still
process a round, shut down, or go on to the next round.

**The measurement pipeline.** `Octets`, `Wire` and `Sender` build probes in the send buffer
byte by byte, for hosts of both byte orders; `Checksum` proves `in_cksum` equal to the
checksum of sections 1 and 2 of RFC 1071; `Pipeline` proves that a sealed probe checks to
zero, that its echo decodes to what was sent, and that for every run of arrivals, with
duplicates, reordering and foreign packets, each slot holds the first arrival for it
(`Filing`). `Batches` follows the probes of one destination there and back: they are told
apart by their numbers, and the answered ones take a slot each. `Foreign` says which packets
are turned down and that they leave the table alone.

**The senders side by side.** `Sender` is one sender that has the send buffer to itself. The
program starts one per peer (`src/pfrd.cpp:750-754`), and all fill and send the same global
`sendbuf` and find the address to send to through the same global pointer `pr`
(`src/ping_send_v4.cpp:111-120`, `src/ping_send_v4.cpp:191-248`); the mutex taken between
filling and sending guards nothing. The receiver, started with the first senders
(`src/pfrd.cpp:737-744`), sets `pr` to a record of its own without an address
(`src/ping_readloop.cpp:20-21`). `SharedBuffer` interleaves them statement by statement.

* The packets are right in every interleaving if and only if one peer at most has something
  to send, or a mutex is held from the number to the send, which it is not
  (`AlwaysExactIff`). `SendExactIff` says for each single send, in every run, when it is the
  packet it should be. `SendOrder.EveryProbeOnce` says that each sender sends all its probes,
  each once and in order, whatever the others do.
* The addresses are right in every interleaving if and only if there is nothing to send, or
  there is one peer and the receiver has started before (`AlwaysAddressedIff`), whether that
  mutex is there or not. `AddressRace` is the run of two senders, `ReceiverRace` the one of a
  lone sender in the round in which the receiver starts.
* `CrewExactIff` states both for the senders of a round of the program.

**The destination filter.** `Prefix` and `Networks` compare the signed range test built out
of octets with the two mask tests, over the text they are given (`Dotted`, `Cidrs`), against
bit-by-bit prefix membership (section 3.1 of RFC 4632). The range test accepts the members
of the prefix that are not below the written address, so it agrees with the mask tests if
and only if the written address has no host bits. `DstList` cuts the shared buffer in place
with `strtok`, filters, numbers, and falls back to the previous list. `Tokens` says what the
tokens of a text are, and `Listing` which addresses a list has, in terms of the tokens, the
prefixes and the database.

Conventions: times and metrics are exact reals. Peers are naturals and peer 0 stands for "no
route"; an add for peer 0 announces nothing. The order in which a map is walked is arbitrary
where the result could depend on it (`RoundInput.order`), so the sorted order of the program
is one case. A round the receiver did not acknowledge is part of a run (`acked`): its
replies are filed, the tables are left alone and the round number goes on. Configurations may
change from round to round.

## Model

| member | source | states |
|---|---|---|
| Engine.Pfrd.ProcV4 | src/ping_proc_v4.cpp:70-73 | a reply takes its slot only if it is free, and the counter grows by exactly the number of slots gained |
| Engine.Pfrd.Receive | src/ping_readloop.cpp:43-70 | a run of replies leaves the table of first replies and counts the new slots |
| Engine.Pfrd.DropRounds | src/pfr_rdata.cpp:247-271 | everything about a destination is gone from both tables, and which round the loop variable is left at |
| Engine.Pfrd.CheckListed | src/pfr_rdata.cpp:235-273 | a listed destination is untouched; another loses tables and, if the withdraw test held, its route, nothing else changes |
| Engine.Pfrd.RouteUpdate | src/pfr_rdata.cpp:216-275 | the loop over all destinations equals `Updated`, for every iteration order, with the overwritten round number or one of its own |
| Engine.Pfrd.CalcAvgRtt | src/pfr_rdata.cpp:690-786 | every peer of the round gets the statistics of its replies, other rounds stay |
| Engine.Pfrd.TakeFirst | src/pfr_rdata.cpp:330-341 | round 0 takes the first peer that answered and stores an entry without a previous peer |
| Engine.Pfrd.MeasureDestination | src/pfr_rdata.cpp:327-390 | peer, metric and log record of one destination, from reset scratch variables |
| Engine.Pfrd.DecideDestination | src/pfr_rdata.cpp:398-451 | the stored entry is the decision from the entry of the round before, or a first entry |
| Engine.Pfrd.ScanDestination | src/pfr_rdata.cpp:326-455 | one iteration of the scan: all three tables, and the scratch variables are reset at the end |
| Engine.Pfrd.ScanAll | src/pfr_rdata.cpp:325-456 | the loop records for every destination what that destination alone determines |
| Engine.Pfrd.RouteScan | src/pfr_rdata.cpp:296-458 | the scan equals `Scanned`, and the global is back at its ceiling |
| Engine.Pfrd.FreeRounds | src/pfr_rdata.cpp:174-194 | one round of every destination is emptied in the measurements and erased in the decisions |
| Engine.Pfrd.RouteFree | src/pfr_rdata.cpp:166-198 | nothing before round 2, then exactly the round two back is freed |
| Engine.Pfrd.DeleteRRoute | src/pfr_rdata.cpp:664-688 | a destination is erased from both tables and withdrawn |
| Engine.Pfrd.IsSilent | src/pfr_rdata.cpp:624-634 | the flag stays up exactly when no round of the window logged an answering peer |
| Engine.Pfrd.Delete | src/pfr_rdata.cpp:603-647 | exactly the silent destinations with an entry of this round are erased and withdrawn |
| Engine.Pfrd.DeleteAll | src/pfr_rdata.cpp:649-662 | exactly the logged destinations with an entry of this round are erased and withdrawn |
| Engine.Pfrd.CreateRoute | src/pfr_rtr.cpp:235-285 | the route of one destination after explicit or implicit withdraw and add; no other route changes |
| Engine.Pfrd.RoutesMan | src/pfr_rtr.cpp:199-218 | announcing all destinations, skipping unchanged ones, equals `Advertised` |
| Engine.Pfrd.ProcessRound | src/pfrd.cpp:784-886 | the phases in the order of main, then shutdown or announcements |
| Engine.Pfrd.Round | src/pfrd.cpp:713-911 | a whole round, acknowledged or skipped, equals `RoundStep` and keeps the shape of the tables |
| Engine.Pfrd.RunAll | src/pfrd.cpp:713-911 | the endless loop over any run leaves the state `After` |
| Stats.Accumulate | src/pfr_rdata.cpp:711-725 | the loop over the replies of a peer computes the fold of its records |
| Stats.Aggregate | src/pfr_rdata.cpp:726-773 | the record filled in field by field is the statistics record of the fold |
| Stats.SumSplitsOff | src/pfr_rdata.cpp:711-725 | the sum of the times is the same in whatever order they are taken |
| Stats.FoldBounds | src/pfr_rdata.cpp:711-725 | count, minimum and maximum bound every time and are attained unless never improved |
| Stats.RoundedMeanBounds | src/pfr_rdata.cpp:726-726 | the rounded mean lies in [mean, mean + 0.01) |
| Stats.AggregateSound | src/pfr_rdata.cpp:705-784 | lost plus distinct replies are the requests, lost >= 0, minimum and maximum are attained bounds, mean <= average < mean + 0.01 |
| Stats.AggregateIs | src/pfr_rdata.cpp:705-784 | every field of a peer's statistics, without the loop: the loss, the least and the greatest time or the values they start from, as average the least number of hundredths that is not below the mean, metric0 that average, metric1 the minimum times one plus the loss, and the time of the last reply |
| RoundResults.StatisticsInRuns | src/pfr_rdata.cpp:690-786 | in every run: after a processed round the table of that round has exactly the peers it found replies of, each with its replies and their statistics in that sense |
| Stats.Metric1Pareto | src/pfr_rdata.cpp:735-736 | of two peers the one whose metric1 is not higher is not beaten in minimum rtt and loss together, where beaten says nothing about metric1 |
| PathChoice.ChosenNotBeaten | src/pfr_rdata.cpp:343-354 | under metric1 no peer of the round has both minimum rtt and loss at most those of the chosen one and one of them lower |
| PathChoice.ChosenNearFastest | src/pfr_rdata.cpp:343-354 | under metric0 no peer has a mean rtt lower than the chosen one's by 0.01 or more |
| Selection.ScanPeers | src/pfr_rdata.cpp:327-356 | the inner loop returns the lowest-numbered peer of least metric below the ceiling, or 0 |
| Selection.BestExists | src/pfr_rdata.cpp:351-354 | an argmin below the ceiling exists whenever some metric is below it |
| Selection.BestUnique | src/pfr_rdata.cpp:351-354 | and it is unique |
| Selection.BestZeroIff | src/pfr_rdata.cpp:351-381 | 0 is chosen exactly when no peer is below the ceiling |
| Selection.DecideLinks | src/pfr_rdata.cpp:398-445 | every entry names the peer of the entry before it, and one without a peer follows one without a peer |
| RoundResults.EntryInRuns | src/pfr_rdata.cpp:325-456 | in every run, from the statistics in the table alone: the whole entry of every routed destination, in round 0 and later, new or not, answered or silent, with the rule on or off |
| RoundResults.RuleOffInRuns | src/pfr_rdata.cpp:413-434 | in every run with the least-move rule off: a routed destination some peer answered below the ceiling has the lowest-numbered peer of least metric in that round's table, and that peer's metric |
| RoundResults.EntersInRuns | src/pfr_rdata.cpp:330-341 | in every run: the entry a destination enters the table with, in round 0 or later, records the metric that round's table shows for its peer |
| RoundResults.LogInRuns | src/pfr_rdata.cpp:368-450 | in every run: the log record of a round names the peer the round picks, its least and greatest reply time, its loss, its average and its metric, and zeros if none answered; later rounds keep it |
| Filing.LookupFiled | src/ping_proc_v4.cpp:70-73 | filing changes the reply's own slot only, and only when it is free |
| Filing.FirstReplyWins | src/ping_proc_v4.cpp:70-73 | after any run a taken slot keeps its record, a free one holds the first reply for it or stays free exactly when there was none |
| Filing.SlotsFiled | src/ping_proc_v4.cpp:70-73 | the set of stored slots grows by exactly the reply's slot, and a second reply changes nothing |
| Filing.FiledAllShape | src/ping_proc_v4.cpp:70-73 | filing never leaves a peer without replies and loses no destination or round |
| Filing.FiledAllFrame | src/ping_proc_v4.cpp:70-73 | rounds no reply belongs to keep their replies |
| Runs.StepShape | src/pfrd.cpp:784-886 | every round keeps the invariant of the tables: no empty peer, no entry of a later round, every routed destination measured |
| Runs.RunShape | src/pfrd.cpp:713-911 | the invariant holds after every run |
| RibAgreement.UpdateRibAt | src/pfr_rdata.cpp:235-274 | the update loop removes exactly the routes whose withdraw test held with the round number carried to them |
| RibAgreement.WithdrawnIff | src/pfr_rdata.cpp:235-244 | a destination that left the list is withdrawn if and only if it had a peer in the round before the one the loop is at; every other route stays |
| RibAgreement.NothingLostWhenKept | src/pfr_rdata.cpp:241-244 | with a round number of its own the loop withdraws every advertised destination that left the list |
| RibAgreement.RoundAgreement | src/pfrd.cpp:784-886 | after a round the advertised /32s are the destinations with a current peer, each towards it, if and only if the round lost no withdraw |
| RibAgreement.PrefixAgreement | src/pfrd.cpp:713-911 | the same for every prefix of a run |
| RibAgreement.RibAgreementIff | src/pfrd.cpp:713-911 | the loop as written: the RIB agrees after every round of a run if and only if no round loses a withdraw; what that takes is said by the rows of LostWithdraws |
| RibAgreement.RibAgreementKept | src/pfrd.cpp:713-911 | the intended loop: after every round p >= 1 of every run the RIB is exactly the current peers |
| RibAgreement.ShutdownRound | src/pfr_rdata.cpp:649-688 | a shutdown round empties the table, and what stays advertised is exactly what that round's update loop lost |
| RibAgreement.GracefulShutdown | src/pfrd.cpp:835-841 | in every run of the intended loop a shutdown leaves no route and nothing advertised |
| LostWithdraws.LostInOrdinaryRuns | src/pfr_rdata.cpp:235-263 | the loop as written loses a withdraw if and only if another destination vanished earlier in the order and this one had no peer two rounds ago |
| LostWithdraws.RoundLosesNothingIff | src/pfr_rdata.cpp:235-263 | after rounds that lost nothing, a round loses nothing if and only if no advertised destination vanishes behind another without a peer two rounds ago |
| LostWithdraws.OrdinaryRunAgreesIff | src/pfr_rdata.cpp:235-263 | over a run of the loop as written: the RIB agrees after every round if and only if in no round an advertised destination vanishes behind another without a peer two rounds ago |
| LostWithdraws.LostIff | src/pfr_rdata.cpp:235-263 | on any replies the loop as written loses a withdraw if and only if it drops another destination first and this one had no peer in the round before the last round of the one dropped last |
| LostWithdraws.WrittenRunAgreesIff | src/pfr_rdata.cpp:235-263 | over a run of the loop as written, on any replies: the RIB agrees after every round if and only if in no round an advertised destination that leaves the list comes too late in this sense |
| LostWithdraws.RunTight | src/pfr_rdata.cpp:235-263 | in such runs every measured destination has a table of the round before and none later |
| Arrivals.BothArrive | src/pfrd.cpp:784-886 | two destinations that answer in round 1 are routed, and the RIB agrees with the table: how the example runs begin |
| LostWithdraws.WithdrawLost | src/pfr_rdata.cpp:241-248 | for any two destinations listed in two rounds and then replaced by any others, a run of three rounds under metric0 in which a route stays advertised though no table knows it |
| LostWithdraws.LostStays | src/pfr_rdata.cpp:241-248 | a lost withdraw leaves the route advertised at the end of the round |
| SkippedRounds.AgreementAfterGapIff | src/pfrd.cpp:784-784 | after skipped rounds the next round agrees if and only if every advertised destination is renewed in it: listed and answered or without an answer in the logged window, or withdrawn by the update loop |
| SkippedRounds.AgreementWithSkipsIff | src/pfrd.cpp:713-911 | over every run of either loop with any rounds skipped: the RIB agrees after every processed round if and only if each round after a processed one loses no withdraw and each round after a skipped one renews all that is advertised |
| SkippedRounds.RouteLeftBySkip | src/pfr_rdata.cpp:241-244 | for any two destinations replaced by any others right after a skipped round, a run of the intended loop that leaves a route advertised though no table knows it |
| ListExamples.WithdrawLostOnLists | src/pfr_dst_list.cpp:94-133 | for any five addresses that are not local: that run on a list at start and two rebuilds of it, from buffers in which a customer talks to two and then to the three others |
| ListExamples.RouteLeftBySkipOnLists | src/pfr_dst_list.cpp:94-133 | the same for the run with a skipped round |
| LateStart.FirstAnnouncingIff | src/pfr_rtr.cpp:208-276 | in every run the first round that announces brings the RIB in agreement if and only if it announces unchanged destinations too or no destination keeps the peer of the round before |
| Suppression.AdvertisedAt | src/pfr_rtr.cpp:199-285 | what the announcements of a round do to each destination, case by case, and that they touch no table |
| Suppression.AdvertiseEqualIff | src/pfr_rtr.cpp:208-276 | from any state, suppressed and full announcing give the same routes if and only if each skipped destination is already advertised towards its peer and none without a peer is withdrawn explicitly |
| Suppression.RoundEqual | src/pfr_rtr.cpp:199-285 | from a state of a run the two give the same round |
| Suppression.SuppressionRefines | src/pfr_rtr.cpp:199-285 | over every run, skipped rounds included, suppressing unchanged destinations and either kind of withdraw give the state of announcing everything |
| Silence.LogHistory | src/pfr_rdata.cpp:392-450 | in every run the log of a destination is exactly the history of its scans |
| Silence.DeletionAt | src/pfr_rdata.cpp:603-647 | one round keeps exactly the scanned destinations with an answer in the window |
| Silence.SilenceDeletionExact | src/pfr_rdata.cpp:603-647 | in every run, after a round later than `deep_delete` a destination is in the table if and only if it was scanned and answered in one of the last `deep_delete` + 1 rounds, and after an earlier one if and only if it was scanned |
| Silence.RecordWindow | src/pfr_rdata.cpp:163-198 | with no reply more than a round late, each destination has decisions of the last two rounds only and no older replies |
| Hysteresis.BeatsIff | src/pfr_rdata.cpp:415-425 | the test is exactly: recorded metric above (1 + t/100) times the new one |
| Hysteresis.FollowsBestIff | src/pfr_rdata.cpp:413-434 | the best peer of a round is taken over if and only if it is current already or beats the recorded metric by the factor |
| Hysteresis.StayShrinks | src/pfr_rdata.cpp:398-440 | over a stay, silent rounds included, every move divides the recorded metric by more than the factor |
| Hysteresis.MetricNeverRises | src/pfr_rdata.cpp:398-440 | over a stay the recorded metric never rises |
| Hysteresis.FlapBound | src/pfr_rdata.cpp:398-440 | k moves imply (1 + t/100)^k * L < entry metric, and peers change only in moves |
| Hysteresis.LinearBound | src/pfr_rdata.cpp:413-425 | the power bound implies a linear one: k * t * L < 100 * (entry - L) |
| Hysteresis.Competitive | src/pfr_rdata.cpp:413-434 | in a stay without silence the recorded metric is between M and (1 + t/100) * M, M the least metric seen |
| Hysteresis.StuckAtZero | src/pfr_rdata.cpp:385-434 | from a recorded metric of 0 no later round moves the destination |
| Hysteresis.StuckAfterSilence | src/pfr_rdata.cpp:399-434 | a silent round of a stay keeps the peer, and no later round of the stay moves the destination |
| Stays.RunStay | src/pfr_rdata.cpp:296-458 | the entries of a destination routed over consecutive rounds of a run form a stay |
| Stays.FlapBoundInRuns | src/pfr_rdata.cpp:399-434 | in every run: the metric never rises and c peer changes imply (1 + t/100)^c * L < entry, however long the stay |
| Stays.CompetitiveInRuns | src/pfr_rdata.cpp:413-434 | in every run: a stay without silence tracks the least metric within the threshold |
| Stays.StuckInRuns | src/pfr_rdata.cpp:385-434 | in every run: a stay that starts from a recorded 0 keeps its peer to the end |
| Stays.StuckAfterSilenceInRuns | src/pfr_rdata.cpp:399-434 | in every run: after a silent round the destination keeps its peer to the end of its stay, however good the paths |
| Ownership.Records.FileReply | src/ping_proc_v4.cpp:70-73 | a record is allocated only for a free slot, nothing leaks |
| Ownership.Records.FreeRound | src/pfr_rdata.cpp:174-194 | exactly the records of one round are freed |
| Ownership.Records.DropDst | src/pfr_rdata.cpp:669-687 | exactly the records of one destination are freed, none is erased unfreed |
| Ownership.Records.DropAll | src/pfr_rdata.cpp:649-661 | the same for a set of destinations, in any order |
| Ownership.Records.OverwriteAll | src/pfr_rdata.cpp:727-727 | storing records loses exactly one for each place that was taken |
| Ownership.Records.StoreStats | src/pfr_rdata.cpp:727-727 | statistics take one place for each peer with a reply, and lose exactly the replies numbered 99 they overwrite |
| Ownership.Records.MeasureRound | src/pfr_rdata.cpp:325-456 | a round adds one statistics record for each peer with a reply and one entry for each routed destination |
| Ownership.Records.Do | src/pfrd.cpp:784-886 | every operation keeps the correspondence of places and live records, takes and releases exactly its places, and leaks exactly what it overwrites |
| Ownership.NothingLost | src/pfr_rdata.cpp:727-727 | a sufficient condition: nothing is lost while rounds are measured in order and no reply is numbered 99 |
| Leaks.LostAllIff | src/pfr_rdata.cpp:727-727 | a sequence of operations loses nothing if and only if at each measuring of a round no place numbered 99 of that round is taken |
| Ownership.Records.Perform | src/pfrd.cpp:713-911 | for every sequence of operations: no double free, the places taken are those the operations leave, allocated minus freed equals stored plus leaked, and leaked are exactly the statistics stored over replies numbered 99 |
| RunRecords.AggregatedPlaces | src/pfr_rdata.cpp:705-784 | aggregation takes exactly the statistics places of the peers with a reply |
| RunRecords.MeasuredPlaces | src/pfr_rdata.cpp:325-456 | statistics and scan take exactly the places of the measuring operation |
| RunRecords.FreedPlaces | src/pfr_rdata.cpp:166-198 | freeing the round two back releases exactly the places of that round |
| RunRecords.ProcessingPlaces | src/pfrd.cpp:784-886 | the phases of a round, in order, do to the records what their operations say |
| RunRecords.RunPlaces | src/pfrd.cpp:713-911 | after every run the tables hold exactly the places its operations leave taken |
| RunRecords.RunInOrder | src/pfrd.cpp:713-911 | a run measures its rounds in increasing order, as no entry may be stored twice |
| RunRecords.RunLosesNothing | src/pfr_rdata.cpp:690-786 | a sufficient condition: a run without a reply numbered 99 loses no record |
| RunRecords.RunLosesNothingIff | src/pfr_rdata.cpp:690-786 | a run loses no record if and only if no processed round finds a reply of its own numbered 99 in the table |
| RunRecords.RecordLost | src/pfr_rdata.cpp:727-727 | for any destination, a run of one round with 100 requests that loses a record |
| RunRecords.PerformRun | src/pfrd.cpp:713-911 | over a whole run from empty tables: the stored records are those of the tables, no double free, allocated minus freed records are the stored ones plus those lost, and none is lost without a reply numbered 99 |
| Handshake.StepKeeps | src/pfrd.cpp:758-898 | every step of every thread keeps the invariant |
| Handshake.RunInv | src/pfrd.cpp:758-898 | the invariant holds in every reachable state |
| Handshake.HandshakeSafety | src/pfrd.cpp:774-898 | acknowledged implies requested; tables are worked on only with all senders finished; at most one reply is filed in the processing window and none while records are freed; records have been freed when main comes to delete exactly from round 2 on; every packet that came in is filed once, but for the one at hand |
| Handshake.AcknowledgedAfterAsking | src/pfrd.cpp:774-784 | a sufficient condition: unless the round before was skipped, the acknowledgement acted on came after this round's request |
| Handshake.ActsOnFreshIff | src/pfrd.cpp:774-784 | from every reachable state in which main asks: in all continuations main works on the tables of this round only with an acknowledgement of this request, if and only if none is standing when it asks |
| Handshake.NoCircularWait | src/ping_readloop.cpp:67-76 | main and the receiver never wait for each other |
| Handshake.DeadlockFree | src/pfrd.cpp:758-898 | until main exits some thread can move, and each unfinished sender can move or waits for a mutex whose holder, a sender, can |
| Handshake.StaleAcknowledgement | src/pfrd.cpp:878-898 | a reachable state in which main works on the tables with an acknowledgement older than its request |
| Progress.AlwaysGetsOn | src/pfrd.cpp:758-842 | from every reachable state main can still come to process the tables, acknowledged and with all senders finished |
| Progress.CanShutDown | src/pfrd.cpp:835-841 | from every reachable state the daemon can still be shut down |
| Progress.NextRound | src/pfrd.cpp:883-911 | from every reachable state main can still come to announce with both flags taken back and its mutex held, and then start the next round |
| Progress.CrewStarts | src/pfrd.cpp:746-756 | any number of senders can be running before main joins them |
| Octets.SwapEndian | src/ping_send_v4.cpp:34-45 | the byte loop returns the number with its bytes reversed |
| Octets.SwapInverts | src/ping_proc_v4.cpp:13-26 | the swap undoes itself, is the same function on hosts of both byte orders, and leaves network order in the memory of a little endian host |
| Octets.RoundTrip | src/ping_send_v4.cpp:34-45 | a number stored in memory reads back, in either byte order |
| Octets.ReadBack | src/ping_send_v4.cpp:34-45 | bytes read as a number store back to the same bytes |
| Checksum.Accumulate | src/ping_in_cksum.cpp:16-25 | the 32-bit loop, odd byte included, holds the sum of the words modulo 2^32 |
| Checksum.InCksum | src/ping_in_cksum.cpp:4-32 | for buffers of at most 131074 bytes the result is the checksum of the standard |
| Checksum.InCksumIsRfc1071 | src/ping_in_cksum.cpp:16-31 | up to 131074 bytes the accumulator does not overflow and two folds give the complement of the end-around-carry sum |
| Checksum.OddPadded | src/ping_in_cksum.cpp:22-25 | an odd byte at the end counts as if a zero byte followed it |
| Checksum.CarrySumIsCanon | src/ping_in_cksum.cpp:16-31 | the end-around-carry sum is the residue modulo 65535, with 0 only for an all-zero buffer |
| Checksum.FoldedIsCanon | src/ping_in_cksum.cpp:28-30 | the two folds compute that residue for every value of the accumulator |
| Checksum.PacketVerifies | src/ping_send_v4.cpp:228-230 | with the checksum stored in its zeroed, word-aligned field the packet checks to 0 |
| Checksum.ByteOrderIndependent | src/ping_in_cksum.cpp:16-31 | hosts of both byte orders put the same two bytes in the packet |
| Wire.Clock.Sub | src/tv_sub.cpp:3-11 | the subtraction in place equals `TvSub` |
| Wire.TvSubElapsed | src/ping_proc_v4.cpp:49-50 | the rtt is the elapsed microseconds over 1000, and a normal time stays normal |
| Wire.ReadInvertsPayload | src/ping_send_v4.cpp:215-225 | decoding the payload gives back the peer, round, thread and times it was built from, for all 32- and 64-bit values |
| Wire.PayloadLayout | src/ping_data.h:27-34 | the bytes of the payload record: two times as the host keeps them at 0 and 8, then peer, round, thread and clock with their bytes reversed at 16, 20, 28 and 36 |
| Wire.Receive | src/ping_proc_v4.cpp:28-63 | the nested tests and the decoding equal `Decode`, and the reception time is overwritten only for an accepted packet |
| Wire.SignedRoundTrips | src/ping_proc_v4.cpp:60-61 | an `int` key sent as an unsigned 32- or 64-bit field converts back to itself |
| Sender.BuildEcho | src/ping_send_v4.cpp:207-230 | a buffer nobody else writes holds exactly the sealed message, whatever the probe before left in it |
| Sender.PacketIff | src/ping_send_v4.cpp:191-230 | the sealed message of a probe is told byte by byte: type, code, checksum, identifier, its number modulo 65536, the six fields, and the fill pattern or fresh memory behind them |
| Sender.SendTo | src/ping_send_v4.cpp:196-248 | the packets one sender alone sends to one destination are, byte by byte, the probes numbered 0, 1, ... up to the configured count |
| Sender.SendV4 | src/ping_send_v4.cpp:178-248 | the nested loops of one sender alone send that batch to every destination in turn |
| Batches.ProbeDecodes | src/ping_proc_v4.cpp:34-63 | the echo of probe k of a batch is taken as the answer to probe k modulo 65536 of that peer and round, with its own time, and as nothing else |
| Batches.OneSlotEach | src/ping_proc_v4.cpp:70-73 | of a batch of at most 65536 probes the answered ones take one slot each, however often and in whatever order they are answered |
| Batches.AllSlots | src/ping_send_v4.cpp:206-207 | a batch that is answered completely fills as many slots as it has probes, or 65536 if it has more |
| SharedBuffer.StepInv | src/ping_send_v4.cpp:196-248 | every statement of every sender keeps what each sender may rely on: the header, and its own payload while it is the last to have copied one |
| SendOrder.EveryProbeOnce | src/ping_send_v4.cpp:178-248 | in every interleaving a sender that has come to its end has sent every probe of its own exactly once, destination by destination and by number, and nothing else |
| SharedBuffer.SendExactIff | src/ping_send_v4.cpp:207-248 | in every interleaving a sender sends the packet of its probe if and only if no other has copied a payload since it did and the number and the checksum in the buffer are its own |
| SharedBuffer.AnyTwoRace | src/ping_send_v4.cpp:225-248 | without a mutex any sender with a probe can be made to send the payload of any other |
| SharedBuffer.AddressRace | src/ping_send_v4.cpp:111-248 | even with a mutex over filling and sending any sender can be made by another that starts to send to the placeholder address |
| SharedBuffer.ReceiverRace | src/ping_readloop.cpp:20-21 | any sender, a lone one too, can be made by a receiver that starts to send to no address |
| SharedBuffer.AlwaysExactIff | src/ping_send_v4.cpp:207-248 | the packets of all interleavings are those of their probes if and only if one sender at most has something to send or a mutex is held from the number to the send |
| SharedBuffer.AlwaysAddressedIff | src/ping_send_v4.cpp:111-248 | the packets of all interleavings go to their destinations if and only if there is nothing to send, or one sender and a receiver that has started |
| SharedBuffer.SetupValid | src/ping_send_v4.cpp:215-225 | the payloads of the senders of a round differ, as each names its peer |
| SharedBuffer.PacketIs | src/ping_send_v4.cpp:207-230 | the packet a probe should be is the one a sender alone sends |
| SharedBuffer.CrewExactIff | src/pfrd.cpp:737-754 | a round of the program sends the packets of its probes in every interleaving if and only if it has at most one peer or nothing to send, and to their destinations if and only if it has nothing to send, or one peer and a receiver that has started |
| Pipeline.SealedVerifies | src/ping_send_v4.cpp:228-230 | every sealed message checks to 0 |
| Pipeline.OwnEchoDecodes | src/ping_proc_v4.cpp:34-63 | an echoed probe decodes to the host it came from and to the peer, round, number and time it was sent with, whatever header length, checksum and stale bytes |
| Pipeline.RepliesAreMeant | src/ping_proc_v4.cpp:28-73 | decoding a run of arrivals gives what was asked for each own probe and what the packet says for any other, in arrival order |
| Pipeline.PipelineFirstWins | src/ping_proc_v4.cpp:28-73 | after any run of arrivals, foreign packets included, a slot holds the first arrival for it, with its rtt if it is an own probe, and is free exactly when there was none |
| Foreign.TurnedDownIff | src/ping_proc_v4.cpp:36-45 | a packet is turned down if and only if it is not ICMP, not an echo reply, has another identifier, or less than 16 bytes of message |
| Foreign.OtherProcess | src/ping_proc_v4.cpp:42-43 | the echo of a probe with another identifier is turned down, whatever else it says |
| Foreign.LoopedBack | src/ping_proc_v4.cpp:41-41 | an own probe that comes in as it was sent is turned down |
| Foreign.ForeignLeavesTable | src/ping_proc_v4.cpp:36-45 | wherever such a packet comes in among others, the table is filled as if it had not |
| Pipeline.HostsDoNotMix | src/ping_proc_v4.cpp:52-71 | replies share a slot exactly when host, round, peer and number agree |
| Dotted.TextIffInetPton | src/pfr_customer.cpp:25-32 | reading a dotted address inverts writing it, and only that text is read as that address |
| Dotted.SplitOfJoin | src/pfr_customer.cpp:50-60 | cutting a text at a separator gives back the pieces it was joined from |
| Dotted.JoinOfSplit | src/pfr_customer.cpp:50-60 | joining the pieces gives back the text, and no piece has a separator |
| Prefix.MaskedIsCovered | src/pfr_lib.cpp:19-20 | equal masked words share the leading bits |
| Prefix.CoveredIsMasked | src/pfr_lib.cpp:19-20 | shared leading bits give equal masked words |
| Prefix.UpperIsFilled | src/pfr_customer.cpp:65-81 | the four branches set exactly the host bits of the address |
| Prefix.RangeIff | src/pfr_customer.cpp:90-95 | for every length 0 to 32 the signed range test accepts exactly the members not below the written address, for length 0 only if that is negative as an `int` |
| Prefix.RangeAgreesIff | src/pfr_customer.cpp:41-95 | the range test is prefix membership if and only if the written address has no host bits |
| Prefix.RawMaskTest | src/pfr_localnets.cpp:69-69 | comparing masked words without converting them gives the same answer on hosts of both byte orders |
| Cidrs.WrittenIsRead | src/pfr_customer.cpp:41-46 | a written prefix of length 0 to 32 is read back |
| Cidrs.BareAddress | src/pfr_customer.cpp:42-45 | an address without a length is read as a prefix as long as its first octet says, and as none if that is more than 32 |
| Cidrs.LocalListIsRead | src/pfr_localnets.cpp:43-50 | a list of prefixes of length 1 to 32 between commas is cut into them and each is read back |
| Networks.OctetsOf | src/pfr_customer.cpp:47-60 | the tokenising loop fills the four places with the pieces between the dots |
| Networks.Prefix4.constructor | src/pfr_customer.cpp:41-84 | from any text with a readable address and a length 0 to 32, with or without a slash or anything behind the digits, the bounds are the address and the address with its host bits set |
| Networks.Prefix4.UpperText | src/pfr_customer.cpp:62-82 | the text built by branch is the dotted text of the upper bound |
| Networks.Prefix4.IsPfxHit | src/pfr_customer.cpp:90-95 | a hit is a member of the prefix not below the written address |
| Networks.Customer.constructor | src/pfr_customer.cpp:133-137 | the list holds the rows' prefixes in order |
| Networks.Customer.IsPfxHit | src/pfr_customer.cpp:143-156 | the early-return loop accepts exactly the union of the ranges, and a text without a dot is never a hit |
| Networks.MaskTestIff | src/pfr_localnets.cpp:69-69 | the mask test on words in host memory order accepts exactly the members |
| Networks.IsHostInNetwork | src/pfr_lib.cpp:8-23 | the single-prefix mask test is membership for lengths 1 to 32 |
| Networks.ReadMask | src/pfr_localnets.cpp:50-53 | the mask of a length survives being printed and read |
| Networks.MaskTextFits | src/pfr_localnets.cpp:41-51 | the printed mask and its terminator fit the 15 characters they are printed into if and only if the length is at most 24 |
| Networks.LocalNets.constructor | src/pfr_localnets.cpp:40-56 | any text whose pieces between commas are readable nets parses to them in order, adjacent separators taken as one |
| Networks.LocalNets.IsHostInNetwork | src/pfr_localnets.cpp:64-74 | the flag loop accepts exactly the union of the prefixes |
| Networks.ListsAgree | src/pfr_customer.cpp:143-156 | for prefixes of length 1 to 32 without host bits the customer list and the local list accept the same addresses |
| DstList.StrTok | src/pfr_dst_list.cpp:95-95 | one call cuts the next non-empty piece in place, or leaves the buffer alone and says there is none |
| Tokens.PiecesOfSpread | src/pfr_dst_list.cpp:95-121 | words without a colon, with colons around them and at least one between two of them, are the tokens of the text they make |
| Tokens.SpreadOfPieces | src/pfr_dst_list.cpp:95-121 | and every text is its tokens with colons around them |
| DstList.Consider | src/pfr_dst_list.cpp:98-108 | a token is taken exactly for an outside destination not in the database whose source is a customer |
| DstList.Pass | src/pfr_dst_list.cpp:94-115 | the pass numbers the accepted destinations of all tokens from 0, and leaves a buffer that shows its first token only |
| DstList.GetMap | src/pfr_dst_list.cpp:33-42 | the map has exactly the rows' addresses |
| DstList.AppendDb | src/pfr_dst_list.cpp:127-133 | the database is appended, each address once, numbered on |
| DstList.DestinationList.First | src/pfr_dst_list.cpp:142-218 | the first list is always complete, however few destinations were accepted |
| DstList.DestinationList.Next | src/pfr_dst_list.cpp:53-140 | a later list is the previous one unchanged if fewer than three were accepted, else complete |
| DstList.KeptIff | src/pfr_dst_list.cpp:97-115 | accepted are exactly the destinations of tokens that pass the three tests |
| Listing.ListedIff | src/pfr_dst_list.cpp:97-133 | a complete list has in front, in token order, exactly the addresses behind the first comma of the tokens in front of which a customer address stands, that no local prefix has and the database does not have; behind them the database |
| Listing.RebuiltIff | src/pfr_dst_list.cpp:112-133 | a rebuild gives the previous list if at most two tokens ask for such an address, and otherwise a complete one |
| DstList.NoSource | src/pfr_dst_list.cpp:100-108 | a token without a comma is never taken |
| DstList.DatabaseOnce | src/pfr_dst_list.cpp:127-133 | in a complete list ids are positions and each database address stands exactly once, behind the accepted ones |
| DstList.StaleBuffer | src/pfr_dst_list.cpp:94-133 | rebuilding from a buffer no writer refreshed gives the previous list again, whatever the filter is by then |
| DstList.NeverEmptied | src/pfr_dst_list.cpp:112-133 | a rebuild of a list that is not empty is not empty |

## Left out

- Engine.Pfrd.RouteUpdate: erasing the element the outer iterator stands on is undefined in the program; the model walks a snapshot of the keys in any order.
- Engine.Pfrd.RouteScan: requires the global `min_rtt` at 50000 and nobody else writing it; the configured value and the writes of the SQL log thread are not modelled.
- Engine.Pfrd.ProcessRound: no reply is filed between the vanished-destination loop and the announcement, the sleep of 30 seconds included (src/pfrd.cpp:791); `Handshake.HandshakeSafety` shows that at most one could be.
- Engine.Pfrd.Round: all replies of a round are filed before its tables are worked on; the one reply of the line above would be filed with the next round.
- Engine.Pfrd.CreateRoute: an add for peer 0, which no configuration has, announces nothing; the command it would run has an empty community.
- Stats.Aggregate: metric2 to metric5, always 0, and the telemetry they are meant for are not stored.
- Stats.RoundedMeanBounds: exact reals; rounding of floating point is not modelled.
- Ownership.Records.Perform: the nested tables are flattened to their full keys, and log records, which the program never frees, are not counted.
- Handshake.HandshakeSafety: the mutex of the SQL log thread and the sleeps are not modelled; steps are atomic and flags are read and written in order.
- Wire.Receive: the receive buffer has at least 112 bytes (the program's has 1500), so that the payload of a short packet is read from bytes an earlier packet left.
- Sender.BuildEcho: the send buffer is this sender's alone; `SharedBuffer` says what happens when it is not.
- Sender.SendTo: the same.
- Sender.SendV4: the same, for one sender; the program runs one per peer.
- Pipeline.SealedVerifies: about sealed messages; what several senders send is sealed only under the condition of `SharedBuffer.AlwaysExactIff`.
- Pipeline.PipelineFirstWins: peers are naturals; a foreign packet that names a negative peer is filed by the program under that peer, where it touches no slot of another, and is dropped by the model.
- Pipeline.RepliesAreMeant: the same.
- SharedBuffer.AlwaysExactIff: a statement is one step, so a copy or a checksum another sender breaks into is not modelled; lines 191-199 are one step.
- SharedBuffer.AlwaysAddressedIff: an address is the destination's number; that the program frees it while others may read it, and that a sender reads its family through `pr` when opening its socket (src/ping_send_v4.cpp:124), are not modelled.
- Networks.Prefix4.constructor: where the text has no readable address or no length 0 to 32, the program throws or goes on with an address nobody set, and the model says nothing.
- Networks.Customer.constructor: the same for each row.
- Networks.IsHostInNetwork: lengths 1 to 32 and addresses only, as a shift by 32 is undefined and the words of other texts are never set.
- Networks.LocalNets.constructor: the same for each piece.
- Networks.ReadMask: for lengths 25 to 32 the text overruns its buffer by one character, as `Networks.MaskTextFits` says; what that overwrites is not modelled.
- DstList.DestinationList.First: every token's destination is an address text, as the mask test of any other is unspecified.
- DstList.DestinationList.Next: the same.
- The standard deviation and median of the times: no decision reads them, and the median of an odd count indexes one past the middle (src/pfr_rdata.cpp:844).
- PostgreSQL, shared memory, semaphores, sockets, NETCONF, SNMP, process and gRPC calls: only their effect on the RIB or on the inputs is kept.
- IPv6 paths, configuration parsing, rereading the configuration, logging, pid files and thread naming.
