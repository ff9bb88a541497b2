# Membership, broadcast and framing of a gossip member list

This project models a SWIM-style member list: members probe each other, suspect the silent ones,
refute suspicions about themselves, spread what they know by gossip and by push-pull exchanges, and
bundle messages into UDP packets. It states what the library keeps over whole runs and proves it.

| file | content |
|---|---|
| `Types.dfy` | ids, entries, claims (alive, suspect, dead, one element of a snapshot), events |
| `Confirmation.dfy`, `SuspicionTimer.dfy` | confirmers of a suspicion; its timer, as a value and as an object |
| `Node.dfy` | one member as a value: every handler is one atomic step |
| `NodeSafety.dfy`, `NodeRuns.dfy`, `Effects.dfy` | what a member keeps under arbitrary claims, even false ones; its whole runs; what exactly each claim does, by one rule of rank |
| `Cluster.dfy`, `Provenance.dfy`, `Guarantees.dfy`, `Accusation.dfy`, `Leaving.dfy`, `Spreading.dfy` | many members and a network that loses, repeats and reorders; what every run guarantees, where suspicions come from, when a departure takes effect, and how news reaches others |
| `PushPull.dfy` | merging snapshots |
| `Memberlist.dfy`, `RoundRobin.dfy` | the member as an object with node states shared by a list and a map, updated in place; probe order |
| `Queue.dfy`, `QueueRuns.dfy`, `Broadcasts.dfy`, `GossipQueue.dfy` | the broadcast queue: order, greedy pass, whole runs, the object, and a member together with its queue |
| `Compound.dfy`, `Dispatch.dfy`, `Packets.dfy` | compound messages, nested dispatch, packet sizes |

How the pieces fit. Start-up and every step of `Node` have a method of `Memberlist.Memberlist` that is
proved equal to them; the theorems are about those functions. `NodeSafety.NodeInv` is the invariant of one
member; it needs nothing of the claims delivered. `Provenance.Inv` adds that every claim anywhere is backed
by its subject. For that a run carries a record (`Cluster.Author`) of what each member has announced about
itself; the record steers nothing. `Cluster.net` holds every claim ever sent, so a delivery may come late,
twice, out of order or never.

A timeout is two steps, as in the code: a check under the read lock (`Fire`), then the kill (`Kill`), with
anything in between. `Leave` is modelled the same way: it sets its flag and reads its own lives number, and
applies its dead claim later. Timers whose suspicion is gone stay armed. A probe reads an entry and may
fail much later. The clock, the random positions of insertion and shuffling, the address allow-list, the
application's broadcast delegate, and the compression, checksum and encryption libraries are parameters.

Where the code and its intent differ, the model follows the code:

* The byte budget of a packet leaves out the 5 bytes of the checksum header and, for a piggybacked
  message, the 2 bytes of its length. So a piggybacked packet may exceed `UDPBufferSize` by 7 bytes
  (`Packets.FitsIffSlack`, `Packets.BudgetExceeded`), a gossip compound by 5 and a gossip message sent alone
  by 1 (`Packets.GossipFitsIff`, `Packets.GossipExceeds`).
* `sendMsgPiggyback` never splits its compound. With more than 254 gathered messages the count byte wraps
  and the receiver loses messages, with exactly 255 all of them and the carrier too
  (`Packets.PiggybackIffCounted`, `Packets.PiggybackLost`).
* `packCompoundMsg` truncates a count above 255 and lengths above 65535 (`Compound.RoundTripIffFits`).
* `unpackPacket` reads a type byte that need not be there: a packet of nothing but a valid checksum header
  crashes the receiver (`Packets.PanicsIffBare`).
* Intermediate suspicion timeouts are rounded down to milliseconds. So a minimum timeout that is not a
  whole number of milliseconds may be undercut, and the last confirmer may then move the deadline later
  (`SuspicionTimer.OrderlyIffPowers`, `SuspicionTimer.LastSetsBack`).
* A refutation between the two halves of `Leave` outruns it: the flag stays set, a second call does nothing,
  and nobody ever hears that the member left (`Leaving.LeaveTakesEffect`,
  `Leaving.LeaveIsOutrun`, `Leaving.OutrunIsLost`).
* `UpdateTags` crashes without an own entry. Until a member leaves, that is the case exactly if its own
  address is not on its allow-list (`Leaving.OwnEntryListed`); afterwards also once the entry is reaped.
* `Resize` to a negative size crashes once the queue is empty (`Broadcasts.TransmitCapQueue.Resize`).

## Model

| member | source | states |
|---|---|---|
| NodeSafety.HandleOnlyAt | state.go:103-304 | a handler changes only what the member holds about the subject of the claim: entry, suspicion and queued message of every other id stay, as do identity, left flag, decided kills and probes |
| NodeSafety.AliveEventsExact | state.go:118-181 | after an alive claim the events, replayed, still give exactly the live entries, also when a returning member has new tags and both a join and an update are sent |
| NodeSafety.DeadEventsExact | state.go:271-304 | after a dead claim the events, replayed, still give exactly the live entries, whether the claim is applied, refuted or ignored |
| NodeSafety.HandleKeeps | state.go:103-304 | every claim, true or forged, keeps the member invariant: suspicions index the suspects, the own entry is sound, queued gossip describes the table, suspects are watched, events are exact |
| NodeSafety.KillKeeps | state.go:240-248 | a kill decided earlier and applied now keeps the invariant, although the suspect it was decided for loses its watcher in that step |
| NodeSafety.FireKeeps | state.go:230-238 | a timer that fires hands its suspect over to a decided kill, so no suspect is left unwatched, and a stale timer does nothing |
| NodeSafety.ReapKeeps | maintenance.go:192-210 | reaping keeps the invariant; the live part of the table and the event view do not change |
| NodeSafety.RunKeeps | state.go:103-304 | the member invariant holds after every sequence of steps |
| NodeRuns.StepForward | state.go:159-181 | while an id stays in the table, a step leaves its entry as it is or moves (lives, alive < suspect < dead or left) strictly up, keeping the address |
| NodeRuns.RunForward | state.go:189-218 | no interleaving of old messages rolls an entry back during one residence in the table |
| NodeRuns.SuspicionsClimb | state.go:195-250 | within one residence, successive suspicions of an id are at strictly rising lives numbers |
| NodeRuns.RefutationDefeatsKill | state.go:230-249 | once an entry's lives number is above that of a decided kill, the kill, however late, changes nothing but the list of pending kills |
| NodeRuns.SuspectGetsVerdict | state.go:214-251 | from any sound state, the two timeout steps of a suspect mark exactly that entry dead at its lives number and send one leave event |
| NodeRuns.EventsTellMembership | memberlist.go:344-354 | in every run from start-up, replayed events give exactly the id-to-member map of entries neither dead nor left, with the same size, and joins and leaves of each id alternate beginning with a join |
| NodeRuns.GossipIsFresh | state.go:290-299 | in every run, in the view of the queue by name, a message queued under a known id is about that id, has the kind of its current state with the same left flag, its lives number, or for a suspicion a later one, and for an alive message its tags |
| NodeRuns.SuspicionsAreWatchedSuspects | state.go:220-250 | in every run, suspicions are exactly the suspect ids, and each suspect has an armed timer or a decided kill for exactly its id and lives number |
| Effects.RowFollowsRank | state.go:103-304 | all kinds of claims about another member follow one rule: an announcement replaces the row exactly if its lives number is higher, an accusation exactly if it argues for a graver state at no lower lives number; the clock is read exactly when the state changes, and an unknown member is listed only by an announcement from an allowed address |
| Effects.OwnRowFollows | state.go:203-288 | the own row: an accusation at no lower lives number is refuted one above counter and claim, except that a death is accepted once leaving; announcements count until then |
| Effects.OwnClaimAnswered | state.go:254-269 | a refutation is announced and queued at the counter's new value; an accepted death is queued |
| Effects.NewsIsPassedOn | state.go:214-250 | every piece of news is queued under its subject's name; a first suspicion, whoever it is from, records that confirmer, the number of confirmers it waits for and a timer at its lives number; other news ends the suspicion |
| Effects.ConfirmationCounts | state.go:194-200 | a further suspicion of a suspect counts and is passed on exactly if it comes from a new confirmer below the cap |
| Effects.NoNewsNoEffect | state.go:189-205 | any other claim about another member changes nothing at all |
| Effects.NoIdleEvents | state.go:118-128 | a claim sends one notification if its subject comes or goes and one if a known member's tags change, and no other |
| Effects.TimerDecidesIff | state.go:230-238 | a timer decides a kill exactly if its subject is still suspect at the timer's lives number |
| Effects.ProbeReadsIff | maintenance.go:138-142 | a probe is of any other member alive or suspect, at the lives number held |
| Effects.ReapedIff | maintenance.go:212-230 | reaping removes exactly the entries dead or left for longer than the expiry |
| Provenance.EchoIgnored | state.go:103-107 | a claim of its own aliveness that comes back to a member changes nothing |
| Provenance.RefutationMints | state.go:254-269 | a refutation of a backed claim takes exactly one lives number and keeps every claim backed |
| Provenance.StepVouched | state.go:103-304 | every step of a member of a cluster leaves what it holds, queues, times and plans backed by the subjects' own announcements, and those records only grow |
| Provenance.PlayKeeps | memberlist.go:139-169 | in every run of a cluster every claim, in flight or held, is backed by its subject |
| Guarantees.LivesProvenance | state.go:99-101 | no entry, queued or in-flight message, snapshot element, timer, probe or decided kill about a member carries a lives number above the member's own counter |
| Guarantees.RefutationOutranksAll | state.go:254-269 | a refutation takes one lives number, never loops, and outranks every claim about the member that exists at that moment |
| Guarantees.AnnouncementPrevails | state.go:159-181 | at the moment a member makes its next announcement, any other member that allows its address would take it over with its lives number and tags, whatever was claimed before |
| Guarantees.AnnouncementArrives | state.go:130-181 | whenever an announcement in flight reaches another member that allows its address: if it is news it is taken over with its lives number and tags, else nothing changes; either way that member then holds the sender at its address, at that lives number or a later one, and if alive at exactly that one with its tags |
| Spreading.ClaimArrives | state.go:103-304 | whenever any claim in flight reaches another member in any run, the row changes by that rule |
| Spreading.DeathArrives | state.go:271-304 | a death that arrives at a member holding its subject alive or suspect at no higher lives number makes it dead, or left, at that number; nobody told holds the subject live at that number or below |
| Spreading.SuspicionArrives | state.go:184-251 | a suspicion that arrives at a member holding its subject alive at no higher lives number makes it suspect at that number; nobody told holds the subject alive at that number or below |
| Spreading.OwnIsCurrent | state.go:254-269 | in every run a member that has not left holds itself alive at exactly its counter's value |
| Spreading.LeaveIsHeard | memberlist.go:262-289 | in every run, a member that leaves undisturbed and sends its farewell is held as left by whoever hears it while holding it alive or suspect, whatever was claimed before |
| Spreading.SuspicionIsHeard | maintenance.go:188-189 | in every run, a failed probe of a live member, sent on, makes a hearer that holds it alive at no higher lives number suspect it, with the prober as confirmer and a timer |
| Spreading.DeathIsHeard | state.go:230-249 | in every run, a suspicion that times out, sent on, makes a hearer that holds the suspect live at no higher lives number hold it dead, whether it suspected it or not |
| Spreading.TagsAreHeard | memberlist.go:313-330 | in every run, new tags of at most 512 bytes take effect at the next lives number and are taken over by whoever is told and allows the address |
| Spreading.TableIsSent | pushpull.go:132-146 | a pushed table puts each row in flight with its lives number, address, tags and state |
| Guarantees.Agreement | state.go:134-144 | any two members hold a third at the same address, and if both hold it alive at the same lives number, with the same tags |
| Guarantees.LeavingIsTruthful | memberlist.go:262-289 | a left entry, snapshot element, message or pending kill exists only about a member that has set its left flag |
| Guarantees.OwnEntryTruthful | state.go:203-212 | a member's own entry is never suspect, and is dead or left only after its left flag is set |
| Guarantees.ClosedEntryStays | state.go:276-279 | no step changes a dead or left entry unless an alive claim with a higher lives number arrives |
| Guarantees.LeftIsFinal | pushpull.go:217-219 | whoever holds a member as left keeps exactly that entry over any run until it is reaped; so does a member that has closed its own entry |
| Guarantees.DepartureIsFinal | state.go:103-107 | a member with its left flag set whose own entry is closed or gone never holds itself alive again |
| Accusation.HandleGrounded | state.go:184-304 | handling a claim whose accusation goes back to a failed probe leaves a member with only such entries, messages, timers and kills |
| Accusation.PlayGrounded | maintenance.go:188-189 | in every run each suspicion and death without leave, in flight or held, goes back to a failed probe |
| Accusation.AccusationProvenance | maintenance.go:150-190 | wherever in a run a member is said to be suspect, or dead without having left, by an entry, message, snapshot element, timer or pending kill, a probe of it by another member at exactly that lives number has failed before |
| Leaving.ListedIsAllowed | state.go:108-111 | in every run, every listed member's own address is on the allow-list of the member that lists it |
| Leaving.OwnEntryListed | state.go:108-111 | in every run, a member that lists itself has its address on its allow-list, and until it leaves the converse holds too |
| Leaving.LeavePlans | memberlist.go:262-287 | the first call with an own entry sets the flag and plans the left claim at the own lives number; any other call plans nothing |
| Leaving.UndisturbedLeave | memberlist.go:274-287 | with nothing in between, the own entry becomes left, the farewell is queued, and a leave event is sent |
| Leaving.LeaveTakesEffect | memberlist.go:262-289 | whatever happens between the two halves of a leave, the own entry, unless it is reaped, ends left exactly if it is left already or still alive at the lives number that was read |
| Leaving.SuspicionOutruns | state.go:207-212 | a suspicion of itself that arrives in between leaves the flag set, the own entry alive above the number read, and nothing to a second call |
| Leaving.LeaveCanBeOutrun | memberlist.go:274-287 | in every run with a suspicion of a member at its current lives number in flight, a leave that begins before it arrives is outrun |
| Leaving.LeaveIsOutrun | memberlist.go:262-289 | for any two ids there is a run from start-up in which that happens: one member hears of the other, probes it in vain and sends its suspicion |
| Leaving.OutrunIsLost | state.go:276-279 | once a leave is outrun, no entry of any member and no message ever says that the member left |
| PushPull.StaleIsIgnored | pushpull.go:205-227 | an element that tells a member nothing new leaves its whole state unchanged |
| PushPull.MergedIsStale | pushpull.go:205-227 | an element just merged tells nothing new, in every state and for every kind of element |
| PushPull.MergeIsIdempotent | pushpull.go:205-227 | merging a snapshot with distinct ids twice is merging it once: table, counter, suspicions, queue, timers and events |
| PushPull.RowAfterMerge | pushpull.go:205-227 | what a snapshot does to the entry of a third member is what its single element about it does, wherever that stands |
| PushPull.ExchangeConverges | net_handlers.go:453-464 | after both sides merge the other's snapshot taken before merging, a third member that one held alive is held by both at the larger lives number and in the same state, except dead beside suspect |
| Memberlist.InsertIndexed | state.go:145-151 | appending a node and swapping it to a random place keeps the map an exact index of the list by distinct ids |
| Memberlist.IndexSize | state.go:222-225 | list and map have the same size, so the node count used for the confirmation cap is the table's |
| Memberlist.Memberlist.AliveNode | state.go:103-182 | the in-place handler does exactly the value-level alive step and keeps list, map and count consistent |
| Memberlist.Memberlist.Refute | state.go:254-269 | the counter loop stops at one above the larger of counter and claim, and exactly that number is stored and announced |
| Memberlist.Memberlist.SuspectNode | state.go:184-251 | the in-place handler does exactly the value-level suspect step |
| Memberlist.Memberlist.DeadNode | state.go:271-304 | the in-place handler does exactly the value-level dead step |
| Memberlist.Memberlist.MergeState | pushpull.go:205-227 | the loop merges the whole snapshot in order |
| Memberlist.Memberlist.FireTimer | state.go:230-238 | the check under the read lock decides a kill only for a suspect at the timer's own lives number |
| Memberlist.Memberlist.BeginLeave | memberlist.go:262-287 | the method does exactly the value-level first half of a leave |
| Memberlist.Memberlist.UpdateTags | memberlist.go:313-330 | tags over 512 bytes are refused without effect; others crash exactly if there is no own entry, and else are announced at the next lives number |
| Memberlist.Memberlist.SetAlive | memberlist.go:214-232 | a new member with tags within the limit takes lives number 1 and announces itself; others are refused without effect |
| Memberlist.Memberlist.BeginProbe | maintenance.go:120-148 | a probe starts unless nobody is eligible; it is of the next eligible node of the round, where the position then stands, and holds the claim that its failure will make |
| Memberlist.Memberlist.FailProbe | maintenance.go:184-189 | a failed probe applies the claim read when it started |
| Memberlist.Memberlist.LocalState | pushpull.go:132-146 | the snapshot has one element for each known id, with distinct ids and the entry's fields |
| Memberlist.Memberlist.NumActive | memberlist.go:344-354 | the count is the number of entries neither dead nor left |
| Memberlist.SwapExpiredToEnd | maintenance.go:212-230 | the loop with backtracking ends, is a permutation, and splits the array exactly into unexpired and expired |
| Memberlist.ExpiredIff | maintenance.go:214-222 | a node is expired exactly if it has been dead or left for longer than the timeout |
| Memberlist.PermutedIndexed | maintenance.go:208-209 | the index survives any shuffle of the list |
| Memberlist.TrimmedIndexed | maintenance.go:196-207 | deleting the ids of the cut-off end leaves an exact index of what is kept |
| Memberlist.Memberlist.Reap | maintenance.go:192-210 | reaping in place removes exactly the expired dead and left entries and keeps list, map and count consistent |
| Memberlist.Memberlist.NextProbeNode | maintenance.go:128-148 | from any position, even past the end, the nested loops end at the next eligible node of the round, or report none |
| Memberlist.EligibleIff | maintenance.go:138-142 | exactly the other members alive or suspect are probed |
| RoundRobin.FailsIffNobody | maintenance.go:128-148 | the search fails exactly when no node is eligible |
| RoundRobin.RoundIsFair | maintenance.go:128-148 | with k eligible nodes and an unchanged list, any k calls in a row return each exactly once |
| SuspicionTimer.HistoryKeeps | suspicion.go:23-80 | over any confirmations and clock readings, armed timers and firings together are exactly one, confirmers are at most max(1, cap), and news was reported once for each confirmer but the first |
| SuspicionTimer.FiresInTime | suspicion.go:47-58 | every deadline and firing is at least the minimum timeout in whole milliseconds after the start, no deadline is past the maximum, and news is reported at most max(1, cap) - 1 times |
| SuspicionTimer.DeadlineIsExact | suspicion.go:47-80 | over any history, the confirmers counted are the distinct ones heard up to the cap, and the armed deadline is the start plus the maximum, the minimum, or the exact value for their number rounded down to a millisecond |
| SuspicionTimer.FiresExactly | suspicion.go:60-80 | the clock fires an armed timer exactly at its deadline, a new confirmer exactly if the timeout it brings is over, and nothing else changes it |
| SuspicionTimer.DeadlineNeverLater | suspicion.go:60-80 | over any history the deadline never moves later if rounding is safe, and never by more than the sub-millisecond part of the minimum timeout, or not at all for a cap of at most 2 |
| SuspicionTimer.OrderlyIffSafe | suspicion.go:47-58 | for each given ratio, no deadline is before the minimum timeout, and none is later than that of fewer confirmers, each if and only if the unrounded timeout of the last but one confirmer reaches the minimum rounded up to milliseconds, or the cap is at most 2 |
| SuspicionTimer.KeepsMinIffWhole | suspicion.go:53-57 | deadlines respect the minimum timeout for every rising ratio if and only if it is a whole number of milliseconds or the cap is at most 2 |
| SuspicionTimer.FallsIffWhole | suspicion.go:53-57 | deadlines never move later for every rising ratio if and only if the minimum timeout is a whole number of milliseconds or the cap is at most 2 |
| SuspicionTimer.LogarithmsAreLogarithmic | suspicion.go:53 | log k / log cap, fixed by the fractions not below it, lies between 0 and 1 and rises with k |
| SuspicionTimer.OrderlyIffPowers | suspicion.go:47-58 | with these logarithms, no deadline is before the minimum timeout, and none moves later, each if and only if (cap - 1)^(max - min) <= cap^(max - min rounded up to milliseconds) with that minimum at most the maximum, or the cap is at most 2 |
| SuspicionTimer.LastSetsBack | suspicion.go:60-80 | if rounding is not safe and all confirm in time, the last confirmation of the history moves the armed deadline later |
| SuspicionTimer.RoundingUndercuts | suspicion.go:53-57 | with equal timeouts that are not whole milliseconds, the second of at least three confirmers sets a deadline before the minimum, and the last one moves it later |
| SuspicionTimer.Suspicion.constructor | suspicion.go:23-44 | a new suspicion has one confirmer and the maximum timeout, or the minimum when one confirmer is enough |
| SuspicionTimer.Suspicion.Confirm | suspicion.go:60-80 | the method reports news exactly for a new confirmer below the cap, and resets or fires the timer as the value-level step does |
| Queue.LeastExists | broadcast.go:25-34 | distinct ids make the order on items total enough that every queue has a least item |
| Queue.SortedIsUnique | broadcast.go:25-34 | there is only one way to sort a queue by the order |
| Queue.SortedGoesFirst | broadcast.go:25-34 | the queue gives up what was sent least, then what is longest, then what is newest |
| Queue.PickFillsBudget | broadcast.go:73-87 | the messages picked with their overhead stay within the size, and then either less than 20 bytes and an overhead remain or nothing left would fit |
| Queue.PickPartitions | broadcast.go:73-90 | picked and passed-over items together are the queue, without overlap, each in the queue's order |
| Queue.PickIsGreedy | broadcast.go:73-87 | an item is picked exactly if it, or a minimal message if that is longer, fits beside the items picked before it |
| Queue.PassedOverDidNotFit | broadcast.go:73-87 | nothing is passed over in favour of something sent more often unless it did not fit when it was looked at |
| QueueRuns.LimitIsLogarithmic | broadcast.go:108-111 | the ceiling of log10(n + 1) is the number of decimal digits of n, and nothing else is; the limit is the scale times it |
| QueueRuns.QueueMsgKeeps | broadcast.go:113-143 | queueing keeps ids, serials and names distinct and ids below the counter, and finishes exactly the replaced message |
| QueueRuns.GetMessagesKeeps | broadcast.go:61-106 | handing messages out keeps the accounts, also when the counter is reset |
| QueueRuns.TakenExactly | broadcast.go:88-104 | an item passed over stays as it is; one picked is counted and stays until it was sent as often as the limit says, and then it is finished; the id counter starts over exactly when the queue is empty |
| QueueRuns.Accounted | broadcast.go:61-166 | over all calls each message ever queued is still queued or was finished exactly once, and none was handed out more than max(1, largest limit) times |
| QueueRuns.NamesFollowCalls | broadcast.go:133-153 | queueing under a name replaces what was there and touches no other name; handing out and resizing put nothing under a new name |
| Broadcasts.TransmitCapQueue.Push | broadcast.go:133-143 | the item replaces exactly the queued item of its name, which is finished, and the index stays exact |
| Broadcasts.TransmitCapQueue.Pop | broadcast.go:145-153 | the item sent least, then longest, then newest leaves the queue and the index |
| Broadcasts.TransmitCapQueue.QueueMsg | broadcast.go:113-131 | the method does exactly the value-level queueing and keeps the accounts |
| Broadcasts.TransmitCapQueue.GetMessages | broadcast.go:61-106 | the three loops return the messages of the greedy pass over the sorted queue, in order, and leave the queue of the value-level step |
| Broadcasts.TransmitCapQueue.Resize | broadcast.go:155-160 | the items that would go out first are finished until the size is reached; a negative size empties the queue and crashes |
| Broadcasts.ResizeDropsFront | broadcast.go:155-160 | resizing keeps as many items as asked for and drops none that would go out after one it keeps |
| GossipQueue.StepSaid | state.go:118-121 | each step of a member changes the queue by name exactly by the claim it broadcasts |
| GossipQueue.WorkKeeps | broadcast.go:113-160 | over any steps of a member and calls on its queue, the named queue items are exactly the encodings of the member's claims by name |
| GossipQueue.QueuedIsFresh | state.go:290-299 | in every run of a member with its queue, an item queued under a name is the only one of that name, and for a known member it encodes a claim about that member that describes its current entry |
| Compound.RoundTripIffFits | util.go:61-108 | unpacking what was packed gives the same list with nothing truncated if and only if there are at most 255 messages, each below 65536 bytes |
| Compound.CutCompound | util.go:75-108 | a compound cut at any byte gives an error inside the header, and else the messages that are still whole, in order, with the rest counted as truncated |
| Compound.WholeIsLargest | util.go:96-106 | the number of messages still whole is the largest that fits the bytes left |
| Compound.HeaderLayout | util.go:62-73 | a compound is its type byte 8, the count, two bytes for each length with the high one first, and the messages |
| Compound.SplitRoundTrip | util.go:48-59 | unpacking all chunks of a split list of any length gives the list |
| Compound.PackCompoundMsg | util.go:62-73 | the loops write exactly the specified bytes |
| Compound.UnpackCompoundMsg | util.go:75-108 | the loops read exactly as specified, including both errors and truncation |
| Compound.SplitToCompoundMsgs | util.go:48-59 | the loop cuts the list into chunks of 255 and one rest |
| Dispatch.CallsBounded | net_handlers.go:104-154 | handling a packet takes at most as many `handleUdpMsg` calls as it has bytes, or one if it is empty, however compounds are nested or cut |
| Dispatch.CompoundIsTransparent | net_handlers.go:137-154 | a compound is handled exactly as its messages one by one |
| Dispatch.SplitIsTransparent | maintenance.go:83-90 | messages split over several compounds are handled exactly as if sent on their own |
| Dispatch.PlainIsHandled | net_handlers.go:104-135 | message types 4, 5, 6 and 9 are queued, 0 to 3 are served at once, and all others but compounds are complained about |
| Dispatch.CutIsHandled | net_handlers.go:137-154 | of a compound cut at any byte, one complaint and then exactly the messages that are still whole are handled, in order |
| Dispatch.Dispatcher.HandleUdpMsg | net_handlers.go:104-135 | the recursive method ends on every byte string, does what is specified, in order, and makes the counted number of calls |
| Dispatch.Dispatcher.HandleCompound | net_handlers.go:137-154 | an undecodable compound is dropped, a truncated one is reported, and every whole part is handled in order |
| Packets.GatheredWithinLimit | broadcast.go:174-195 | queued and application messages together stay within the limit |
| Packets.ApplicationIsAsked | broadcast.go:180-192 | the application is always asked for what the queue left of the limit, and its answer follows the queue's, each message behind type byte 9 |
| Packets.GetBroadcasts | broadcast.go:174-195 | the queue's greedy choice comes first, then the application's messages with their type byte, within the limit, and the queue is left as its own call leaves it |
| Packets.PanicsIffBare | net_transport.go:413-425 | the receiver crashes exactly on a plain packet that is the checksum header of an empty payload |
| Packets.PacketRoundTrip | net_transport.go:402-433 | with or without compression and encryption, a receiver gets back the message that was packed if and only if it was compressed, or is not empty and does not look compressed |
| Packets.PacketIsShorter | net_transport.go:370-400 | the shorter of the plain and the compressed form is sent, with 5 bytes of header and 29 of encryption |
| Packets.AcceptsOnlyChecked | net_transport.go:413-423 | nothing is taken from a packet that is not a header with the checksum of the rest |
| Packets.SendMsgPiggyback | net_transport.go:340-360 | what the queue and the application have for the rest of the budget is taken from them and goes out with the message in one compound, or the message alone if that is nothing; a compound packet is at most 7 bytes over the buffer size |
| Packets.FitsIffSlack | net_transport.go:341-360 | a piggybacked packet fits the buffer if and only if what the gathered messages leave of the budget and what compression saves are at least 7 bytes |
| Packets.BudgetExceeded | net_transport.go:341-360 | a 10 byte message and a 1386 byte broadcast are within the budget of 1400 bytes and give a packet of 1407 |
| Packets.EncryptedBudgetExceeded | net_transport.go:341-345 | with encryption a 1357 byte broadcast fills the budget and gives a packet of 1407 |
| Packets.PiggybackIffCounted | net_transport.go:354-359 | a piggybacked packet gathered within its budget opens, and its compound holds the message and all the others if and only if these are at most 254 and every message is below 65536 bytes, which a buffer of at most 65535 ensures |
| Packets.PiggybackLost | net_transport.go:354-359 | a 1400 byte buffer, a 10 byte message and an application with 255 messages of one byte: all is within the budget and the receiver does nothing at all |
| Packets.PiggybackIsTransparent | net_transport.go:354-359 | under that condition the receiver of a piggybacked packet handles the message and then each of the others as if they had come alone |
| Packets.GossipBounded | maintenance.go:67-90 | every gossip packet is at most 5 bytes over the buffer size, a single message at most 1 |
| Packets.GossipFitsIff | maintenance.go:67-90 | a gossip packet fits the buffer if and only if its messages leave 5 bytes of the budget, or 1 if it is a single message, counting what compression saves |
| Packets.GossipExceeds | maintenance.go:67-90 | two messages of 697 bytes are within the budget of 1400 bytes and give a packet of 1405 |
| Packets.GossipIffShort | maintenance.go:83-90 | the compounds of a gossip round hold exactly the gathered messages, however many they are, if and only if every message is below 65536 bytes, which a buffer of at most 65535 ensures |
| Packets.GossipIsTransparent | maintenance.go:67-90 | under that condition the receiver of a gossip round handles exactly the gathered messages, in order |
| Packets.GossipTo | maintenance.go:67-90 | what the queue and the application have for the budget is taken from them and goes out as a single packed message or in compounds, each within that bound |

## Left out

- Sockets, listeners, DNS, address parsing, key rings, label checks and stream encryption: input and output, and library calls; the packet codecs appear through their lengths and inverses only.
- Ping, indirect ping and TCP ping: a failed probe is a step that may follow any earlier read of an entry.
- The sender check of `handleAlive` and the queue of long-running messages: both can only drop or delay a message, which the network already does.
- Wrap-around: lives numbers and queue ids are unbounded here, 32 and 64 bits in the source.
- Crashes: a method that crashes in the source reports it and stops there; the lives number that `UpdateTags` may have taken by then is not counted.
- Message encoding: an arbitrary function from claims to bytes in `GossipQueue`; the queue of `Memberlist.Memberlist` is its view by name.
- Interleavings inside one handler, inside `UpdateTags` between taking and applying a lives number, and the unlocked pops of `Resize`: each is one step.
- Memberlist.Memberlist.SuspectNode: the suspicion object is its set of confirmers and its timer an entry in a bag; its deadlines are modelled in `SuspicionTimer` alone.
- Broadcasts.TransmitCapQueue.Push: items are values, so the transmit count is changed by replacing an item that is out of the queue, not by updating it in place; the heap is a set with a least element.
- SuspicionTimer.FiresInTime: holds for any ratio that rises between 0 and 1, of which the ratio of logarithms is one; floating-point error is not modelled.
- SuspicionTimer.KeepsMinIffWhole: ranges over all such ratios; `SuspicionTimer.OrderlyIffPowers` is the condition for the ratio of logarithms.
- SuspicionTimer.FallsIffWhole: ranges over all such ratios, as the previous one.
- Awareness, timeouts derived from cluster size, push-pull scaling, configuration, logging and the event channel's timeout: each is a bounded counter, a formula or plumbing on which no guarantee here depends.
