# FlexRAN controller: a verified model

FlexRAN is a controller for software radio access networks. Agents that each run a part of a base
station connect to it; it keeps a radio information base (RIB) of base stations, cells and UEs, and
applications such as a downlink scheduler work on that base. This project models the controller's
stateful parts and proves what they keep, over every input and every run:

- **Downlink scheduler** (`Primitives`, `UeScheduling`, `Preprocessor`, `Allocation`, `PreprocessorRun`,
  `Policy`, `PolicyRun`, `RoundProofs`, `RoundExamples`, `ServingOrder`, `Fairness`, `Demands`, `HarqRuns`,
  `HarqReuse`, `HarqRecords`, `Retransmissions`, `RetransmissionRuns`, `RetransmissionExamples`,
  `RejoinExample`). One round of a cell: demands are sized, UEs sorted, shares computed, resource block
  groups handed out in two rounds over one shared map, and each grant is turned into a transmission with its
  MCS, bitmap, HARQ process and new-data indicator. Runs are of such rounds, feedback, and UEs that join, leave
  and rejoin. The methods work in place on the shared map and the per-UE objects and are proved against value
  functions and relations (`Allocate`, `Preprocessed`, `SendStep`, `RoundStep`); the theorems are about these.
  The cell has 6, 25, 50 or 100 resource blocks; group sizes follow section 7.1.6.1 of 3GPP TS 36.213.
- **RIB membership** (`Bits`, `AgentInfos`, `Ribs`, `RibUpdaters`, `RibProofs`, `Hellos`). Agents say hello, wait
  until the capabilities for their base station are complete, become members of a live base station, and
  are thrown back to waiting when a member disconnects. Sets are walked in no particular order, so the steps
  are relations; runs are sequences of stages that each follow from the one before.
- **UE tables and configs** (`Messages`, `UeTables`, `UeTableProofs`, `UeListProofs`, `EnbConfigs`,
  `EnbConfigProofs`). Partial messages from split agents are merged field by field. A message is the set of its
  present fields, each named by the field numbers that lead to it.
- **Static slices** (`Slices`, `SliceProofs`, `SliceRuns`). Admission by marking an array, and what admitted
  requests keep.
- **Two codecs** (`Bytes`, `Streams`, `Recorder`, `RecordingLayout`, `RecorderProofs`, `Framing`,
  `AgentSessions`, `SessionProofs`, `FrameProofs`). The nested binary form of recordings, and length-prefixed
  frames with a write queue over an asynchronous socket.

`Options` and `Sequences` hold the option type and the removal of an element. Machine arithmetic is explicit
where it matters: the 16-bit counters of the scheduler are `U16`, bit masks are naturals with the operators of
`Bits`, counts in files keep their low bytes only, and lengths of frames are widened and narrowed as in the code.

What the functions and relations of the model compute is also said without them, of reports, messages and states
alone: `ServingOrder`, `Fairness`, `Demands`, `HarqRecords`, `Hellos`, `UeListProofs`, `EnbConfigProofs`,
`SliceProofs`, `RecordingLayout` and `FrameProofs` hold these laws. Automatic induction is off in every lemma, so
each proof by induction is written out.

Seven things that the code's comments or design suggest are not true of it. Each has an exact condition and
a concrete input:

- A complete set of waiting agents is not always promoted: a disconnect can leave one behind
  (`RibProofs.IntentionKeptExactlyWhen`, `RibProofs.IntentionAlwaysExactlyWhen`,
  `RibProofs.ACompleteAgentCanWait`). Promotion is tried at a hello only.
- Applying a UE config reply twice is not always applying it once: the list inside the SPS config is
  appended (`UeTableProofs.ReplyTwiceIsOnceExactlyWhen`, `UeTableProofs.SpsElementsDouble`). The comment at
  src/rib/enb_rib_info.cc:92-97 supposes that repeated fields are replaced.
- An admitted slice request can make slices overlap (`SliceRuns.ApartAfterAdmissionExactlyWhen`,
  `SliceRuns.RenamingEscapesTheCheck`).
- A bitmap does not always carry the blocks its transport block is sized for
  (`Policy.BitmapCarriesExactlyWhen`, `RoundExamples.BitmapCanFallShort`).
- A HARQ process is not always reused only after feedback: a UE that is deactivated and activated again starts
  with all processes free. The rule is kept exactly as long as no round sends on a process that was outstanding
  before it (`HarqReuse.RoundKeepsRuleExactlyWhen`, `HarqReuse.EveryRunKeepsRuleExactlyWhen`), so always if no UE
  comes back with a process outstanding; `RejoinExample.RejoinReusesWithoutFeedback` is a run that breaks it. The
  new-data indicators go on as if the UE had not left.
- A pending retransmission is not always sent, however many groups are free. For every UE it is sent exactly if
  control information fits, its blocks are still recorded, and the groups free at its second turn cover what the
  first has left (`Retransmissions.RetransmissionIsSentExactlyWhen`; the first turn is in closed form in
  `Retransmissions.FirstRoundGrants`). So a remainder beyond full groups needs the one short last group
  (`Retransmissions.OneRemainderPerRound`); a UE of low priority can spend its share on that group and then want
  less than a full one, so that six blocks wait beside four free groups of three
  (`RetransmissionExamples.LowWaitsBesideFreeGroups`); and a UE whose record was cleared is silenced
  (`RetransmissionRuns.StuckUntilFeedback`, `RejoinExample.LateNackSilences`).
- A frame header does not always lead to a buffer with room for the body or to an exception: for the four
  largest lengths the buffer has less than the four bytes of the header itself (`Framing.HeaderOutcome`,
  `Framing.AllOnesOverrun`).

## Model

| member | source | states |
|---|---|---|
| AgentInfos.CanonicalList | src/rib/agent_info.cc:75-96 | a mask's list of capabilities is strictly ascending and names exactly the mask's set |
| AgentInfos.ToU32 | src/rib/agent_info.cc:75-82 | bit `k` of the mask is set exactly for the listed capabilities, repeated or not |
| AgentInfos.FromU32 | src/rib/agent_info.cc:84-96 | reads a mask back as the sorted list of its set |
| AgentInfos.AgentCapabilities.constructor | src/rib/agent_info.cc:30-37 | sorts and removes duplicates |
| AgentInfos.AgentCapabilities.Orthogonal | src/rib/agent_info.cc:39-42 | true exactly for disjoint capability sets |
| AgentInfos.AgentCapabilities.MergeIn | src/rib/agent_info.cc:44-48 | the list becomes that of the union |
| AgentInfos.AgentCapabilities.IsComplete | src/rib/agent_info.cc:50-55 | true exactly when all eight base capabilities are there |
| Ribs.Rib.AddPendingAgent | src/rib/rib.cc:32-51 | accepts exactly an agent with a base station id, a new agent id, some capability, and no overlap with those waiting for the same base station; changes nothing else |
| Ribs.Rib.RemovePendingAgent | src/rib/rib.cc:62-70 | drops one pending agent with the id, if there is one |
| Ribs.Rib.MergeCapabilities | src/rib/rib.cc:96-112 | reports an overlap exactly when two agents share a capability, and completeness of the union |
| Ribs.Rib.NewEnbConfigEntry | src/rib/rib.cc:83-130 | promotes exactly when not live, disjoint and complete; then the waiting agents become members, leave the pending ones and are indexed without replacing existing entries |
| Ribs.Rib.RemoveEnbConfigEntry | src/rib/rib.cc:137-153 | removes the base station of a known agent and its members from the index, and puts all other members back among the pending ones |
| RibUpdaters.RibUpdater.HandleHello | src/rib/rib_updater.cc:158-217 | a hello is released, left pending, or promotes its base station and fires one add event |
| RibUpdaters.RibUpdater.HandleDisconnect | src/rib/rib_updater.cc:359-377 | a member's disconnect tears its base station down and fires one remove event; a pending agent is dropped |
| RibUpdaters.StatsManager.BsAddCallback | src/app/stats_manager.cc:69-78 | the event adds the base station to the list kept by the application |
| RibUpdaters.StatsManager.BsRemoveCallback | src/app/stats_manager.cc:134-140 | the event removes it |
| RibProofs.StepKeepsInvariant | src/rib/rib_updater.cc:158-217 | every hello and disconnect keeps: live members disjoint and complete, waiting groups disjoint and not live, index entries inside their live base station; and neither the exception nor a failed lookup occurs |
| RibProofs.EveryRunIsSafe | src/rib/rib.cc:83-130 | in every run that invariant holds, the overlap exception is never thrown and the unchecked lookup always finds an entry |
| RibProofs.PromotionIsExact | src/rib/rib.cc:83-130 | after an accepted hello the base station is live exactly when the union of waiting capabilities is complete, with exactly the waiting agents as members; exactly one agent is added |
| RibProofs.TearDownIsExact | src/rib/rib.cc:137-153 | a member's disconnect removes exactly that agent; all others of its base station wait again |
| RibProofs.SessionsPartition | src/rib/rib.cc:83-153 | if no agent says hello twice, pending agents and members partition the known agents and the index holds exactly the members, in every run |
| RibProofs.DisconnectRemovesOne | src/rib/rib_updater.cc:359-377 | with one hello per session, a disconnect removes exactly the named agent, and is unknown exactly when the agent is |
| RibProofs.SurvivorsComplete | src/rib/rib.cc:137-153 | what is left of a complete disjoint group is complete exactly when the leaver had no base capability |
| RibProofs.IntentionKeptExactlyWhen | src/rib/rib.cc:137-153 | "complete groups are live" is kept by a step exactly unless a member without base capabilities disconnects |
| RibProofs.IntentionAlwaysExactlyWhen | src/rib/rib.cc:83-153 | in a run complete groups are live at every stage exactly when no member without base capabilities disconnects |
| RibProofs.ACompleteAgentCanWait | src/rib/rib.cc:145-152 | a run of three messages after which a complete agent waits and no base station is live |
| RibProofs.StepKeepsMirror | src/rib/rib_updater.cc:208-213 | each handled message keeps the event-built list equal to the live base stations |
| RibProofs.EventsMirrorTheRib | src/app/stats_manager.cc:69-78 | in every run the list built from add and remove events alone equals the live base stations, and for each id the two events alternate |
| Hellos.AcceptedExactlyWhen | src/rib/rib_updater.cc:158-217 | a hello is accepted exactly if it succeeds, its base station (10000 and its id if it names none) is not live, no agent with its id waits, and it offers nothing that a waiting agent of the base station offers |
| Hellos.AcceptedHelloAddsSpeaker | src/rib/rib_updater.cc:171-200 | an accepted hello adds exactly one agent, with the id, place and capabilities said, which waits there or is a member there |
| Hellos.SoleAgentIsPromoted | src/rib/rib_updater.cc:171-217 | an agent that names neither base station nor capabilities makes base station 10000 and its id live, alone, unless someone is there or waits for it |
| Hellos.NamelessStayApart | src/rib/rib_updater.cc:171-172 | in every run, agents with different ids that named no base station are never at the same one |
| Hellos.EntryAfterStep | src/rib/rib.cc:113-153 | the index entry of an id stays as it is until a base station with a member of that id is torn down, and then goes |
| Hellos.NewEntry | src/rib/rib.cc:113-130 | a new entry is of a member of the base station that just went live |
| Hellos.EntryStays | src/rib/rib.cc:113-153 | over any run an entry is as it was at any earlier stage, unless a later message took it away |
| Primitives.GroupsFillTheCell | src/app/remote_scheduler_primitives.cc:36-85 | group sizes add up to the bandwidth for 6, 25, 50 and 100 blocks, whichever groups are marked |
| Primitives.SizeOfMark | src/app/remote_scheduler_primitives.cc:36-85 | marking a group adds that group's size, 1 less than the unit for the last group at 25 and 50 blocks |
| Primitives.AllocatePrbsSub | src/app/remote_scheduler_primitives.cc:318-360 | the word has exactly the bits of the shortest prefix of allocated groups that reaches the blocks asked for, all of them if none does, inside the low bits of the cell |
| UeScheduling.UeSchedulingInfo.StartNewSchedulingRound | src/app/ue_scheduling_info.cc:30-37 | clears counters and all maps, keeps what is remembered per HARQ process |
| UeScheduling.UeSchedulingInfo.ToggleNdi | src/app/ue_scheduling_info.h:131-133 | flips the indicator of one process and no other |
| UeScheduling.UeMacRibInfo.UpdateDlSfInfo | src/rib/ue_mac_rib_info.cc:35-46 | feedback frees the process and stores its status; an empty report changes nothing |
| UeScheduling.UeMacRibInfo.GetNextAvailableHarq | src/rib/ue_mac_rib_info.h:91-98 | the first free process, or -1 |
| UeScheduling.UeMacRibInfo.HarqScheduled | src/rib/ue_mac_rib_info.h:109-112 | marks one process as in use and nothing else |
| Preprocessor.GridSearchIsLeast | src/app/remote_scheduler_helper.cc:348-368 | for any table, the size found is the least grid size within the limit that holds the bytes, else the limit or the start beyond it |
| Preprocessor.AssignRbsRequired | src/app/remote_scheduler_helper.cc:311-371 | demand and priority from queue lengths, CQI and number of logical channels |
| Preprocessor.DemandIsLeast | src/app/remote_scheduler_helper.cc:348-368 | a demand is positive and the least grid size within the bandwidth that holds the buffer, else the bandwidth |
| Preprocessor.CompareStatsIsTotalPreorder | src/app/remote_scheduler_helper.cc:453-472 | the comparison is total, transitive and true on ties, and only equal statistics tie |
| Preprocessor.SortUes | src/app/remote_scheduler_helper.cc:373-451 | an ordered permutation of the UEs |
| PreprocessorRun.OfferGroup | src/app/remote_scheduler_helper.cc:278-307 | one group is taken or passed over, with 16-bit counters, in the shared map and the UE together |
| PreprocessorRun.PerformPreProcessorAllocation | src/app/remote_scheduler_helper.cc:266-309 | a turn of one UE on the shared map is `OfferAll` |
| PreprocessorRun.AllocatePriority | src/app/remote_scheduler_helper.cc:182-242 | the turns of all UEs of one priority are `Pass`, and no other UE changes |
| PreprocessorRun.AllocateRounds | src/app/remote_scheduler_helper.cc:156-245 | both rounds on the shared objects are `Allocate` |
| PreprocessorRun.ChooseHarqs | src/app/remote_scheduler_helper.cc:92-122 | a pending retransmission demands its old blocks, otherwise that record is cleared; active UEs are counted |
| PreprocessorRun.SizeDemands | src/app/remote_scheduler_helper.cc:57-84 | sizes every UE from its report after resetting it |
| PreprocessorRun.RunDlschSchedulerPreprocessor | src/app/remote_scheduler_helper.cc:31-264 | the whole preprocessor on the shared objects satisfies `Preprocessed` for some serving order |
| Allocation.OfferAllFacts | src/app/remote_scheduler_helper.cc:266-309 | a turn takes only free groups, is credited with their size, keeps the demand and balances grant and wish |
| Allocation.OfferAllExhausts | src/app/remote_scheduler_helper.cc:278-307 | after a turn no group still free is of use to the UE |
| Allocation.PassFacts | src/app/remote_scheduler_helper.cc:182-242 | a pass over the UEs keeps exclusivity, conservation and balance |
| Allocation.AllocationIsExclusiveAndConserves | src/app/remote_scheduler_helper.cc:156-309 | no group goes to two UEs or was reserved, each UE is credited with exactly its groups, and granted, reserved and free blocks add up to the bandwidth |
| Allocation.GrantBound | src/app/remote_scheduler_helper.cc:147-151 | a grant is at most the demand, plus one block of a clamped last group at 50 blocks; after the first round at most the share |
| Allocation.GrantBoundIsSharp | src/app/remote_scheduler_helper.cc:284-303 | a UE that wants four of 50 blocks is granted five |
| Allocation.WorkConservation | src/app/remote_scheduler_helper.cc:156-245 | with an active UE, a free group leaves every UE short by less than a unit, and by nothing if it is the short last group |
| Allocation.HighUesServedFirst | src/app/remote_scheduler_helper.cc:185-211 | after the high-priority pass no group still free is of use to a high-priority UE |
| Allocation.NoPriorityInversion | src/app/remote_scheduler_helper.cc:156-245 | if a low-priority UE has a group, no high-priority UE misses as much as that group would give it |
| Allocation.IdleGetsNothing | src/app/remote_scheduler_helper.cc:156-245 | a UE without demand is left as it was |
| RoundProofs.RoundIsAllocation | src/app/remote_scheduler_helper.cc:31-264 | every preprocessed round is an allocation to the UEs in serving order from an opening state |
| RoundProofs.NoGroupIsWasted | src/app/remote_scheduler_helper.cc:31-264 | end to end: a group is left free only when no UE of the cell could use it |
| RoundProofs.PrioritiesAreRespected | src/app/remote_scheduler_helper.cc:31-264 | end to end: no high-priority UE misses what a low-priority UE got |
| RoundProofs.BlocksAreConserved | src/app/remote_scheduler_helper.cc:31-264 | end to end, in any serving order: granted, reserved and free blocks add up to the bandwidth |
| ServingOrder.ServedInOrder | src/app/remote_scheduler_helper.cc:373-472 | whoever is served earlier is at least as large in the first figure that differs: status of the lowest free process, bytes on channels 1 and 2, largest head-of-line delay, all bytes, CQI |
| ServingOrder.FiguresOf | src/app/remote_scheduler_helper.cc:385-445 | each UE has exactly one such list of figures: the bytes are sums, the delay is reached and bounds all, and all are 0 without a free process |
| Fairness.EveryoneGetsAShare | src/app/remote_scheduler_helper.cc:124-153 | in an empty cell without high priority, each of k UEs with a demand gets at least the whole groups of the k-th part of the cell or of its demand, whatever the order |
| Fairness.FirstOnesGetAGroup | src/app/remote_scheduler_helper.cc:126-130 | where k groups exceed the cell, the share is one group: as many UEs as there are full groups get one each, in serving order |
| Fairness.NobodyReadyNothingGranted | src/app/remote_scheduler_helper.cc:180-245 | while every UE lacks a free process or a demand, nothing is granted to anyone |
| Demands.DemandIs | src/app/remote_scheduler_helper.cc:92-122 | the demand of every UE in a round: the recorded blocks for a retransmission, nothing without queued bytes or known channels, else the least size that holds the queues at the reported MCS |
| Demands.PriorityIs | src/app/remote_scheduler_helper.cc:330-339 | high priority means at most two configured channels; without a report of channels it stays as it was |
| Policy.FillSubbands | src/app/enb_scheduler_policy.cc:505-532 | which granted groups the fill marks, although its block counter can wrap |
| Policy.FillKeepsPrefix | src/app/enb_scheduler_policy.cc:505-532 | the wrapped counter never changes the groups that the bitmap addresses |
| Policy.McsIsTight | src/app/enb_scheduler_policy.cc:534-549 | for any table the chosen MCS holds the data or is 28, and is 0, exact, or one above an MCS that does not hold it |
| Policy.McsIsLeastIfMonotone | src/app/enb_scheduler_policy.cc:534-549 | on a monotone column it is the least MCS that holds the data, up to exact ties |
| Policy.SearchMcs | src/app/enb_scheduler_policy.cc:534-549 | the two search loops compute that MCS and its transport block size |
| Policy.FillAndEncode | src/app/enb_scheduler_policy.cc:357-386 | the bitmap built from the marked groups is that of the granted groups |
| Policy.Retransmit | src/app/enb_scheduler_policy.cc:349-405 | a retransmission keeps process, MCS, blocks and indicator, or waits when the grant is too small |
| Policy.TransmitNew | src/app/enb_scheduler_policy.cc:406-610 | new data sizes blocks, marks groups, records blocks and MCS and toggles the indicator of its process only |
| Policy.ScheduleUe | src/app/enb_scheduler_policy.cc:283-655 | the second half for one UE satisfies `SendStep` |
| Policy.BitmapCarries | src/app/remote_scheduler_primitives.cc:318-360 | a bitmap carries the blocks exactly when the grant does, and then less than a unit more |
| Policy.BitmapCarriesExactlyWhen | src/app/enb_scheduler_policy.cc:485-503 | a transmission's bitmap carries its blocks unless, before the call, the process is acknowledged and the starting size is above the grant and holds the data already |
| RoundExamples.EveryInputHasARound | src/app/enb_scheduler_policy.cc:256-655 | the relation of a round is total: for any UEs, reports and table there is an outcome |
| RoundExamples.BitmapCanFallShort | src/app/enb_scheduler_policy.cc:485-503 | a round of two new UEs in a cell of six blocks, at the sizes the code's table has for MCS 0 with four and five blocks, in which a transport block is sized for four blocks and its bitmap carries one |
| PolicyRun.HandOver | src/app/enb_scheduler_policy.cc:256-275 | what the second half may rely on for every UE: grant within demand, credited with its groups, retransmissions demanding their old blocks |
| PolicyRun.GrantsDisjoint | src/app/remote_scheduler_helper.cc:156-309 | the groups granted to two UEs of a cell are disjoint and were not reserved |
| PolicyRun.BitmapsAreExclusive | src/app/enb_scheduler_policy.cc:648-650 | end to end: the resource block bitmaps sent to two UEs of a cell in one round share no bit |
| PolicyRun.RunCell | src/app/enb_scheduler_policy.cc:283-655 | one scheduling round on the shared objects satisfies `RoundStep` |
| Demands.NewDataIsSentExactlyWhen | src/app/enb_scheduler_policy.cc:283-335 | with the lowest free process acknowledged, new data goes out exactly if control information fits, something is granted and there is something to carry, and on that process |
| Demands.NewDataIsSized | src/app/enb_scheduler_policy.cc:485-549 | its size is the least within the grant that holds what is carried at the reported MCS, or at the one used last if none is reported; the block sent holds it or has the highest MCS |
| Demands.McsGoesOn | src/app/enb_scheduler_policy.cc:336-351 | from UE to UE the MCS variable keeps its value, or takes what was sent, waits to be sent again, or was reported |
| Demands.RowsOfSizes | src/app/remote_scheduler_primitives.cc:105-118 | the 29 MCS run through the 27 rows of sizes in order, 10 sharing with 9 and 17 with 16 |
| Demands.BetterChannelHigherMcs | src/rib/rib_common.cc:27 | a better CQI means a higher MCS, but for the two worst, from 0 up to 28 |
| Demands.BitmapIsNumber | src/app/remote_scheduler_primitives.cc:318-360 | the bitmap sent is the number whose binary digits are the granted groups as far as they are needed, the first group highest |
| HarqRuns.NewDataOnProc | src/app/enb_scheduler_policy.cc:406-610 | new data is sent only on an idle acknowledged process, with the toggled indicator |
| HarqRuns.RetransmissionOnProc | src/app/enb_scheduler_policy.cc:349-405 | a retransmission repeats the last transport block with the same size, MCS and indicator |
| HarqRuns.EveryRunIsLegal | src/app/enb_scheduler_policy.cc:322-335 | in every run of rounds, feedback, and UEs that join, leave and rejoin, every transmission obeys section 5.3.2 of TS 36.321 for its process, where rejoining counts as the acknowledgement of all processes |
| HarqRuns.ReuseNeedsFeedback | src/rib/ue_mac_rib_info.h:91-112 | between two uses of a process there is feedback for it, or the UE has rejoined |
| HarqReuse.SendingKeepsRuleExactlyWhen | src/rib/ue_mac_rib_info.h:91-112 | where every reuse so far had feedback before it, one more transmission keeps that exactly if its process is not outstanding |
| HarqReuse.RoundKeepsRuleExactlyWhen | src/app/enb_scheduler_policy.cc:322-335 | for a UE that a round sends to, the rule is kept exactly if its lowest available process is not outstanding before the round |
| HarqReuse.OnlyNewDataBreaks | src/app/enb_scheduler_policy.cc:406-610 | what breaks the rule is new data, never a retransmission |
| HarqReuse.EveryRunKeepsRuleExactlyWhen | src/rib/enb_rib_info.cc:141-157 | a run with joining, leaving and rejoining UEs keeps the rule exactly when none of its rounds sends on a process outstanding before it |
| HarqReuse.AnsweredRejoinsKeepRule | src/rib/enb_rib_info.cc:141-157 | if no UE rejoins with a process outstanding, the rule is kept whatever else happens, and what is outstanding is in flight |
| HarqRecords.HandOverKeepsRecords | src/app/remote_scheduler_helper.cc:110-116 | the preprocessor forgets the blocks of the lowest free process if it is acknowledged, and nothing else of any process |
| HarqRecords.PendingIsOnRecord | src/app/remote_scheduler_helper.cc:110-116 | over runs in which feedback comes only for processes in flight and no UE rejoins with one outstanding, a pending retransmission has the blocks of its last transmission on record, and at least one |
| HarqRecords.AnsweringRunsRemember | src/rib/ue_mac_rib_info.cc:35-46 | seen from the messages: if each feedback answers an unanswered transmission of its UE and rejoining UEs have none, that is such a run |
| HarqRecords.ForemostAlwaysProgresses | src/app/remote_scheduler_helper.cc:110-116 | in such runs the strictly foremost high-priority UE's retransmission is sent whenever control information fits |
| HarqRuns.RejoinTracks | src/app/enb_scheduling_info.cc:38-42 | the records of a UE that rejoins still agree with all its events, although its HARQ state is new |
| RejoinExample.RejoinReusesWithoutFeedback | src/rib/enb_rib_info.cc:141-157 | a run of five steps in which a UE with five bytes queued sends on process 0, leaves, rejoins and sends on it again without feedback |
| HarqRuns.IndicatorIsParity | src/app/enb_scheduler_policy.cc:604-605 | the indicator sent is the parity of the new transmissions of its process, also across rejoining |
| Retransmissions.TurnComesTo | src/app/remote_scheduler_helper.cc:266-309 | a turn in closed form: the full groups that are free and fit what is left, then the short last group if something is still missing |
| Retransmissions.TurnSucceedsExactlyWhen | src/app/remote_scheduler_helper.cc:266-309 | the last turn of a UE leaves it with its demand exactly when the free groups cover the rest: enough full groups for all but a remainder, and the short last group for a remainder that its clamp has not given already |
| Retransmissions.FirstRoundGrants | src/app/remote_scheduler_helper.cc:156-245 | for every UE, what the first round grants and what the second has left, from the share and the groups free at its turn |
| Retransmissions.DemandMetExactlyWhen | src/app/remote_scheduler_helper.cc:156-309 | after both rounds every UE has its demand exactly when the groups free at its second turn cover what it has left by then |
| Retransmissions.WholeShareMetExactlyWhen | src/app/remote_scheduler_helper.cc:156-309 | where the share is the demand, the groups free at the first turn decide |
| Retransmissions.GrantedNeedsCover | src/app/remote_scheduler_helper.cc:31-309 | a consequence on the map before the round: whatever its priority and place, a UE gets its demand only if the groups free then cover it |
| Retransmissions.OneRemainderPerRound | src/app/remote_scheduler_helper.cc:284-303 | of the retransmissions whose blocks are no whole number of full groups, a round sends at most one |
| Retransmissions.RetransmissionIsSentExactlyWhen | src/app/enb_scheduler_policy.cc:349-405 | every UE's pending retransmission is sent exactly if control information fits, blocks are recorded, and the groups free at its second turn cover what its first has left |
| Retransmissions.HighIsSentExactlyWhen | src/app/enb_scheduler_policy.cc:349-405 | for a high-priority UE, exactly if control information fits, blocks are recorded, and the groups left by the UEs before it cover them |
| Retransmissions.ForemostIsSentExactlyWhen | src/app/enb_scheduler_policy.cc:349-405 | for the high-priority UE that comes strictly first, from the state before the round alone: control information fits, blocks are recorded, and at 100 blocks they are whole groups |
| RetransmissionRuns.ForemostProgressesExactlyWhen | src/app/remote_scheduler_helper.cc:110-116 | after any run, that UE's retransmission is sent exactly if control information fits and its record was not cleared |
| RetransmissionRuns.StuckUntilFeedback | src/app/remote_scheduler_helper.cc:110-116 | a UE whose lowest available process is unacknowledged with a cleared record is sent nothing in any run until there is feedback for that process or a lower one |
| RejoinExample.LateNackSilences | src/app/remote_scheduler_helper.cc:110-116 | a run in which the negative acknowledgement of a transmission from before a UE rejoined leaves it stuck |
| RetransmissionExamples.LowWaitsThoughCovered | src/app/remote_scheduler_helper.cc:278-307 | in any cell of 50 blocks, a UE with a demand of six and a share of four that meets the empty map ends with five blocks, although two full groups would cover it |
| RetransmissionExamples.LowWaitsBesideFreeGroups | src/app/remote_scheduler_helper.cc:31-309 | a round of twelve UEs in which such a retransmission waits while four full groups stay free |
| Messages.ClearRepeatedIfPresent | src/rib/enb_rib_info.cc:484-499 | removes exactly the repeated fields of one block that the other message has |
| Messages.MergedAt | src/rib/enb_rib_info.cc:116-119 | what clearing and merging does to one repeated field: keep, replace or append |
| Messages.MergesCommuteExactlyWhen | src/rib/enb_rib_info.cc:116-119 | two merges commute exactly when they agree on every field both set |
| UeTables.MergeReplyConfig | src/rib/enb_rib_info.cc:116-119 | replaces lists at the top and in the info block, appends others |
| UeTables.MergeStateConfig | src/rib/enb_rib_info.cc:148-149 | replaces lists at the top only |
| UeTables.EnbRibInfo.UpdateUeConfigReply | src/rib/enb_rib_info.cc:89-124 | merges each config into the first UE with its RNTI and drops the others |
| UeTables.EnbRibInfo.UpdateUeState | src/rib/enb_rib_info.cc:126-175 | activation adds or merges, deactivation removes from all three tables, update merges; MAC objects of remaining UEs are kept |
| UeTables.EnbRibInfo.UpdateLcConfig | src/rib/enb_rib_info.cc:177-184 | replaces the logical channel configs unless the reply is empty |
| UeTableProofs.ReplyAt | src/rib/enb_rib_info.cc:107-121 | a reply never adds, drops, reorders or renames a UE, and each UE hears exactly what is said of it |
| UeTableProofs.ReplyOrderIsIrrelevant | src/rib/enb_rib_info.cc:107-121 | the order of distinct RNTIs in a reply does not matter |
| UeTableProofs.TwiceIsOnceFor | src/rib/enb_rib_info.cc:116-119 | for one UE, repeating a reply is idle exactly when none of its lists for the UE is appended |
| UeTableProofs.ReplyTwiceIsOnceExactlyWhen | src/rib/enb_rib_info.cc:89-124 | applying a reply twice is applying it once exactly when no list for a known UE escapes replacement |
| UeTableProofs.OnlySpsElementsAccumulate | src/rib/enb_rib_info.cc:481-499 | the one list of a UE config that escapes is that of the SPS config |
| UeTableProofs.SpsElementsDouble | src/MESSAGES/V2/config_common.proto:104-111 | a concrete reply that is not idempotent |
| UeTableProofs.RepliesCommute | src/rib/enb_rib_info.cc:89-124 | replies that agree where they overlap commute, however many configs they hold |
| UeTableProofs.RepliesCommuteExactlyWhen | src/rib/enb_rib_info.cc:89-124 | for replies naming each UE once, they commute exactly when they agree |
| UeTableProofs.DeactivatedIsForgotten | src/rib/enb_rib_info.cc:152-163 | a deactivated UE is in none of the three tables |
| UeTableProofs.EveryRunIsInLockstep | src/rib/enb_rib_info.cc:132-170 | over every run RNTIs are unique and exactly they have MAC state |
| UeTableProofs.EveryRunIsFaithful | src/rib/enb_rib_info.cc:89-175 | over every run a UE is known exactly while its last activation stands; its singular fields are the latest said since, and each repeated field is the last list said, or all of them in a row where merging appends |
| UeListProofs.LcsAreLeftAlone | src/rib/enb_rib_info.cc:126-184 | only a non-empty reply with logical channel configs, or the deactivation of a known UE, touches these configs |
| UeListProofs.LcsAreWhatWasSaid | src/rib/enb_rib_info.cc:152-184 | in every run the logical channel configs are exactly those of the last non-empty reply, in its order, but for UEs deactivated while known since |
| UeListProofs.UesAreInOrder | src/rib/enb_rib_info.cc:132-163 | in every run UEs are listed in the order in which they last became known |
| UeListProofs.ChangeIsHeard | src/rib/enb_rib_info.cc:132-170 | a state change of a known UE sets each field it has, replaces the list of secondary cells, and appends to the two nested lists |
| UeListProofs.ReplyIsHeard | src/rib/enb_rib_info.cc:107-121 | a config reply also replaces the list in the info block, and leaves alone every UE that it does not name |
| EnbConfigs.EnbConfigHolder.UpdateEnbConfig | src/rib/enb_rib_info.cc:50-87 | the first reply is copied; later ones are merged cell by cell, replacing lists, slices, S1AP and applications |
| EnbConfigs.SlicesAreReplaced | src/rib/enb_rib_info.cc:77-79 | an update with slices leaves nothing of the old slice block |
| EnbConfigs.UpdateTwiceIsOnceExactlyWhen | src/rib/enb_rib_info.cc:68-84 | repeating a reply is idle exactly when no nested list is appended and a first reply with cells has its S1AP block |
| EnbConfigProofs.RunHolds | src/rib/enb_rib_info.cc:50-87 | after any run of replies the application lists are those of the last, cells are as many as in the first reply with any, whose other fields are kept, and after it S1AP is that of the last reply or empty |
| EnbConfigProofs.CellHears | src/rib/enb_rib_info.cc:68-80 | a saved cell hears every later reply with that many cells, and no other |
| Slices.Mark | src/app/rrm_management.cc:782-786 | marks a range, or finds its first position that is taken, or comes to the end of the array first |
| Slices.VerifyStaticSliceConfiguration | src/app/rrm_management.cc:754-798 | the verdict names the first failing check, and for an overlap the first slice and first position that clash; it is undefined if a position beyond the array comes first |
| Slices.AdmissionIsExact | src/app/rrm_management.cc:777-797 | a request is accepted exactly when the checks hold and the ranges of range-carrying requested and unmentioned existing slices are pairwise disjoint and inside the array |
| SliceProofs.AcceptedExactlyWhen | src/app/rrm_management.cc:754-798 | accepted exactly if the scheduler has slices, each requested one has an id and sets something, new ones give both ends, and the ranges given and those of slices that stay are pairwise separate and end inside the array |
| SliceProofs.OverlapIsReal | src/app/rrm_management.cc:779-788 | a refusal for overlap names a requested slice and the first of its positions that an earlier requested one has |
| SliceProofs.OverlapOfExistingIsReal | src/app/rrm_management.cc:789-797 | or a slice that stays, and the first of its positions that a requested one, or one that stays before it, has |
| SliceRuns.ApartAfterAdmissionExactlyWhen | src/app/rrm_management.cc:779-791 | after an accepted request slices are disjoint exactly when, computed from table and request, the ranges carried over for slices named without their complete range are apart from each other, from the complete ranges requested and from the slices not mentioned |
| SliceRuns.ApartAfterRunExactlyWhen | src/app/rrm_management.cc:754-798 | after any run of accepted requests the last request alone decides by that condition whether slices are disjoint |
| SliceRuns.EveryRunKeepsSlicesApart | src/app/rrm_management.cc:754-798 | accepted requests that give the range of every slice they name keep the table disjoint for ever |
| SliceRuns.RenamingEscapesTheCheck | src/app/rrm_management.cc:779-791 | an accepted request after which two slices overlap |
| Recorder.WriteProto | src/app/recorder.cc:469-474 | length and bytes of a message |
| Recorder.WriteUes | src/app/recorder.cc:358-375 | the low 16 bits of the count, then every UE with its packed HARQ flags |
| Recorder.WriteChunk | src/app/recorder.cc:332-356 | one tick's base stations in ascending order of id |
| Recorder.WriteBinary | src/app/recorder.cc:309-330 | a recording in the binary form |
| Recorder.ReadUesFrom | src/app/recorder.cc:448-467 | reads what the format says, for any input |
| Recorder.ReadChunkFrom | src/app/recorder.cc:403-446 | reads one tick; a base station that repeats is dropped |
| Recorder.ReadBinary | src/app/recorder.cc:377-401 | reads a recording |
| Recorder.HarqRoundTrip | src/app/recorder.cc:369-372 | eight HARQ flags survive their byte |
| RecordingLayout.UeLayout | src/app/recorder.cc:358-375 | a UE is eight bytes of length, its statistics, and a byte with bit k set exactly for flag k |
| RecordingLayout.EntryLayout | src/app/recorder.cc:338-355 | a base station is its id, its time in two's complement, the three messages with their lengths, the low 16 bits of the UE count, and the UEs in order, all words lowest byte first |
| RecordingLayout.DumpLayout | src/app/recorder.cc:309-338 | a recording is the number of ticks in eight bytes and, per tick, two bytes for the number of its base stations and these |
| RecordingLayout.FirstIsKept | src/app/recorder.cc:432-442 | of a base station that comes more than once in a tick, the first is kept |
| RecorderProofs.EntryReturns | src/app/recorder.cc:332-356 | one base station is read back unchanged if its UE count fits 16 bits and its own messages are parsed back |
| RecorderProofs.WhatIsReadFits | src/app/recorder.cc:377-467 | whatever bytes are read, no count of the result exceeds its field |
| RecorderProofs.RecordingReturnsExactlyWhen | src/app/recorder.cc:309-489 | if the messages in it are parsed back and are shorter than 2^64 bytes, a recording is read back unchanged exactly when every count fits its field |
| RecorderProofs.SomeRecordingReturns | src/app/recorder.cc:309-489 | a serialiser and a recording of two base stations and a UE that meet all these conditions and are read back |
| Framing.ProtocolMessage.FromBytes | src/network/protocol_message.cc:31-37 | header and body of the bytes, whichever buffer is used; of a length of 2^32 and more, header and kept length have the low 32 bits |
| Framing.ProtocolMessage.SetBodyLength | src/network/protocol_message.cc:55-66 | for any 64-bit length: room for header and body, in the object up to 24000 bytes and in a new buffer beyond; an exception; or a buffer smaller than the header, where the sum of lengths wraps |
| Framing.ProtocolMessage.EncodeHeader | src/network/protocol_message.cc:81-86 | the length with the highest byte first; the body is untouched |
| Framing.ProtocolMessage.SetMessage | src/network/protocol_message.cc:68-72 | the buffer holds exactly the frame, cut to the length that its header announces |
| Framing.ProtocolMessage.DecodeHeader | src/network/protocol_message.cc:74-79 | with room, the announced length and the header restored; otherwise which of the two failures it is |
| Framing.HeaderOutcome | src/network/protocol_message.cc:55-79 | a header leads to room exactly below 2^31, to an exception exactly from there to 2^32 - 5, and for the last four lengths to a buffer of 0 to 3 bytes |
| Framing.AllOnesOverrun | src/network/protocol_message.cc:55-79 | the header FF FF FF FF leads to a buffer of three bytes |
| AgentSessions.AgentSession.Deliver | src/network/agent_session.cc:33-39 | queues the frame and starts a write exactly if the queue was empty |
| AgentSessions.AgentSession.WriteHandler | src/network/agent_session.cc:70-86 | success pops the front and starts the next write; an error starts none and forwards a disconnect message |
| AgentSessions.ReadLoop | src/network/agent_session.cc:41-68 | the header and body loop forwards exactly `Forwarded` of the input and ends as `EndOf` says: with the connection, with an exception, or with an overrun buffer |
| SessionProofs.WireIsForwarded | src/network/agent_session.cc:41-68 | reading a concatenation of frames recovers exactly the bodies, goes on with what follows and ends as that does |
| SessionProofs.PartialFrameIsSilent | src/network/agent_session.cc:41-68 | an incomplete frame forwards nothing |
| FrameProofs.EveryInputSplits | src/network/agent_session.cc:41-68 | any input is the frames of the bodies that are forwarded and then what is no frame, by which reading ends: too few bytes, a length from 2^31 on, or one of the last four lengths |
| SessionProofs.EveryRunSendsInOrder | src/network/agent_session.cc:33-86 | in every run at most one write is outstanding, it is of the queue front, the bytes sent are the frames in order of delivery, no empty queue is popped, and at most one disconnect message is forwarded |
| SessionProofs.PeerReceivesInOrder | src/network/agent_session.cc:33-86 | in every run the other side has received exactly the bodies whose frames went out completely, in order |

## Left out

- Bandwidths of 15 and 75 blocks: group count and unit do not match there.
- Subframes 0 and 5: the scheduler skips them, so the map is empty when a round begins; `RunDlschSchedulerPreprocessor` is proved for any content of the map.
- Several cells and secondary carriers: a round has the UEs whose primary cell it is; the code filters the others out beforehand.
- UeScheduling.UeMacRibInfo.UpdateDlSfInfo: only the first status and the first transport block of a report; the second block is not scheduled here.
- The numbers of the transport block size table: any table of its shape is allowed, also one that is not monotone.
- Control channel elements: whether a UE's control information fits is an input of a round.
- Headers, control elements and timing advance that make up the bytes to carry: their sum is an input, and it is not claimed that the payload fits the transport block. In the examples it is the one that src/app/enb_scheduler_policy.cc:433-483 computes.
- The sort of the standard library: the comparison answers true on ties, so an ordered permutation by insertion stands for it.
- Preprocessor.AssignRbsRequired: a wideband CQI is at most 15, as section 7.2.3 of TS 36.213 has it; the code indexes a table with it unchecked.
- The near copies of the scheduler in other applications, uplink scheduling and eICIC.
- `remove_pending_agents`, lookups by name, IMSI search, statistics and JSON output of the RIB.
- The message loop with its time budget, timers, mutexes, configuration requests triggered by a new base station, and logging.
- Ribs.Rib.NewEnbConfigEntry: the throwing constructor of the base station is not modelled separately; every waiting agent has the base station's id.
- RibUpdaters.RibUpdater.HandleDisconnect: requires that the unchecked lookup finds its entry; `RibProofs.EveryRunIsSafe` shows that it always does.
- The header, number and device fields of config messages: they are among the fields of a message that are copied once.
- How a base station carries out an admitted slice request is not in this repository; the model overwrites the fields that a request sets and leaves the other slices alone.
- Slice removal, the slice algorithms other than static, and the association of UEs with slices.
- Recorder.ReadUesFrom: input that ends early gives nothing; the code goes on with what it last read.
- Recorder.ReadChunkFrom: the same for input that ends early.
- Recorder.ReadBinary: the same for input that ends early.
- RecorderProofs.WhatIsReadFits: says nothing of input that ends early, for the same reason.
- Recorder.WriteBinary: writing to the file does not fail; the four message types are one type with one serialiser.
- Recording jobs, their timing and the JSON form.
- Framing.ProtocolMessage.SetBodyLength: freeing of old buffers; what is left of a message whose allocation is refused; `size_t` has 64 bits and memory does not run out below `PTRDIFF_MAX`.
- AgentSessions.AgentSession.Deliver: bodies have less than 2^31 bytes, since their length is an `int` (src/network/tagged_message.h:53).
- The socket: how far a write has come is an event of the environment in `SessionProofs`, not a method of the session.
- Closing of sockets, and the map of sessions.
