# y7ke: offline-tolerant delivery, verified

A Dafny model of the delivery core of y7ke, a peer-to-peer messenger whose nodes go on and off line, and of the
state machines around it. It covers the message tables and the retry queue, live sends and queue drains, the
Header/Pull/Ack reconcile, contacts and requests, the outbox of deletion notices, the connection map with its caches,
lineage ring and liveness ticker, the reconnect and upgrade schedules, the inbound rate limiter, and the address and
relay bookkeeping of the swarm.

`dafny verify dfyconfig.toml` checks everything.

## How it is organised

| file | what it holds |
|---|---|
| `types.dfy`, `ordering.dfy` | identifiers, statuses; finite sets of ids read in order (`ORDER BY`, `LIMIT`) |
| `storage.dfy` | each table as a map with the functions its queries mean, and a class that updates it in place |
| `node.dfy` | one node as a value, and what every handler and command does to it |
| `drain.dfy` | what one drain of the retry queue does to every row, and exactly when it covers or starves a peer |
| `reconcile.dfy` | one reconcile as a whole, and what the pages of its Pull loop add up to |
| `app.dfy` | the running application: a class over the tables whose methods follow the source statement by statement, each proved equal to its function in `node.dfy`, `drain.dfy` or `reconcile.dfy` |
| `node_runs.dfy` | every run of one node against arbitrary peers |
| `by_table.dfy` | the same node read table by table: for every entry, exactly which steps change it and to what, with every bound and wait written out; what is shown and what is answered; and what the tables keep in every run |
| `convergence.dfy` | repeated reconciles with an answering peer |
| `world.dfy`, `refinement.dfy` | two nodes and the network, one event at a time; an undisturbed exchange of events is the reconcile of `reconcile.dfy` |
| `delivered.dfy`, `synced.dfy` | what Delivered, Synced and an acknowledged deletion prove in every run of two nodes, and exactly which runs keep them true |
| `end_to_end.dfy` | the parts put together: no message is lost, a reconcile from a reached state catches up, and a blocked side gets nothing |
| `out_of_order.dfy`, `mid_page.dfy` | two runs in which Synced proves nothing |
| `presence.dfy`, `connection_table.dfy`, `liveness.dfy` | the connection map, its caches and ring (values, class, concurrent runs with the ticker) |
| `rate_limit.dfy`, `reconnect.dfy`, `swarm.dfy` | the limiter, the two backoffs, the swarm |

Code that updates something in place is a class (or a method with a loop) proved against a function on values; the
theorems are lemmas about those functions, over all inputs, runs and interleavings.

Modelling decisions:

- A message id is a number. Ids are UUIDv7 (section 5.7 of RFC 9562); a node issues fresh ids, larger than its earlier
  ones. An Ed25519 peer's `PeerId` and `Y7Id` determine each other, so both are one `PeerId`.
- An envelope carries its id, its sender and its plaintext; `Garbage` is whatever fails to verify, decrypt or decode.
- Clocks, the rate limiter's verdict, network answers and whether a reply could be handed to the network are
  parameters, chosen arbitrarily in every theorem.
- Each handler, command, database call and `refresh_presence` is one step. In the two-node machine a send is launched,
  arrives any number of times, before or after its sender gave up on it, and ends in separate steps; an acknowledgement
  of a reconcile may arrive after the exchange that sent it; and a reconcile is cut at every await, so everything else
  can happen in between and any of it can be abandoned.
- In the two-node machine a handshake's return and a control's arrival may come from nowhere, so the theorems cover more
  runs than there are. `World.Genuine` marks the runs in which each has its cause, and the runs given below as evidence
  that a property fails are genuine.

## What turned out not to hold

Each of these is kept as the code has it, with the exact condition under which it does hold:

- *Synced means held.* A run without wipes keeps it at every state if and only if every digest acted on finds the peer
  holding all own rows it promotes (`SyncedRuns.TruthfulIff`; one promotion: `SyncedRuns.PromotionSoundIff`), and where
  nobody blocks the other that is also exactly when no message is lost (`EndToEnd.NoneLostIff`). Freedom from gaps
  guarantees it, and holds throughout if and only if every text stored, live or from a page, is next in order
  (`SyncedRuns.NoGapIff`). When no reconcile starts without a session, that is so if and only if the live texts are in
  order (`SyncedRuns.LiveOrderIff`). Both hypotheses are needed: `OutOfOrder.UndeliveredMarkedSynced` is a run in which
  a message arrives out of order, and `MidPage.EarlierLeftBehind` one in which a session is made in the middle of a page;
  in each a waiting message is marked Synced and leaves the queue although the peer never got it.
- *An acknowledged notice removes that notice.* The acknowledgement removes whatever notice is queued at that moment: the
  flushed one if and only if no deletion with a session sealed another since the flush started
  (`Delivered.FlushedNoticeIff`, `Delivered.NoticeDropped`). `Delivered.ReplacedNoticeLost` is a run in which it removes a
  newer one, which would have erased the peer and never reaches it.
- *A drain covers the peer's outbox.* It reads 256 rows over all peers. It covers the peer if and only if each of the
  peer's rows has fewer than 256 others due no later (`Drain.CoveredIff`), and attempts nothing for it if and only if each
  has at least 256 others due earlier (`Drain.StarvedIff`).
- *Established and Upgraded commute.* They agree on everything but `kind`, and never on that:
  `Presence.OrderMattersForKindOnly`.
- *A live peer is never stranded.* At any moment of any run a live connection is unmapped and unannounced if and only if
  a deletion of its peer found it live with no announcement queued, and it was not upgraded or closed since
  (`Liveness.StrandedIff`); so a run never strands one if and only if no deletion in it does that
  (`Liveness.NeverStrandedIff`).
- *A returning relay gets its reservation back.* The next direct connection of a reserved relay, whatever comes before
  it, gets a new circuit if and only if the mode is Internet, the roster lists it, and something took its old
  reservation away: a close while it was on the roster, or a spell of LAN-only mode (`Swarm.ReservationRenewedIff`;
  for any run and any direct connection: `Swarm.NewCircuitIff`). `Swarm.StaleReservation` is the case in which it gets
  none.

The comment on `ensure_incoming_request` promises an idempotent request; when none is pending the code surfaces a fresh
request row for anyone not accepted, a blocked peer that shakes hands again included (`NodeRuns.HandshakeSurfaces`; the
peer's status and messages stay as they are, `NodeRuns.BlockedIsInert`).

## Model

| member | source | states |
|---|---|---|
| SyncedRuns.SyncedIsSound | crates/y7ke-app/src/event_loop.rs:1062-1147 | in every run without wipes that stores texts in order, whatever is interleaved or cut off, what a side holds of the other's messages is an initial segment of what was written, and every own message marked Synced is held by the other side with the same contents |
| SyncedRuns.SoundStep | crates/y7ke-app/src/event_loop.rs:995-1150 | no event of an orderly run breaks gap-freeness, the truth of Synced, or anything an exchange under way remembers (its mark, a stale digest, the rest of its page, the ids to acknowledge) |
| SyncedRuns.TruthfulIff | crates/y7ke-app/src/event_loop.rs:1062-1076 | a run without wipes keeps every Synced row held at every state if and only if every digest acted on in it finds the peer holding all own rows up to the reported id; nothing is asked of order, sessions or interruptions |
| SyncedRuns.NoGapIff | crates/y7ke-app/src/event_loop.rs:610-631 | a run without wipes is free of gaps on both sides at every state if and only if every text it stores, live or from a page, finds all earlier ones of its sender in place; nothing is asked of sessions |
| SyncedRuns.NoGapStepIff | crates/y7ke-app/src/event_loop.rs:1189-1205 | the same for one event from a state without gaps, whatever the event |
| SyncedRuns.LiveOrderIff | crates/y7ke-app/src/event_loop.rs:1153-1180 | in a run without wipes in which every reconcile starts with a session, every text is stored in order if and only if the live ones are, however pages and live texts interleave |
| SyncedRuns.NoGapPromotes | crates/y7ke-app/src/event_loop.rs:1062-1066 | without gaps every digest acted on promotes held rows only, however stale it is |
| SyncedRuns.AcksStep | crates/y7ke-app/src/event_loop.rs:1136-1147 | whatever the order of arrival, every acknowledgement sent, still to be sent or under way names only rows that are held |
| SyncedRuns.GapFreeIffInOrder | crates/y7ke-app/src/event_loop.rs:610-631 | from a gap-free state a live arrival leaves no gap if and only if every earlier message of its sender was already in place |
| SyncedRuns.PromotionSoundIff | crates/y7ke-storage/src/dao/messages.rs:209-229 | from a truthful state, acting on a digest keeps Synced truthful if and only if the peer holds every own row up to the reported one that is not Synced yet |
| SyncedRuns.PromotionMarks | crates/y7ke-app/src/event_loop.rs:1062-1076 | acting on a digest marks every such row Synced and drops its queue row, held by the peer or not |
| SyncedRuns.PulledPage | crates/y7ke-app/src/event_loop.rs:753-798 | a page pulled from a held mark never skips a message that is not held |
| SyncedRuns.SyncedStep | crates/y7ke-app/src/event_loop.rs:799-822 | an event turns an own row Synced only if the peer holds it, provided the acknowledgements under way are true and a digest acted on promotes held rows |
| SyncedRuns.TableSets | crates/y7ke-storage/src/dao/messages.rs:116-150 | the rows the two high-water-mark queries range over are exactly the messages written and the ones held |
| SyncedRuns.IngestHoldsIff | crates/y7ke-app/src/event_loop.rs:1175-1215 | the next row of a page is held after its ingest if and only if there is a session or it was held already |
| OutOfOrder.UndeliveredMarkedSynced | crates/y7ke-app/src/event_loop.rs:1062-1076 | a genuine run without wipes, from the first contact request on, in which an undelivered message is marked Synced and leaves the retry queue because the second message arrived first |
| MidPage.EarlierLeftBehind | crates/y7ke-app/src/event_loop.rs:1117-1128 | a genuine run without wipes or live texts in which a page meets no session at its first message and one at its second, and the first is later marked Synced and leaves the retry queue undelivered |
| EndToEnd.NothingIsLost | crates/y7ke-app/src/app/messages.rs:77-157 | in every run without wipes whose promotions find their rows held, whatever the order of arrival, every message ever written is at every moment held by the other side, or waits with a queue row or a push under way, or the other side had the writer blocked at some time |
| EndToEnd.NoneLostIff | crates/y7ke-app/src/event_loop.rs:1062-1076 | in a run without wipes and blocks every message ever written is at every moment held by the other side or on its way, if and only if every promotion finds its rows held |
| EndToEnd.SoundIsReady | crates/y7ke-app/src/event_loop.rs:995-1060 | a gap-free state with an accepted contact, a session and no block is one from which reconciles converge, and what they find missing is exactly what was written and is not held |
| EndToEnd.ReconcileCatchesUp | crates/y7ke-app/src/event_loop.rs:995-1150 | at any state of any run at which the asking side has no gap, an undisturbed reconcile leaves missing exactly what was missing beyond the next 3200 messages, and another can follow |
| EndToEnd.BlockedGetsNothing | crates/y7ke-app/src/event_loop.rs:706-722 | in every run, from a state without an exchange on and as long as the other side blocks it, a side promotes nothing, pulls nothing and ingests nothing |
| EndToEnd.RefusedExchange | crates/y7ke-app/src/event_loop.rs:706-722 | an exchange whose answer is refused ends with nothing more learnt and no node changed |
| Delivered.DeliveredIsSound | crates/y7ke-app/src/event_loop.rs:580-631 | in every run of two nodes an own message marked Delivered was held by the peer with these contents at some earlier state, or the peer had the sender blocked |
| Delivered.DeliveredStep | crates/y7ke-app/src/event_loop.rs:886-908 | a row turns Delivered only when an acknowledged send of that very message ends |
| Delivered.AckIsEvidence | crates/y7ke-app/src/event_loop.rs:511-631 | whatever an arrival acknowledges is held, or erased, or comes from a blocked sender |
| Delivered.HonestArrivalAcked | crates/y7ke-app/src/event_loop.rs:562-631 | conversely an allowed text reaching a peer with a session is acknowledged, and held unless the sender is blocked |
| Delivered.FlightHistory | crates/y7ke-app/src/app/messages.rs:129-157 | every send under way was launched with the envelope it carries, and its acknowledgement has a witness no older than the launch |
| Delivered.NoticeDropped | crates/y7ke-app/src/event_loop.rs:927-964 | a queued deletion notice leaves only when a flush ends acknowledged, and after that flush started the peer had erased us or had us blocked; what leaves is the flushed notice if and only if no deletion with a session sealed another one meanwhile |
| Delivered.FlushedNoticeIff | crates/y7ke-app/src/event_loop.rs:927-951 | at any state of any run, the queued notice is the one a flush under way carries if and only if no deletion with a session sealed another since that flush started |
| Delivered.ReplacedNoticeLost | crates/y7ke-app/src/event_loop.rs:944-951 | a genuine run in which the late acknowledgement of an old notice removes a newer one that never arrives, although it would have been accepted and would have erased the peer |
| World.KnownStep | crates/y7ke-app/src/event_loop.rs:511-680 | every row, flight and page in either node is a copy of something its sender wrote, addressed to the other side |
| World.AnsweredPageKnown | crates/y7ke-app/src/event_loop.rs:753-798 | a Pull is answered only with messages the responder wrote itself |
| Refinement.ExchangeIsRound | crates/y7ke-app/src/event_loop.rs:995-1150 | the reconcile taken await by await, undisturbed, leaves both nodes as the reconcile taken as one call |
| Refinement.AskIffHeaderSent | crates/y7ke-app/src/event_loop.rs:1000-1005 | the two-node machine starts an exchange exactly where the one-call reconcile sends its Header |
| Refinement.UnrollingIsLoop | crates/y7ke-app/src/event_loop.rs:1088-1134 | pulling and ingesting row by row from state to state is the Pull loop |
| Refinement.PageIsIngestAll | crates/y7ke-app/src/event_loop.rs:1117-1128 | ingesting a page row by row from its head is ingesting it as a whole |
| Convergence.Converges | crates/y7ke-app/src/event_loop.rs:966-1150 | from a gap-free state k reconciles reach equality if and only if the backlog is at most 3200 k; every later one is a lone Header that brings nothing |
| Convergence.RoundShrinks | crates/y7ke-app/src/event_loop.rs:995-1150 | one reconcile brings over exactly the next min(3200, n) missing rows with their contents, the peer marks exactly those Synced, no gap arises, and the number of sync requests is exact |
| Convergence.PullIffMissing | crates/y7ke-app/src/event_loop.rs:1078-1086 | without gaps, comparing the two highest ids tells exactly whether anything is missing |
| Convergence.SegmentGrows | crates/y7ke-app/src/event_loop.rs:1088-1134 | receiving the next ids in order extends the initial segment and leaves the rest to come, in order |
| Convergence.IngestAllNew | crates/y7ke-app/src/event_loop.rs:1153-1215 | a stream of new texts is stored, announced and acknowledged, each once and in order, and nothing else changes |
| Convergence.RoundStream | crates/y7ke-app/src/event_loop.rs:1088-1134 | what the Pull loop receives is the first 3200 missing rows, and how many pulls it takes |
| Convergence.QuietWhenEqual | crates/y7ke-app/src/event_loop.rs:1078-1086 | when nothing is missing a reconcile is one request and brings nothing |
| Convergence.ReconcileNotRefused | crates/y7ke-app/src/rate_limit.rs:66-73 | none of a reconcile's requests is refused if the peer's sync bucket held at most 190 events at its start |
| Reconcile.PagesAddUp | crates/y7ke-app/src/event_loop.rs:1088-1134 | over any table that only gains larger ids meanwhile, from any mark, the pages of a Pull loop are exactly the first 3200 own rows of the responder above the mark, ascending, each once, with their contents |
| Reconcile.PullsOverTable | crates/y7ke-app/src/event_loop.rs:1089-1134 | over an unchanging table of n rows the loop makes exactly min(64, n / 50 + 1) pulls, so an exactly filled last page costs one empty pull |
| Reconcile.StreamIsPrefix | crates/y7ke-storage/src/dao/messages.rs:160-198 | whenever each page is the first 50 rows above the last id seen and later readings only extend earlier ones, the pages form one prefix |
| Reconcile.HonestPage | crates/y7ke-app/src/event_loop.rs:765-797 | a page is the first 50 own rows above the mark, and `has_more` is set exactly when it is full |
| Reconcile.LoopIngestsStream | crates/y7ke-app/src/event_loop.rs:1110-1133 | the Pull loop does nothing but ingest its stream in order and remember what was new |
| Reconcile.RequestsBounded | crates/y7ke-app/src/event_loop.rs:995-1150 | whatever the peer answers, one reconcile sends it at most 66 sync requests |
| Reconcile.AsksIffAccepted | crates/y7ke-app/src/event_loop.rs:1000-1005 | a reconcile sends a request if and only if the peer is an accepted contact; otherwise nothing changes and nothing is acknowledged |
| Reconcile.LearntIsUsed | crates/y7ke-app/src/event_loop.rs:1042-1147 | whatever a peer answers, its first digest about the conversation promotes first, then, if and only if it has something above our highest received id, its pages are ingested and what was new is acknowledged |
| Reconcile.NothingLearnt | crates/y7ke-app/src/event_loop.rs:1035-1060 | without a digest about the conversation a reconcile is its Header and changes nothing |
| Reconcile.NewAreAcked | crates/y7ke-app/src/event_loop.rs:1117-1128 | what is acknowledged is exactly what was not stored before and is now, each id once, and no stored row changes |
| NodeRuns.OutboxLosesNothing | crates/y7ke-app/src/app/messages.rs:77-157 | in every run against arbitrary peers a waiting own row has a queue row or a push under way, and own rows are waiting, Delivered or Synced |
| NodeRuns.NeverWaitsAgain | crates/y7ke-app/src/event_loop.rs:849-920 | once an own row stopped waiting it never waits again, wiped or not |
| NodeRuns.OutboxStep | crates/y7ke-app/src/event_loop.rs:886-916 | no handler step leaves a waiting row without queue row and push, and only a send starts a wait |
| NodeRuns.ShownExactlyOnce | crates/y7ke-app/src/event_loop.rs:610-679 | however live deliveries, re-sends and sync ingests interleave, since the contact was last removed a message was announced exactly once if its row is stored and its handler could answer, and never otherwise |
| NodeRuns.ReceiptStep | crates/y7ke-app/src/event_loop.rs:1189-1214 | every handler step keeps announcements and rows in step |
| NodeRuns.RowStep | crates/y7ke-storage/src/dao/messages.rs:47-69 | a row appears only by a send or by a text from its sender, disappears only in a wipe, and keeps its contents |
| NodeRuns.StatusStep | crates/y7ke-storage/src/dao/messages.rs:71-79 | a row turns Delivered only by an acknowledged send of it, and Synced only by an acknowledgement or a promotion that covers it |
| NodeRuns.RequestsStayConsistent | crates/y7ke-app/src/event_loop.rs:460-509 | in every run at most one request is pending per peer and direction, its peer is a contact, and row ids are fresh |
| NodeRuns.AnsweringClears | crates/y7ke-app/src/app/contacts.rs:261-333 | in a consistent table accepting, rejecting or cancelling leaves no request pending for that peer and direction |
| NodeRuns.ControlSettles | crates/y7ke-app/src/event_loop.rs:1226-1278 | an acceptance or rejection resolves exactly the sender's pending requests, in both directions, and sets exactly the sender's contact if there is one |
| NodeRuns.PromotionSettles | crates/y7ke-app/src/event_loop.rs:633-668 | a text promotes exactly a contact we asked and resolves exactly its pending requests |
| NodeRuns.HandshakeSurfaces | crates/y7ke-app/src/event_loop.rs:386-509 | an answered handshake surfaces a request from anyone not accepted, blocked or not, session or no session, and from no one else: a fresh row if none is pending, the pending one otherwise |
| NodeRuns.BlockedIsInert | crates/y7ke-app/src/event_loop.rs:573-589 | nothing a blocked peer sends changes its status or any message row; its messages and sync requests change nothing at all |
| NodeRuns.BlockedUntilReleased | crates/y7ke-app/src/event_loop.rs:711-722 | through every run a block ends only by a local accept, cancel or deletion |
| NodeRuns.AcceptedOnlyBy | crates/y7ke-app/src/event_loop.rs:633-668 | a contact becomes accepted if and only if it is accepted locally, sends its acceptance, or is one we asked and sends a text |
| NodeRuns.NoticeSurvives | crates/y7ke-app/src/app/contacts.rs:335-412 | a queued notice survives the wipe, failed flushes and everything peers send until a flush ends acknowledged, the same sealed envelope unless the contact is deleted again |
| NodeRuns.NoticeStep | crates/y7ke-storage/src/dao/pending_deletes.rs:26-99 | what each handler step does to a queued notice; only a deletion with a session adds one |
| NodeRuns.DeletionLeavesNotice | crates/y7ke-app/src/app/contacts.rs:343-365 | deleting a contact erases it from all six tables and leaves a sealed notice exactly if there was a session |
| NodeRuns.WipeSparesOthers | crates/y7ke-storage/src/db.rs:148-187 | a wipe leaves every other peer's contact, session, messages, queue rows, requests and state alone, and every queued notice |
| NodeRuns.SessionsStay | crates/y7ke-storage/src/db.rs:148-187 | only a wipe ends a session |
| ByTable.ContactStep | crates/y7ke-app/src/event_loop.rs:460-668 | over every handler and command, what becomes of a contact: gone by an erasure, new by a request either way, accepted, blocked or cancelled by the answers listed, and otherwise as it was |
| ByTable.StatusChangesOnly | crates/y7ke-app/src/app/contacts.rs:261-333 | a contact becomes blocked if and only if we reject its open request or its rejection is heard, removed if and only if we cancel ours, and new or gone if and only if a request comes or goes or the conversation is erased |
| ByTable.SessionStep | crates/y7ke-app/src/event_loop.rs:396-449 | a peer has a session after a step if and only if it had one or a handshake made one, and nothing erased it |
| ByTable.MessageStep | crates/y7ke-storage/src/dao/messages.rs:47-79 | over every handler and command, what becomes of a message row: where it comes from, with which gates and sizes, which status it takes, and when it goes |
| ByTable.QueueStep | crates/y7ke-storage/src/dao/sync_queue.rs:24-90 | over every handler and command, what becomes of a queue row and of a push under way, with attempts and the retry time in milliseconds |
| ByTable.RequestStep | crates/y7ke-app/src/app/contacts.rs:15-69 | over every handler and command, which request rows are new, which resolution an open row takes, and which rows go |
| ByTable.NoticeAfterStep | crates/y7ke-storage/src/dao/pending_deletes.rs:26-99 | what becomes of a queued deletion notice, with its envelope, attempts and retry time |
| ByTable.CacheStep | crates/y7ke-app/src/event_loop.rs:62-74 | the dial cache has a peer after a step if and only if it had it or a contact was discovered with an address, and nothing erased it |
| ByTable.ShowStep | crates/y7ke-app/src/event_loop.rs:580-680 | over every handler and command, exactly the events a step shows, in order |
| ByTable.AnswerArrives | crates/y7ke-app/src/event_loop.rs:1226-1278 | a heard acceptance or rejection settles every open request of its sender and no other, sets the contact, is shown and acknowledged |
| ByTable.Acknowledged | crates/y7ke-app/src/event_loop.rs:511-631 | a message is refused if and only if a gate stops it, and acknowledged if and only if it passed them and was handled or is blocked |
| ByTable.SendSucceedsIff | crates/y7ke-app/src/app/messages.rs:77-93 | a send is taken if and only if it is of at most 65536 bytes, to someone else, with a session |
| ByTable.RefusedLearnsNothing | crates/y7ke-app/src/event_loop.rs:682-722 | what a blocked or rate-limited peer is answered depends on its request alone, whatever two nodes hold, carries no digest and no envelope, and changes nothing |
| ByTable.PullAnswer | crates/y7ke-app/src/event_loop.rs:753-798 | a Pull is answered with own rows to the asker above its mark, ascending, at most the limit, none skipped, and `has_more` exactly when full; of another conversation with nothing |
| ByTable.HeaderAnswer | crates/y7ke-app/src/event_loop.rs:725-752 | a Header is answered once per digest about the shared conversation, with the largest ids written and received, and about no other |
| ByTable.RowsHaveSessions | crates/y7ke-app/src/app/messages.rs:88-93 | in every run nothing is stored, written or received, of anyone without a session |
| Drain.DrainContract | crates/y7ke-app/src/event_loop.rs:849-920 | whenever it covers the peer's outbox, in particular with at most 256 rows queued over all peers, a drain attempts each row of the peer that is due exactly once, the soonest first, and settles it, touches no other row, and otherwise changes only the status of acknowledged messages |
| Drain.CoveredIff | crates/y7ke-storage/src/dao/sync_queue.rs:45-69 | whatever the query answers a drain reads all of the peer's rows, if and only if each of them has fewer than 256 others due no later over all peers |
| Drain.SurelyReadIff | crates/y7ke-storage/src/dao/sync_queue.rs:45-69 | a single row is in every answer of the query if and only if fewer than 256 others are due no later |
| Drain.StarvedIff | crates/y7ke-storage/src/dao/sync_queue.rs:45-69 | no answer of the query holds a row of the peer if and only if each of the peer's rows has at least 256 others due earlier |
| Drain.AllReadIff | crates/y7ke-storage/src/dao/sync_queue.rs:45-69 | an unscheduled drain reads the whole queue if and only if at most 256 rows are queued over all peers |
| Drain.Starved | crates/y7ke-app/src/event_loop.rs:861-864 | a drain for a peer all of whose rows have 256 others due earlier does nothing |
| Drain.NotDueUntouched | crates/y7ke-app/src/event_loop.rs:856-864 | covered or not, a drain touches only rows of the peer that are due |
| Drain.RetryAhead | crates/y7ke-app/src/event_loop.rs:909-915 | a kept row has one attempt more and is due 30 seconds to an hour later, no sooner than with fewer attempts |
| Drain.FailedPushQueued | crates/y7ke-app/src/app/messages.rs:150-156 | a failed first push queues the row for 30 seconds later, keeps the attempts of a row already queued and touches no other |
| Drain.FailedFlushKept | crates/y7ke-app/src/event_loop.rs:952-962 | a failed flush keeps the notice, counts the attempt, reschedules it 30 seconds to an hour ahead and touches no other peer's |
| Node.RetryMonotone | crates/y7ke-app/src/event_loop.rs:1218-1223 | the wait before a retry is 30 s to 3600 s and never shrinks as attempts mount |
| Node.RetryTable | crates/y7ke-app/src/event_loop.rs:1217-1223 | the wait doubles from 30 s up to the seventh attempt and is an hour from then on |
| Node.AckedRows | crates/y7ke-app/src/event_loop.rs:799-822 | an acknowledgement marks the listed rows Synced and changes nothing else of any row |
| App.AppInner.SendMessage | crates/y7ke-app/src/app/messages.rs:77-123 | refuses oneself, oversized text and peers without a session; otherwise one Sending row and one push |
| App.AppInner.PushOne | crates/y7ke-app/src/app/messages.rs:129-157 | an acknowledged push marks the row Delivered, any other outcome queues it |
| App.AppInner.DrainOne | crates/y7ke-app/src/event_loop.rs:862-916 | one due row: skipped, dropped as orphaned, delivered and dequeued, or rescheduled |
| App.AppInner.DrainQueueForPeer | crates/y7ke-app/src/event_loop.rs:849-920 | the loop over the due rows is the drain whose contract `drain.dfy` proves, over rows that answer `due` |
| App.AppInner.FlushPendingDelete | crates/y7ke-app/src/event_loop.rs:927-964 | a corrupt notice is dropped, an acknowledged one removed, any other rescheduled |
| App.AppInner.SendContactRequest | crates/y7ke-app/src/app/contacts.rs:15-69 | the invalid-input error for oneself, and the rows a contact request leaves, with or without a session, a pending row or a contact |
| App.AppInner.EnsureIncoming | crates/y7ke-app/src/event_loop.rs:460-509 | contact, request row and event of an inbound request, never touching an accepted contact |
| App.AppInner.OnHandshake | crates/y7ke-app/src/event_loop.rs:386-449 | refusals, the session, and the request it surfaces |
| App.AppInner.AcceptRequest | crates/y7ke-app/src/app/contacts.rs:261-286 | the new state, and exactly when it succeeds |
| App.AppInner.RejectRequest | crates/y7ke-app/src/app/contacts.rs:288-308 | the new state, and exactly when it succeeds |
| App.AppInner.CancelRequest | crates/y7ke-app/src/app/contacts.rs:310-333 | the new state, and exactly when it succeeds: outgoing rows only |
| App.AppInner.WipeConversation | crates/y7ke-app/src/event_loop.rs:1296-1305 | the six tables and everything in memory (connections, caches, both backoffs) without the peer, and everything of others kept |
| App.AppInner.Delete | crates/y7ke-app/src/app/contacts.rs:343-349 | seals the notice while the session exists, then wipes tables and memory |
| App.AppInner.OnDiscovered | crates/y7ke-app/src/event_loop.rs:62-74 | only a known contact with addresses gets a dial-cache row |
| App.AppInner.OnControl | crates/y7ke-app/src/event_loop.rs:1226-1288 | what each control payload does; only a deletion touches what is kept in memory |
| App.AppInner.PromotePendingOut | crates/y7ke-app/src/event_loop.rs:633-668 | the auto-promotion loop, one event per resolved request |
| App.AppInner.OnMsg | crates/y7ke-app/src/event_loop.rs:511-680 | the handler with its reply, step by step against its function |
| App.AppInner.AnswerHeader | crates/y7ke-app/src/event_loop.rs:725-752 | our digest once per listed digest of the shared conversation |
| App.AppInner.MarkSynced | crates/y7ke-app/src/event_loop.rs:812-820 | the acknowledgement loop |
| App.AppInner.OnSync | crates/y7ke-app/src/event_loop.rs:682-838 | the answer to each sync request, empty for refused and blocked peers |
| App.AppInner.PromoteUpTo | crates/y7ke-app/src/event_loop.rs:1062-1076 | the rows promoted, dequeued and shown, each once |
| App.AppInner.IngestSynced | crates/y7ke-app/src/event_loop.rs:1153-1215 | stored and shown, ignored, or failed |
| App.AppInner.IngestPage | crates/y7ke-app/src/event_loop.rs:1117-1128 | the rows of a page in order, and which were new |
| App.AppInner.PullPages | crates/y7ke-app/src/event_loop.rs:1088-1134 | the loop with its breaks is the Pull loop of `reconcile.dfy` |
| App.AppInner.KickSync | crates/y7ke-app/src/event_loop.rs:995-1150 | the whole reconcile: state, ids to acknowledge, number of requests |
| Storage.MessagesTable.Insert | crates/y7ke-storage/src/dao/messages.rs:47-69 | inserts once per id and says whether it did |
| Storage.MessagesTable.UpdateStatus | crates/y7ke-storage/src/dao/messages.rs:71-79 | one row's status, nothing if the row is missing |
| Storage.MessagesTable.PromoteOutboundSynced | crates/y7ke-storage/src/dao/messages.rs:209-229 | which rows are promoted, id by id; they and only they change, by their status alone; a second call finds none |
| Storage.PromotionIsFinal | crates/y7ke-storage/src/dao/messages.rs:209-229 | after a promotion no own row up to the mark can be promoted again, and the rows both high-water marks range over are the same as before |
| Storage.SyncQueueTable.Enqueue | crates/y7ke-storage/src/dao/sync_queue.rs:24-43 | a new row starts at 0 attempts, an existing one keeps its attempts |
| Storage.SyncQueueTable.Due | crates/y7ke-storage/src/dao/sync_queue.rs:45-69 | eligible rows, each once, soonest first, at most the limit, none left out while a later one is taken |
| Storage.SyncQueueTable.Bump | crates/y7ke-storage/src/dao/sync_queue.rs:71-90 | attempts and retry time of an existing row |
| Storage.PendingDeletesTable.Enqueue | crates/y7ke-storage/src/dao/pending_deletes.rs:26-40 | one row per peer, the newer envelope, the attempts kept |
| Storage.RequestsTable.ResolvePendingOf | crates/y7ke-app/src/event_loop.rs:1234-1243 | resolving the listed rows one by one resolves exactly the peer's pending rows |
| Storage.ContactsTable.UpdateStatus | crates/y7ke-storage/src/dao/contacts.rs:63-75 | the status of an existing contact, or the not-found error |
| Ordering.SortedUnique | crates/y7ke-storage/src/dao/messages.rs:160-198 | an ordered query has only one answer |
| Ordering.AboveLast | crates/y7ke-storage/src/dao/messages.rs:160-198 | reading on from the last id of a page continues exactly where it ended |
| Ordering.GrownOrder | crates/y7ke-core/src/id.rs:88-118 | rows with larger ids leave the order of the earlier ones alone |
| Liveness.NoPeerStranded | crates/y7ke-app/src/app.rs:642-754 | with sockets, queue, event loop and ticker interleaved arbitrarily, a live connection is mapped or about to be, a mapped one is live or about to go, and at quiescence the map is the live set |
| Liveness.AlwaysAccounted | crates/y7ke-app/src/event_loop.rs:83-125 | the invariant behind it: announcements precede closes and the ticker's snapshot never holds a live connection once found dead |
| Liveness.ActMaps | crates/y7ke-app/src/app.rs:642-754 | each action maps or unmaps exactly the connections it should, and the ticker removes what it saw only after finding no socket of the peer alive |
| Liveness.StrandedIff | crates/y7ke-app/src/event_loop.rs:1296-1305 | at every moment of every run with deletions a live connection is unmapped and unannounced if and only if some deletion of its peer found it live with no announcement queued and it was not upgraded or closed since |
| Liveness.NeverStrandedIff | crates/y7ke-app/src/event_loop.rs:1296-1305 | a run keeps every live connection mapped or announced at every state if and only if every deletion in it finds each live connection of its peer with an announcement queued |
| Liveness.StrandedAfter | crates/y7ke-app/src/app.rs:642-754 | what one step of the queue, the ticker, the sockets or a deletion does to a stranded connection and to one that is not |
| Presence.CachesAgree | crates/y7ke-app/src/app.rs:433-468 | after every event, demotion, wipe or refresh both caches have exactly the peers with a connection, presence and meta of one top-ranked connection |
| Presence.ShownByHistory | crates/y7ke-app/src/app.rs:409-468 | in every run, read off the events alone, a peer is shown if and only if a connection is open, as Direct if one was upgraded last, else Lan, else Internet, else Relayed, with the facts and origin of such a connection |
| Presence.RingRecords | crates/y7ke-app/src/app.rs:480-510 | a network event appends one entry if and only if what is shown changed in kind, transport or origin; the entry tells what is shown and the kind before, and only the oldest of 48 gives way |
| Presence.MapIsItsHistory | crates/y7ke-app/src/event_loop.rs:83-210 | the map holds exactly the open connections, each with the facts of its last Established and, once upgraded, the hole-punch origin until it leaves |
| Presence.OrderMattersForKindOnly | crates/y7ke-app/src/event_loop.rs:100-125 | Established and Upgraded of a connection, in either order and whatever was known of it before, leave the same facts and origin and never the same kind |
| Presence.RingIsChain | crates/y7ke-app/src/app.rs:470-510 | at most 48 entries, and consecutive retained entries of a peer link up and differ |
| Presence.RingMatchesPresence | crates/y7ke-app/src/event_loop.rs:126-141 | in runs of network events a peer's newest retained entry is its current presence |
| ConnectionTable.Table.BestConn | crates/y7ke-app/src/app.rs:423-431 | a top-ranked connection, none exactly when there is none; `Presence.ShownByHistory` says which kinds that means |
| ConnectionTable.Table.RefreshPresence | crates/y7ke-app/src/app.rs:441-468 | recomputes both caches from the map and removes them for an offline peer |
| ConnectionTable.Table.RecordTransition | crates/y7ke-app/src/app.rs:480-510 | appends a real change and trims to 48 |
| ConnectionTable.Table.OnEstablished | crates/y7ke-app/src/event_loop.rs:100-133 | the map entry, the caches and the ring after an Established, and the redial backoff dropped |
| ConnectionTable.Table.OnUpgraded | crates/y7ke-app/src/event_loop.rs:168-195 | the same after an Upgraded, and the upgrade backoff reset |
| ConnectionTable.Table.OnClosed | crates/y7ke-app/src/event_loop.rs:239-286 | removes that connection only, resets the upgrade backoff, says whether the peer is gone and if so forgets its rate-limiter buckets |
| ConnectionTable.Table.DemoteDead | crates/y7ke-app/src/app.rs:657-683 | removes only the snapshot |
| ConnectionTable.Table.WipePeer | crates/y7ke-app/src/event_loop.rs:1296-1305 | the in-memory half of a wipe: connections, both caches and both backoffs of that peer, nothing of another |
| RateLimit.GreedyIsOptimal | crates/y7ke-app/src/rate_limit.rs:23-34 | after every prefix the bucket has admitted at least as many requests as any other choice that respects the window |
| RateLimit.RefusedButNotBehind | crates/y7ke-app/src/rate_limit.rs:23-34 | when the bucket refuses a request that another choice admits, its window is full, so it is not behind unless it was when that window began |
| RateLimit.WindowBound | crates/y7ke-app/src/rate_limit.rs:23-34 | every closed interval of the window's length contains at most `max_events` admitted requests |
| RateLimit.LimiterBound | crates/y7ke-app/src/rate_limit.rs:77-103 | both hold per peer and protocol between two forgets, whatever other peers and protocols do |
| RateLimit.ServedIff | crates/y7ke-app/src/rate_limit.rs:45-75 | with the limits as shipped a request is served if and only if fewer than 60 handshakes, 1200 messages or 256 sync requests of that peer were served in the minute before |
| RateLimit.BucketsAreIndependent | crates/y7ke-app/src/rate_limit.rs:36-104 | a bucket depends only on its own requests since the peer was last forgotten |
| RateLimit.BurstAdmitted | crates/y7ke-app/src/rate_limit.rs:23-34 | a bucket with room for all of a burst refuses none of it |
| RateLimit.Bucket.TryConsume | crates/y7ke-app/src/rate_limit.rs:24-33 | prunes, decides and records in place |
| RateLimit.RateLimiter.Allow | crates/y7ke-app/src/rate_limit.rs:77-96 | one bucket of one peer, created lazily |
| RateLimit.RateLimiter.Forget | crates/y7ke-app/src/rate_limit.rs:98-103 | drops the peer's buckets |
| Reconnect.AttemptsAreSpaced | crates/y7ke-app/src/reconnect.rs:37-66 | the n-th attempt is at least 30 (2^n - 1) s after the first for n up to 5 and 930 + 600 (n - 5) s beyond |
| Reconnect.SpanBound | crates/y7ke-app/src/reconnect.rs:46-66 | any span of T >= 930 s from the first attempt sees at most 6 + (T - 930) / 600 attempts |
| Reconnect.FiresIff | crates/y7ke-app/src/app.rs:603-619 | a look redials if and only if the wait since the latest attempt, 30 s doubled up to 480 s and then 600 s, and its jitter are over |
| Reconnect.CooldownTable | crates/y7ke-app/src/reconnect.rs:61-66 | the cooldown doubles from 30 s and is 600 s from step 5 on |
| Reconnect.Backoff.TryRecord | crates/y7ke-app/src/app.rs:603-619 | fires and reschedules exactly when due |
| Reconnect.UpgradeCount | crates/y7ke-app/src/app.rs:516-523 | n relayed ticks, n at least 11, give exactly 3 + min(n - 1, 2^32 - 1) / 20 upgrade attempts, the saturation of the counter included |
| Reconnect.UpgradeBurst | crates/y7ke-app/src/app.rs:516-523 | of the first ten relayed ticks only the first and the sixth attempt an upgrade |
| Reconnect.UpgradeBackoff.Tick | crates/y7ke-app/src/app.rs:690-697 | counts with saturation and decides on the old count |
| Swarm.ReachableSound | crates/y7ke-net/src/swarm.rs:604-790 | in every reachable state the relays with a circuit listener are the reserved ones, LAN-only mode has neither, and address lists hold at most 16 addresses without repeats |
| Swarm.RememberedKeepsNewest | crates/y7ke-net/src/swarm.rs:365-380 | the newest address is always kept, and only the oldest of sixteen is displaced |
| Swarm.KnownAddresses | crates/y7ke-net/src/swarm.rs:365-380 | from every sound state, so from every reachable one, a step makes an address known if and only if it tells of it, and forgets one if and only if it displaces the oldest of sixteen, it expires, its peer leaves for good off the roster, or it is a circuit given up for LAN-only |
| Swarm.ModeAndRoster | crates/y7ke-net/src/swarm.rs:562-602 | the mode is the last one set and the roster groups the addresses last given |
| Swarm.ListenersOf | crates/y7ke-net/src/swarm.rs:722-782 | a relay has the listener last asked for, and a listener runs until it ends by itself, its relay closes on the roster, or the mode turns LAN-only |
| Swarm.ReservationRenewedIff | crates/y7ke-net/src/swarm.rs:722-782 | the next direct connection of a reserved relay, after any steps, gets a new circuit if and only if by then the mode is Internet, the roster lists it, and a close while it was listed or a switch to LAN-only came between |
| Swarm.NewCircuitIff | crates/y7ke-net/src/swarm.rs:722-756 | in every reachable state a direct connection gets a new circuit if and only if the mode is Internet, the peer is on the roster, and no earlier reservation of it is still kept |
| Swarm.ReservedIff | crates/y7ke-net/src/swarm.rs:604-775 | after any steps a relay is reserved if and only if it was, or a step reserved it, and nothing took it away since |
| Swarm.StaleReservation | crates/y7ke-net/src/swarm.rs:758-775 | a reserved relay that is off the roster at its close, listed again and back gets no new circuit |
| Swarm.GroupedRoster | crates/y7ke-net/src/swarm.rs:562-575 | the roster groups exactly the addresses that name a peer, without repeats |
| Swarm.TaskState.constructor | crates/y7ke-net/src/swarm.rs:176-190 | the initial roster |
| Swarm.TaskState.OnEstablished | crates/y7ke-net/src/swarm.rs:702-756 | address book, reservation and listener after a connection |
| Swarm.TaskState.OnClosed | crates/y7ke-net/src/swarm.rs:758-790 | what a close drops, for roster relays and for others |
| Swarm.TaskState.OnUpdateBootstraps | crates/y7ke-net/src/swarm.rs:562-602 | the roster is replaced |
| Swarm.TaskState.OnApplyDialMode | crates/y7ke-net/src/swarm.rs:604-662 | LAN-only tears down every circuit and prunes circuit addresses |
| Swarm.TaskState.RememberAddress | crates/y7ke-net/src/swarm.rs:371-379 | bounded, no repeats |
| Swarm.DialTargets | crates/y7ke-net/src/swarm.rs:402-418 | what a Dial command under LAN-only may try: no circuit address, and nothing else is dropped |

## Left out

- libp2p, tokio, timers, sockets, Kademlia and real dialing: nondeterministic steps, first-in-first-out queues and boolean outcomes stand for them.
- SQL and migrations: tables are maps keyed by primary key, queries are what they return; rows with equal retry times come in any order.
- Cryptography and encodings: honest envelopes open, everything else is `Garbage`; nonces, signatures and timestamps are not stored.
- Crash points between two database calls and failing database calls; a handler that fails does so only where the network or an envelope makes it.
- `Lagged` event loss on the application's broadcast channel.
- The separate locks inside `refresh_presence`: it is one step here.
- Peers whose identity is not Ed25519: their events and requests are ignored or refused by the source.
- Third parties in the two-node machine: the queue, contacts and requests of other peers appear in the one-node runs instead.
- SyncedRuns.LiveOrderIff: asks for a session at the start of every reconcile, which a contact accepted before its handshake returned need not have; `SyncedRuns.NoGapIff` is exact without it.
- Delivered.FlushedNoticeIff: asks that sealed notices have ids of their own, which fresh UUIDs have; two notices with one id could not be told apart.
- Drain.DrainContract: one drain with nothing of other tasks between its rows; in the two-node machine every send of a drain starts and ends by itself.
- RateLimit.Bucket.TryConsume: an instant is an integer, so the subtraction of the window never underflows.
- Two reconciles of one peer at once: the in-flight guard of `spawn_kick_sync` is taken as working.
- `debug_clear_outbound_queue`, which drops queue rows on purpose and is kept for the repository's own tests.
- Status column decoding, request greetings, nicknames, listing and decrypting for display, and the row timestamps.
- Hole-punch timing (`opened_at`), `at_ms` stamps, log lines and the hole-punch counters.
- App.AppInner.Delete: the background flush that follows is `App.AppInner.FlushPendingDelete`; the disconnect after it is a network event.
- ConnectionTable.Table.OnEstablished: the drain, flush and reconcile that end the arm are methods of `App.AppInner`, interleaved freely with it; so is the drain that ends `ConnectionTable.Table.OnUpgraded`.
- The NAT verdict machine, dial-priority sorting, bootstrap pings, diagnostics, settings storage and the user interface.
- The `DialAddress` command, which dials the address it is given whatever the dial mode; `Swarm.DialTargets` is about `Dial`.
- Session agreement between the two sides after a lost handshake reply: not a property of the source, so sessions are set on either side independently.
- Liveness over time (that a message is eventually delivered): only progress of single steps is stated, since the network may drop everything.
