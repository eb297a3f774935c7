# Glial runtime: a verified model

Glial keeps a live binding between an application's declared surfaces and an operation log that may or may
not be connected to a mesh. This project models the parts of it whose correctness is an argument rather than
a lookup, in Dafny 4.11, and proves what they promise.

* **Text.** `AtomIds`, `Forest`, `Fold`, `Projection`: atom ids, the identity projection as the stack
  traversal of a forest of atoms, and its order, stability and independence of arrival. `Planner`,
  `Replacement`: turning a new text into deletes and inserts, and the proof that projecting them shows it.
  `Normalise`, `Delivery`, `Assembler`: sequence normalisation, causal delivery, and the retained assembler
  that must feed its engine exactly what full reconstruction feeds. `Minting`, `Document`, `Runs`,
  `TextSteps`, `TextInstance`: the mounted document, which mints, batches, sends, stores and publishes
  operations. `Merging`: what two replicas have once they exchange what they hold. `Selection`: carets.
  `Authorship`: that no element is ever inserted twice, which carets and merging rest on. `Replicas`: any
  number of replicas, each writing under its own origin, exchanging what any of them ever held. `Anchors`: that
  over their runs what an operation names is delivered before it.
* **Log.** `LogFold`, `LogInstance`: paging, and the delta stream from which a consumer keeps the whole.
* **Supplier.** `SupplierSteps`, `Supplier`: attaching, dropping, reattaching and detaching servings.
* **Assistance.** `AssistanceSteps`, `Offers`, `AssistanceSupplier`, `ConsumerSteps`, `AssistanceConsumer`,
  `Pairing` (with `Authorities`): offers, grants, resumes, the commit gate, what every request is answered, and
  what one side's answers mean to the other. `Worlds`: a consumer, the suppliers of any number of generations, and a channel between them.
* `Orders`, `Wrappers`, `TextOps` and `Store` are shared: orders and sorting, results, operations, the log.

Objects the runtime updates in place are classes (`TextCrdtAssembler`, `Instance`, `MemoryInstanceStore`,
`LogBuffer`, `LogInstance`, `Serving`, `Supplier`, `AssistanceSupplier`, `AssistanceConsumer`). Where the
runtime's code is cut by `await`, each method is one stretch between two awaits and returns the suspended
frame; it is proved equal to a step function on the object's state, and the properties are proved about all
interleavings of those steps.

## How the runtime's terms are modelled

* Text is a sequence of code points, and strings are well formed. `localeCompare` is a strict total order
  given as a parameter (`Profile.less`); the default string sort is lexicographic (`Orders.StringLess`).
* `encodeURIComponent` and its inverse are a pair of functions satisfying `AtomIds.UriCodec`: decoding undoes
  encoding, and encoded actors contain neither a colon nor a line terminator.
* The CRDT node is specified as its header describes it: operations are deduplicated by origin and sequence,
  buffered until their origin's previous operation and their dependencies are delivered, and delivered once
  (`Delivery.Handle`); a revision is the number delivered.
* A payload is an edit or malformed; observations, proofs, secrets and clock values are values. A proof is an
  opaque term over its inputs, which nothing but equal inputs produces.
* Each stretch of code between two awaits sees one clock value. `runtime.id()` never repeats an id. The
  provider, `changed` and the schedule do not call back synchronously.
* In a `World` the channel delivers to a call any answer that some supplier gave to a request of that
  operation, consumer and token, at any later time and any number of times, or nothing, or `unknown`. A grant
  the host adopts itself is one that some supplier answered to somebody.
* A destination is a script of sends; each echoes some operations, in one callback, and then answers with its
  operation's identity or fails. That a write changes nothing unless all echoes are valid rests on that one
  callback: of several, those before the invalid one would land.
* In a system of replicas a replica replaces its text by operations of its own origin, or receives a log that
  some replica held at some time: late, repeatedly or never.
* A `Sound` document is one in which everything held is delivered, the atoms form a forest, only atoms are
  deleted, and no atom's rank exceeds its operation's lamport. The empty document is sound, replacements keep
  it, and so does exchanging operations (`Merging`); so every run of any number of replicas keeps every
  document sound (`Replicas.RunSound`).

## Where the code does less than one might expect

Each is stated with the exact condition under which it does hold.

* A serving registered through a supplier after `detachAll` still attaches, is hooked and served
  (`SupplierSteps.LateServingAttaches`). After `detachAll` a serving can come to be hooked if and only if it
  is registered after it (`SupplierSteps.HookedExactly`).
* If the subscribe of such a serving is refused nothing retries it, whatever was still at work
  (`SupplierSteps.LateServingAbandoned`). Every registered serving is tended in every state of a run in which
  none is registered after a `detachAll` (`SupplierSteps.TendedUnlessLate`), and after a `detachAll` all stay
  tended if and only if none is registered any more (`SupplierSteps.TendedExactly`).
* Without `saveResume`, accepting an offer does not change the retained authority, so a resume in flight can
  add a second accepted offer. At most one offer is accepted in every run if and only if `saveResume` is
  configured or no consumer holds authority to resume with (`AssistanceSteps.OneAcceptedExactly`). The commit
  gate and what offers were granted hold in either configuration (`AssistanceSteps.OneInvocationGated`,
  `AssistanceSteps.RunMoves`), and so does that everything is ended while the supplier is off
  (`AssistanceSteps.EndedWhileOff`).
* Without `saveResume`, a supplier constructed with retained authority hands that authority out with any
  offer that expires at another time (`Pairing.StatusUnbound`). Every status carries authority that expires with its
  grant if and only if `saveResume` is configured or there was none to begin with (`Pairing.StatusBound`).
* After an invocation with unknown outcome, a late reply to an earlier, abandoned invocation lifts the block
  (`ConsumerSteps.UnknownWithAnotherInFlight`). No invocation is sent until a call that clears the block if and
  only if the last one is unresolved and no other is in flight, or the consumer is disconnected
  (`ConsumerSteps.UnknownHoldsExactly`).
* A consumer that disconnects while a status result is on its way back to its caller adopts it all the same
  (`ConsumerSteps.LateStatusAdopted`). It never holds a grant again until its host adopts one if and only if
  no such result was on its way (`ConsumerSteps.DisconnectedExactly`); the host's own `adopt` does not look at
  the disconnection either (`ConsumerSteps.HostAdoptsLate`, `ConsumerSteps.HeldAgainExactly`).
* A destination may publish an operation and then fail, as one does whose bus calls a subscriber that throws.
  A replacement stopped by such a send after `k` others stores `k + 1` operations (`TextInstance.OneMoreLands`).
  It stores exactly the `k` sent if and only if their identities are new and distinct and what the failing
  send echoed is held by then (`TextInstance.Instance.ReplaceTextThrough`, `TextSteps.ExactlyFirst`); a
  failed write changes nothing if and only if it echoed nothing new, or something invalid
  (`TextInstance.Instance.WriteThrough`).
* A batched replacement mints what single writes would if and only if the local sequences held are as many
  as the highest of them: one path counts, the other takes the maximum (`Minting.BatchIsOneByOne`).
* An atom's insert refers to all heads its replica held, so a node delivers it only after the insert it is anchored
  at, whatever it is fed and in which order, if and only if it is not given later operations of that insert's origin
  without the insert itself: references below the first sequence held are dropped (`Anchors.AnchorsFirstExactly`,
  `Anchors.LaterAlone`).
* A log consumer's copy is exact after a delta if and only if everything held was announced when it
  subscribed, as hydrating at mount ensures (`LogInstance.DeltaCompletesExactly`).
* A bounded read delivers nothing, though records are pending, exactly when its caller allows no record
  (`LogFold.BlocksExactly`).

## Model

| member | source | states |
|---|---|---|
| AtomIds.AtomIdRoundTrip | src/text_crdt.ts:130-174 | parsing an atom id made for any actor, counter and rank gives back that actor and counter, whatever the fallback |
| AtomIds.AtomIdExactly | src/text_crdt.ts:130-143 | an id is made exactly of a named actor and positive safe numbers, and is the rank counted down from the highest safe integer in 16 digits, the encoded actor and the counter |
| AtomIds.RankOrder | src/text_crdt.ts:138-142 | of two atom ids the one of higher rank sorts first, across the whole safe-integer range, whoever the actors are |
| AtomIds.RankOrderExact | src/text_crdt.ts:138-142 | for different ranks, string order of ids is exactly the reverse of rank order |
| AtomIds.AtomIdsInjective | src/text_crdt.ts:130-143 | equal atom ids come from the same actor, counter and rank |
| AtomIds.ParsesExactly | src/text_crdt.ts:145-174 | any atom id parses to what it says in the ranked form, else to what it says in the older form, else to the operation's origin and sequence, or 1 where that is no counter |
| AtomIds.FormsUnique | src/text_crdt.ts:145-165 | a string says at most one thing in either form |
| AtomIds.ElementKeyInjective | src/text_crdt.ts:176-178 | the lookup key tells elements apart even when an actor contains the separator |
| Forest.OrderEmitsAttachedOnce | src/text_crdt.ts:279-301 | on any atom map, cycles and orphans included, the traversal emits each atom whose parent is null or present exactly once and no other |
| Forest.ForestOrder | src/text_crdt.ts:279-301 | on a forest the traversal is ascending in the order of root paths and covers every atom |
| Forest.OrderIsPreorder | src/text_crdt.ts:279-298 | on a forest the explicit stack gives recursive pre-order with siblings sorted by id |
| Forest.OrderStable | src/text_crdt.ts:267-298 | the order of a parent-closed forest is the order of any larger one with the other atoms left out |
| Forest.InsertLandsAfterAnchor | src/text_crdt.ts:127-129 | an atom that sorts before its anchor's children lands immediately after the anchor, and nothing else moves |
| Fold.FoldDescribed | src/text_crdt.ts:246-260 | the fold holds, for each id, the least of the inserts for it and a tombstone if it was deleted |
| Fold.FoldKeepsFirst | src/text_crdt.ts:215-260 | of the inserts of an atom the fold keeps one with none before it, by anchor, text and origin under the collation and then by sequence |
| Fold.FoldDeltasIsFold | src/text_crdt.ts:437-444 | carrying atoms and tombstones across deltas is one fold over all of them |
| Fold.FoldOrderIndependent | src/text_crdt.ts:215-260 | any order and any splitting into deltas of the same operations give the same atoms and tombstones, equivocating inserts included |
| Delivery.FeedHolds | src/text_crdt.ts:224-240 | a node fed distinct operations holds exactly those, delivered causally, with nothing deliverable left waiting |
| Delivery.FeedDeduplicates | src/text_crdt.ts:224-240 | a node fed any operations, repeated identities included, is left as by their first arrivals, whether the earlier one was delivered or still waited |
| Delivery.DeliveryConfluent | src/text_crdt.ts:224-240 | the delivered operations do not depend on the order of arrival |
| Delivery.ArrivalOrderIndependent | src/text_crdt.ts:224-260 | any arrival order of the same operations gives the same atoms and tombstones |
| Projection.ProjectIdentity | src/text_crdt.ts:262-311 | the loops over children, stack and leftovers end on every atom map and give the elements and text of the specified order |
| Projection.BuildChildren | src/text_crdt.ts:267-277 | every present parent is mapped to exactly its children, ascending |
| Projection.Visit | src/text_crdt.ts:279-298 | the stack loop from one root emits what depth-first traversal from it emits and marks it visited |
| Projection.ProjectedText | src/text_crdt.ts:303-304 | the text is that of the live atoms in traversal order |
| Projection.ElementsExactly | src/text_crdt.ts:279-303 | each element says what its atom id parses to, the atom's text and whether it was deleted, and is visible exactly when it was not |
| Planner.PlanTextReplacement | src/text_crdt.ts:465-503 | the plan replaces a run of visible elements, each reaching into the changed span, so that the result reads the next text; deletes come first, then a chain of inserts |
| Planner.CommonEnds | src/text_crdt.ts:473-480 | the longest common prefix, and the longest common suffix not overlapping it |
| Planner.CodePointRanges | src/text_crdt.ts:453-460 | each visible element's span in the text |
| Planner.Overlapping | src/text_crdt.ts:484 | the affected elements are exactly those meeting the changed span, and they form one run that covers it |
| Planner.Containing | src/text_crdt.ts:485-488 | for a pure insertion, the one element strictly containing the point, or none when there is none |
| Planner.FindAnchor | src/text_crdt.ts:493 | the element ending at the boundary, found from the end |
| Planner.BuildEdits | src/text_crdt.ts:495-502 | one delete per affected element, then one insert per character, each after the one before |
| Replacement.ReplacementExact | src/text_crdt.ts:465-503 | for any projected forest and any next text, projecting the planned edits with ids that sort first shows exactly the next text |
| Replacement.ProjectionExact | src/text_crdt.ts:462-503 | and the elements outside the affected run keep their ids, in place, around the new ones |
| Normalise.FeedDistinct | src/text_crdt.ts:190-207 | normalised operations keep distinct identities |
| Normalise.ValidExactly | src/text_crdt.ts:87-119 | an operation is valid exactly when it names an atom, inserts text if it inserts, and mentions only safe natural sequences |
| Normalise.BasesDescribed | src/text_crdt.ts:180-188 | an origin's base is the lowest sequence held for it |
| Normalise.ClockDescribed | src/text_crdt.ts:195-207 | a clock holds, per origin, the highest positive normalised reference |
| Assembler.RebaseExact | src/text_crdt.ts:407-410 | the rebase flag is raised if and only if the normalisation of some operation already fed changes |
| Assembler.NeedsRebase | src/text_crdt.ts:407-410 | the loop over bases computes that flag |
| Assembler.CollectFresh | src/text_crdt.ts:394-406 | what is new, first arrivals only, and the bases with it |
| Assembler.TextCrdtAssembler.constructor | src/text_crdt.ts:331-340 | a new assembler has fed its engine what an empty history feeds |
| Assembler.TextCrdtAssembler.ValidateNew | src/text_crdt.ts:374-390 | skipping operations held unchanged accepts exactly the valid batches |
| Assembler.TextCrdtAssembler.Apply | src/text_crdt.ts:392-435 | whatever the batching, the engine has been fed exactly the deduplicated history in arrival order under the history's own bases; an invalid batch changes nothing |
| Assembler.TextCrdtAssembler.State | src/text_crdt.ts:437-444 | the incremental state is what full reconstruction of the history shows |
| Assembler.TextCrdtAssembler.Save | src/text_crdt.ts:343-348 | a checkpoint holds the history and what its delivery folds to |
| Assembler.TextCrdtAssembler.FromCheckpoint | src/text_crdt.ts:360-369 | an assembler restored from a genuine checkpoint is in the state of one that was fed its history |
| Assembler.Restore | src/text_crdt.ts:350-372 | restoring succeeds if and only if every saved operation is persisted with the same payload and refs and the log is valid; the result shows what full reconstruction of the log shows |
| Assembler.MatchesExactly | src/text_crdt.ts:350-359 | saved operations count as persisted exactly when each one's origin, sequence, payload and references are |
| Assembler.RestoredAsReconstructed | src/text_crdt.ts:350-372 | a saved history caught up on the rest of the log shows what the log shows |
| Assembler.SameLogSameFold | src/text_crdt.ts:225-260 | two logs of the same operations, in any order, fold alike |
| Assembler.Open | src/instance.ts:249-262 | a mount with an unusable checkpoint falls back to the whole log and shows the same |
| Assembler.Reconstruct | src/instance.ts:256-259 | full reconstruction from the retained log |
| Store.MemoryInstanceStore.Append | src/store.ts:47-52 | an operation is stored unless its origin and sequence are held, and the outcome says which |
| TextOps.FreshExactly | src/store.ts:47-52 | of arriving operations exactly those land, in their order, that are not held and repeat no earlier arrival |
| Minting.BatchIsOneByOne | src/instance.ts:206-211 | the replacement loop mints sequence, lamport, refs and payload as writing the edits one by one would, exactly when as many local operations are held as the highest local sequence says |
| Minting.MintedLocally | src/instance.ts:206-230 | a single write is numbered by how many local operations are held, outranks every lamport, and refers to each held origin once, ascending, by the last operation held of it |
| Minting.BatchComesInTurn | src/instance.ts:295-308 | every operation of a batch carries its edit under the next local sequence, outranks every lamport, and refers to all heads of what is held and of the batch so far |
| Minting.DenseSequences | src/instance.ts:207 | for distinct positive local sequences that is the case exactly when they are 1 to n |
| Document.FollowsDelivered | src/instance.ts:221-230 | an operation continuing its origin and referring only to held heads is delivered as soon as it is fed |
| Document.BatchDelivered | src/instance.ts:299-308 | so is every operation of a batch, in turn |
| Runs.EmptySound | src/text_crdt.ts:553-555 | the empty document is sound |
| Runs.AllocatedFresh | src/instance.ts:285-291 | ids ranked above every held lamport are new, distinct and sort before every id in use |
| Runs.ReplacementReads | src/instance.ts:279-315 | on a sound document, operations carrying the plan and following what is held make the document read the next text and leave it sound, so every further replacement does too |
| TextSteps.EchoesAddNothing | src/instance.ts:171-176 | synchronous echoes of operations sent in the batch add nothing |
| TextSteps.CollectedInTurn | src/instance.ts:300-308 | the batch holds, send by send, what was echoed and then the operation answered with |
| TextSteps.ExactlyFirst | src/instance.ts:309-314 | of operations sent and then others echoed, exactly the sent ones are stored if and only if they are all new and distinct and the others are held by then |
| TextSteps.StepTogether | src/instance.ts:378 | what the store gains is what the assembler gains |
| TextSteps.BatchFollows | src/instance.ts:295-308 | every minted operation continues the local origin, refers only to what is held and outranks all of it |
| TextInstance.NextTextCounter | src/text_crdt.ts:546-551 | the counter is one above the highest of the actor's elements, and at least 1 |
| TextInstance.NamedIffAllocatable | src/instance.ts:285-291 | every insert is given an id exactly when the actor is named and counters and ranks stay within the safe integers |
| TextInstance.BatchValid | src/instance.ts:295-314 | a minted batch of proper edits passes validation if and only if the local sequence numbers suffice |
| TextInstance.Instance.TextCrdtState | src/instance.ts:245-262 | the mounted state is what the stored log shows |
| TextInstance.Instance.Ingest | src/instance.ts:170-187 | outside a batch: all valid or nothing changes, then the log gains what was not held and one state is published if anything landed; within a batch operations are only collected |
| TextInstance.Instance.Write | src/instance.ts:139-156 | a local write stores the minted operation and publishes one state, or changes nothing; the operation is the next of its origin, outranks every lamport and refers to each held origin once, ascending, by its last operation |
| TextInstance.Instance.WriteThrough | src/instance.ts:135-156 | whatever the destination echoes meanwhile: nothing changes unless every echo is valid, then the echoes land and after them the operation unless the send throws or it is invalid, each landing publishing one state; a failed write changes nothing exactly when no valid echo was new; if only the operation itself is echoed, it lands once and one state is published |
| TextInstance.Instance.MintEdits | src/instance.ts:295-308 | the loop's running sequence, lamport and heads mint one operation per edit, each the next of its origin, above every lamport, and referring to all heads of what is held and of the batch so far |
| TextInstance.Instance.SendEdits | src/instance.ts:300-308 | the batch is what the successful sends and their echoes gave, up to the first failure, and what the failing send echoed |
| TextInstance.Instance.Finish | src/instance.ts:309-314 | batch mode is left and what was collected is ingested, whether or not the loop completed |
| TextInstance.Instance.ReplaceText | src/instance.ts:279-315 | succeeds exactly when every id can be allocated and the local sequence numbers stay safe integers, and otherwise changes nothing; the log gains one such operation per planned edit, in order, and on a sound document the editor shows exactly the next text and the document stays sound |
| TextInstance.Instance.ReplaceTextThrough | src/instance.ts:279-315 | a throw after k sends leaves what they sent and what the throwing one had echoed, and batch mode cleared: if the k echo only what was sent, exactly the k operations are stored if and only if their identities are new and distinct and the failing send echoed nothing else, and validation fails exactly when some number or a last echo is invalid; when they follow a sound document and all were sent the editor shows exactly the next text |
| TextInstance.OneMoreLands | src/instance.ts:299-314 | on any log, for any edits and any k, a destination that publishes before it answers and fails after the k-th send leaves k + 1 operations |
| Merging.MergeSound | src/text_crdt.ts:224-311 | merging two sound documents in which no atom is inserted twice gives a sound document |
| Merging.MergeExtends | src/text_crdt.ts:267-298 | the merged document keeps each replica's elements, tombstones included, in their order |
| Merging.ExchangeConverges | src/instance.ts:166-187 | two replicas that ingest what the other holds end up sound and showing the same elements and text |
| Authorship.ReplacementOwned | src/text_crdt.ts:546-551 | a replacement by its own origin names only elements no held operation named, so over a run of replacements no element is inserted twice |
| Authorship.OwnedConverges | src/instance.ts:166-187 | two replicas of which each origin is written by one exchange what they hold and end sound, equal and again with no element inserted twice |
| Authorship.ElementsUnique | src/text_crdt.ts:262-311 | in every such document element ids are unique |
| Replicas.MintedReplaces | src/instance.ts:279-315 | what an unconnected document mints for a replacement is a replacement by its own origin |
| Replicas.StepKeepsGood | src/instance.ts:170-315 | every replacement and every exchange keeps every log ever held sound and holding, of each origin, what its writer wrote first |
| Replicas.RunSound | src/instance.ts:170-315 | in every run of any number of replicas from nothing, each replacing under its own origin or receiving, late or repeatedly, what another held, every document is sound and no two of its elements share an id |
| Replicas.RunReads | src/instance.ts:279-315 | and every replacement in it leaves its replica reading exactly the text asked for |
| Replicas.RunConverges | src/instance.ts:166-187 | and any two replicas that send each other what they hold show the same |
| Anchors.MintedInformed | src/instance.ts:279-308 | what an unconnected document mints for a replacement refers, operation by operation, to all heads |
| Anchors.RunAnchored | src/instance.ts:295-308 | in every run of replicas whose operations do, every log ever held has the insert of whatever an operation deletes or inserts after, and the operation refers to it or to a later one of its origin |
| Anchors.ReferredFirst | src/text_crdt.ts:190-240 | fed any operations in any order under bases no higher than it, a node delivers an operation only after one it refers to |
| Anchors.AnchorsFirstExactly | src/text_crdt.ts:180-240 | in such a run, for a node fed any of the operations ever written, in any order, a delivered operation has the insert of what it names delivered before it, if and only if the node was not given later operations of that insert's origin without it |
| Anchors.LaterAlone | src/text_crdt.ts:195-207 | given a later operation of the insert's origin alone, a node delivers what another origin inserted after it |
| Selection.CursorAtOffset | src/text_crdt.ts:505-518 | the caret sits at the first element reaching the offset, on its nearer side |
| Selection.ResolveCursor | src/text_crdt.ts:527-537 | a caret stands for the text shown before or through its element, or an end of the text if it is unknown |
| Selection.ResolvesExactly | src/text_crdt.ts:527-537 | a caret resolves to the text shown before or through its element's first occurrence, and one at no element of the state to an end of the text |
| Selection.AnchorResolvesNearest | src/text_crdt.ts:505-537 | in the same state the caret for any raw offset, in the text or not, resolves to the nearest element boundary, the later of two equally near, so to itself exactly when it is one; in an empty text, to the start |
| Selection.CaretsKeepOrder | src/text_crdt.ts:520-544 | in every later state two carets keep their order and each equals the text shown before or through its element; carets of an empty text stay at the start |
| Selection.LaterStatesExtend | src/text_crdt.ts:267-311 | later inserts and tombstones only extend the elements |
| LogFold.LogBuffer.Push | src/folds/log.ts:34-38 | a record is numbered one past the last |
| LogFold.LogBuffer.Read | src/folds/log.ts:50-62 | a read gives the longest run after the cursor that both bounds allow, a single record being always allowed by the byte bound, and the cursor to go on from |
| LogFold.PageBounds | src/folds/log.ts:50-62 | a page holds no more records than allowed, no more bytes unless it is a single record, and the next record would have been one too many |
| LogFold.PendingExactly | src/folds/log.ts:50-53 | what a read pages through are the records numbered above its cursor, in order |
| LogFold.BlocksExactly | src/folds/log.ts:53-61 | a read delivers nothing exactly when nothing is pending or no record is allowed |
| LogFold.DeliveredOnceInOrder | src/folds/log.ts:33-62 | over any interleaving of pushes and reads with any bounds, what was delivered is every record after the start cursor, once and in order, up to the current one |
| LogFold.Drained | src/folds/log.ts:49-62 | with at least one record allowed per page, reading on ends with everything delivered, in no more reads than records |
| LogInstance.ReplicasAgree | src/instance.ts:322-329 | replicas holding the same operations show the same log |
| LogInstance.WholeLists | src/instance.ts:322-341 | the records of a log are those of a permutation of what is stored, ascending by lamport, then origin, then sequence, numbered from 1 |
| LogInstance.LogInstance.Hydrate | src/instance.ts:192-193 | at mount everything persisted counts as announced |
| LogInstance.LogInstance.Refresh | src/instance.ts:343-344 | a subscriber is handed the whole, ascending by lamport, then origin, then sequence |
| LogInstance.LogInstance.Write | src/instance.ts:139-156 | a local write mints on top of everything held, lands, and is announced as the last record of the whole |
| LogInstance.LogInstance.Ingest | src/instance.ts:170-187 | the log gains what was not held, and one delta announces it |
| LogInstance.LogInstance.FoldAndBroadcast | src/instance.ts:353-372 | one delta of exactly what is held and not announced, none if there is nothing, with the whole ascending by lamport, then origin, then sequence, and then nothing is left unannounced |
| LogInstance.DeltaCounts | src/instance.ts:357-371 | the delta's base and length add up to the whole's length |
| LogInstance.DeltaAnnounces | src/instance.ts:363-369 | a delta announces exactly the operations held but not announced before |
| LogInstance.DeltaCompletesExactly | src/instance.ts:357-372 | a consumer that places the delta's records at their seq holds the whole if and only if everything held at its refresh had been announced |
| LogInstance.ConsumerHoldsWhole | src/instance.ts:353-372 | after any run from a hydrated instance, a consumer that places every delta holds exactly the current whole |
| LogInstance.AnnouncedExactlyOnce | src/instance.ts:353-372 | over any run each operation not present at hydration is announced in exactly one delta, and nothing else is |
| SupplierSteps.NextRegistered | src/supplier/index.ts:465 | the live set is walked in registration order, skipping what left it and reaching what joined it |
| SupplierSteps.StepKeepsGood | src/supplier/index.ts:209-352 | every step keeps every serving fenced |
| SupplierSteps.StepKeepsProgress | src/supplier/index.ts:422-472 | every step of a supplier that is not detached keeps every registered serving hooked at its current generation, awaited, still to be reached, or due for a retry |
| SupplierSteps.ReachableGood | src/supplier/index.ts:369-472 | both hold in every reachable interleaving of acks, failures, drops, timers and detaches |
| SupplierSteps.OneEffectiveHandler | src/supplier/index.ts:226-237 | at most one handler of a serving is effective, for the current generation, and it is the one unhooking would remove |
| SupplierSteps.ServingMoves | src/supplier/index.ts:209-352 | every step attaches, hooks, drops, detaches or leaves each serving exactly as its event calls for, each spelled out field by field |
| SupplierSteps.ServingsMade | src/supplier/index.ts:402-419 | a registered serving is new and neither hooked nor served, and no other step makes, revives or unregisters one but detaching |
| SupplierSteps.FramesExactly | src/supplier/index.ts:411-472 | what a resumed function suspends as: awaiting the ack of its own serving or of the next registered one, in the function it belongs to |
| SupplierSteps.SettlesExactly | src/supplier/index.ts:227-237 | a settled subscribe throws exactly if its generation is current and it was refused or serving the share threw |
| SupplierSteps.TimersExactly | src/supplier/index.ts:402-472 | a timer is scheduled exactly by a drop, a failed reattach or a failed attach of a serving still registered, unless detached; it is gone once fired, and the last one once everything is detached |
| SupplierSteps.BackoffExactly | src/supplier/index.ts:422-472 | the backoff starts over with a drop, a successful attach and a completed reattach, and grows by one with a failed reattach |
| SupplierSteps.GreetsExactly | src/supplier/index.ts:432-452 | a hello goes out exactly when a step calls for one and none has since the connection was lost |
| SupplierSteps.DropSupersedes | src/supplier/index.ts:446-452 | after a drop no registered serving is hooked, each one's generation is above every one in flight or installed, a retry is due and the next attach greets again |
| SupplierSteps.DroppedAcksIgnored | src/supplier/index.ts:220-237 | whatever happens after a drop, the ack or refusal of a subscribe in flight at it hooks, serves, throws and schedules nothing |
| SupplierSteps.GreetsAgain | src/supplier/index.ts:432-452 | after a drop nothing is greeted until the first step that attaches again, and that step greets |
| SupplierSteps.GreetedOnce | src/supplier/index.ts:432-452 | a connection once greeted is not greeted again until it drops or reattaching fails |
| SupplierSteps.DetachedForGood | src/supplier/index.ts:264-269 | once a serving is detached no later ack hooks or serves it, in any run |
| SupplierSteps.DetachedQuiet | src/supplier/index.ts:225-236 | a settled subscribe of a detached serving neither throws nor schedules a retry |
| SupplierSteps.DetachedSupplier | src/supplier/index.ts:402-409 | detaching all detaches everything ever served, and from then on no timer is scheduled and no reattaching starts |
| SupplierSteps.LateServingAttaches | src/supplier/index.ts:411-430 | a serving registered after that still hooks and is served |
| SupplierSteps.HookedExactly | src/supplier/index.ts:402-430 | after detaching all, a serving can still come to be hooked if and only if it is registered after it |
| SupplierSteps.LateServingAbandoned | src/supplier/index.ts:422-459 | from any state of a detached supplier, one more serving, refused, ends up registered with nothing left to retry it |
| SupplierSteps.TendedUnlessLate | src/supplier/index.ts:402-472 | in every run in which none is registered after detaching all, every registered serving is tended in every state |
| SupplierSteps.TendedExactly | src/supplier/index.ts:402-472 | after detaching all, every registered serving stays tended, whatever happens, if and only if none is registered any more |
| Supplier.Serving.Begin | src/supplier/index.ts:220-228 | attaching supersedes the previous generation and unhooks it |
| Supplier.Serving.Settled | src/supplier/index.ts:227-236 | only the current generation of a serving not detached hooks and serves, or throws |
| Supplier.Serving.MarkDropped | src/supplier/index.ts:259-262 | a drop supersedes the generation and forgets the hook: what that means for acks in flight is SupplierSteps.DropSupersedes and DroppedAcksIgnored |
| Supplier.Serving.Detach | src/supplier/index.ts:264-269 | detaching unhooks and supersedes for good |
| Supplier.Serving.Publish | src/supplier/index.ts:286-309 | publishing appends exactly when the shape matches and the serving is not detached |
| Supplier.Supplier.Register | src/supplier/index.ts:411-430 | a registered serving starts attaching after the hello |
| Supplier.Supplier.Run | src/supplier/index.ts:422-472 | what attachOne and reattachAll do when they resume |
| Supplier.Supplier.ReattachFrom | src/supplier/index.ts:465-466 | the loop over the live set goes on to the next registered serving or ends, resetting the backoff |
| Supplier.Supplier.SubscribeSettled | src/supplier/index.ts:227-237 | an ack or a refusal reaches its serving and its caller |
| Supplier.Supplier.TimerFires | src/supplier/index.ts:458-464 | a timer starts reattaching unless the supplier is detached |
| Supplier.Supplier.OnDrop | src/supplier/index.ts:446-452 | the supplier is left as a drop leaves it, servings superseded, ungreeted and with a retry due, as SupplierSteps.DropSupersedes spells out |
| Supplier.Supplier.Detach | src/supplier/index.ts:414-419 | a registration handle removes and detaches its serving |
| Supplier.Supplier.DetachAll | src/supplier/index.ts:402-409 | every registered serving is detached and the pending timer cancelled |
| AssistanceSteps.StepKeepsGood | src/assistance/index.ts:40-155 | every step keeps the lifecycle, the resumes across their awaits, one invocation between prepare and commit, and the gate at every commit |
| AssistanceSteps.ReachableGood | src/assistance/index.ts:40-155 | so every reachable interleaving does, with saveResume configured or nobody able to resume |
| AssistanceSteps.EndedWhileOff | src/assistance/index.ts:57-66 | in every run of every supplier, saveResume or not, every offer is ended and none is active while it is not both enabled and ready |
| AssistanceSteps.RunMoves | src/assistance/index.ts:62-114 | over any stretch of any run, saveResume or not, an accepted offer keeps its consumer, deadline and epoch, an ended one its reason too, and what is accepted later has an epoch above all before |
| AssistanceSteps.EpochsIncrease | src/assistance/index.ts:72-113 | of two grants of one run the later was there already, unchanged, or has the higher epoch |
| AssistanceSteps.AcceptPaired | src/assistance/index.ts:72-78 | accepting makes an acceptable offer the one active grant, under the next epoch and its own deadline, and leaves no pending rival; otherwise only expiry happens |
| AssistanceSteps.SignedMoves | src/assistance/index.ts:108-114 | a resume that survives both awaits makes its offer the active grant with the retained expiry and the next epoch, and neither it nor a refused one touches any other offer |
| AssistanceSteps.CommitGated | src/assistance/index.ts:134-149 | a commit happens only while enabled and ready, for the active accepted offer and its epoch, before its deadline and the request's, on the observation the request expects, just read |
| AssistanceSteps.PreparedAnswers | src/assistance/index.ts:143-153 | an invocation is committed exactly if it was prepared, is still permitted and finds what it expected, and is answered applied exactly if it was committed without a throw, conflict exactly if permitted on another observation, and so on for every answer |
| AssistanceSteps.InvocationsAnswered | src/assistance/index.ts:128-153 | so it is for every settled preparation of every run, which commits once or not at all and is then no longer under way |
| AssistanceSteps.OnlyPreparedCommits | src/assistance/index.ts:143-153 | nothing else commits |
| AssistanceSteps.OneInvocationGated | src/assistance/index.ts:134-154 | in every run of every supplier, saveResume or not, at most one invocation is between prepare and commit and every commit was gated |
| AssistanceSteps.TwoAccepted | src/assistance/index.ts:68-113 | without saveResume an accept during a resume in flight ends with two accepted offers |
| AssistanceSteps.OneAcceptedExactly | src/assistance/index.ts:68-113 | at most one offer is accepted in every run if and only if saveResume is configured or nobody can resume |
| Offers.StartsExactly | src/assistance/index.ts:51-56 | a new supplier is off and without offers, and keeps saved authority exactly if it was issued for the same application, workspace, supplier and scope and has not expired |
| Offers.StepsExactly | src/assistance/index.ts:57-154 | in every run each step ends, accepts, adds or leaves every offer, and changes who is paired, the epoch and what is retained, exactly as spelled out event by event in terms of what was held before anything due expired |
| Offers.ArrivalsAnswered | src/assistance/index.ts:86-141 | in every run every request that arrives is answered, or waits, as spelled out operation by operation |
| Offers.ChecksExactly | src/assistance/index.ts:107-108 | a resume goes on exactly with the right proof, for the authority it began with |
| Offers.SignsExactly | src/assistance/index.ts:109-114 | a resume is granted exactly if nothing it rests on changed, with the retained expiry, under the next epoch and with the response's proof |
| Offers.OperatorSetting | src/assistance/index.ts:57-78 | the switches are what they were last set to, and no operator's call touches a request under way |
| AssistanceSupplier.AssistanceSupplier.constructor | src/assistance/index.ts:51-56 | retained authority is kept only for the same place and while unexpired |
| AssistanceSupplier.AssistanceSupplier.FinishOne | src/assistance/index.ts:62-64 | an offer ends once, and ending the active one forgets the retained authority |
| AssistanceSupplier.AssistanceSupplier.ExpireOffers | src/assistance/index.ts:65 | the loop ends exactly the live offers whose deadline has come |
| AssistanceSupplier.AssistanceSupplier.End | src/assistance/index.ts:66 | every offer ends and nothing is retained |
| AssistanceSupplier.AssistanceSupplier.Enable | src/assistance/index.ts:57 | disabling ends everything |
| AssistanceSupplier.AssistanceSupplier.SetReady | src/assistance/index.ts:58 | losing readiness ends everything |
| AssistanceSupplier.AssistanceSupplier.Decline | src/assistance/index.ts:71 | declining ends the one offer |
| AssistanceSupplier.AssistanceSupplier.Accept | src/assistance/index.ts:72-78 | accepting grants under the next epoch and refuses the other pending offers |
| AssistanceSupplier.AssistanceSupplier.Pending | src/assistance/index.ts:60 | the offers still pending after expiry |
| AssistanceSupplier.AssistanceSupplier.Receive | src/assistance/index.ts:86-141 | a request up to its first await: refusals in order, offers, status, read, and what resumes and invocations wait for |
| AssistanceSupplier.AssistanceSupplier.ProofChecked | src/assistance/index.ts:107-108 | a resume goes on only with the right proof |
| AssistanceSupplier.AssistanceSupplier.ProofSigned | src/assistance/index.ts:109-114 | after its last await a resume is granted only if nothing it rests on changed |
| AssistanceSupplier.AssistanceSupplier.PreparationSettled | src/assistance/index.ts:143-153 | the final check and the commit follow the preparation without an await; what is answered and committed when is AssistanceSteps.PreparedAnswers |
| ConsumerSteps.EndedForGood | src/assistance/index.ts:205-243 | a token once recorded as ended is never the grant again, whatever replies arrive, in any order, and whatever the host adopts |
| ConsumerSteps.EndedExactly | src/assistance/index.ts:211-239 | in every run the tokens recorded as ended are those that the host ended, that were held at a disconnection, or that a connected consumer heard had ended in reply to a request for them |
| ConsumerSteps.OverForGood | src/assistance/index.ts:205-243 | from then on, in every run, such a token is never the grant, is never requested again, and whatever comes back for it says ended or unknown |
| ConsumerSteps.CallsExactly | src/assistance/index.ts:206-224 | in every run a request goes out exactly if the consumer never disconnected and no step ended its token, and is answered ended otherwise |
| ConsumerSteps.RepliesExactly | src/assistance/index.ts:211-216 | a request returns its reply, unless the call threw or its token ended or the consumer disconnected meanwhile |
| ConsumerSteps.GrantExactly | src/assistance/index.ts:196-239 | in every run the grant is replaced exactly by what is adopted and has not ended, on its own terms, and lost exactly by a disconnection and by the first end of a token |
| ConsumerSteps.EndsExactly | src/assistance/index.ts:233-241 | the first end of a token is sent on and settles a pending invocation; a repeated one changes nothing |
| ConsumerSteps.UnresolvedExactly | src/assistance/index.ts:220-239 | an invocation stays unresolved until its outcome is known or the host abandons, ends or disconnects |
| ConsumerSteps.OneResumeAtATime | src/assistance/index.ts:185-204 | in every run at most one resume is under way, and the consumer knows whether one is |
| ConsumerSteps.BeginsExactly | src/assistance/index.ts:185-194 | in every run a resume begins exactly if the grant held can be resumed there, the consumer never disconnected, none is under way, none to that generation was tried and none was ever lost; it signs with that grant's authority |
| ConsumerSteps.ResumesGoOn | src/assistance/index.ts:191-204 | what becomes of a resume at each await: sent once signed, verified only with the same expiry, and ended when proven too late |
| ConsumerSteps.IdentityExactly | src/assistance/index.ts:203 | only a resume that is adopted moves the consumer to another generation |
| ConsumerSteps.ChainKeepsExpiry | src/assistance/index.ts:185-205 | through any number of resumes, whatever is answered to them, the grant keeps exactly the first one's expiry as long as status results and the host hand over grants of the expiry then held |
| ConsumerSteps.UnknownHolds | src/assistance/index.ts:220-227 | while the last invocation is unresolved and no other is in flight, none is sent until abandon, end or disconnect |
| ConsumerSteps.UnknownHoldsExactly | src/assistance/index.ts:205-227 | in every reachable state no invocation is sent until abandon, end or disconnect if and only if the last is unresolved and no other is in flight, or the consumer is disconnected |
| ConsumerSteps.UnknownWithAnotherInFlight | src/assistance/index.ts:220-227 | a reachable run in which a late reply lifts the block |
| ConsumerSteps.DisconnectedExactly | src/assistance/index.ts:205-232 | a disconnected consumer never holds a grant again until its host adopts one if and only if no status result was on its way back to its caller |
| ConsumerSteps.HeldAgainExactly | src/assistance/index.ts:205-232 | a disconnected consumer holds a grant again if and only if a status result or its host hands it one whose token has not ended |
| ConsumerSteps.LateStatusAdopted | src/assistance/index.ts:205-232 | a reachable run in which a status result comes back after the disconnection and is adopted |
| ConsumerSteps.HostAdoptsLate | src/assistance/index.ts:205-232 | a reachable run in which the host adopts a grant after the disconnection |
| Pairing.ReadsExactly | src/assistance/index.ts:79-82 | the consumer reads a grant, an end and an unknown outcome exactly where the supplier answered one, on its terms |
| AssistanceConsumer.AssistanceConsumer.Adopt | src/assistance/index.ts:205 | only an accepted grant whose token has not ended is adopted |
| AssistanceConsumer.AssistanceConsumer.Request | src/assistance/index.ts:206-210 | nothing is sent for an ended token or once disconnected |
| AssistanceConsumer.AssistanceConsumer.Replied | src/assistance/index.ts:211-215 | a late reply cannot undo an end, and an ended reply revokes the grant |
| AssistanceConsumer.AssistanceConsumer.Continue | src/assistance/index.ts:218-225 | a status is adopted, and a resolved invocation lifts the block |
| AssistanceConsumer.AssistanceConsumer.Invoke | src/assistance/index.ts:220-224 | an invocation is sent only with a grant and none unresolved |
| AssistanceConsumer.AssistanceConsumer.Disconnect | src/assistance/index.ts:228-232 | disconnecting ends the held token at once |
| AssistanceConsumer.AssistanceConsumer.End | src/assistance/index.ts:233-239 | ending revokes locally before anything is sent, and records the token: what that means from then on is ConsumerSteps.OverForGood |
| AssistanceConsumer.AssistanceConsumer.Resume | src/assistance/index.ts:185-193 | a resume starts only once per generation, from unexpired authority for the same place |
| AssistanceConsumer.AssistanceConsumer.ResumeAnswered | src/assistance/index.ts:195-196 | only a grant of the same expiry is worth verifying |
| AssistanceConsumer.AssistanceConsumer.ProofVerified | src/assistance/index.ts:196-203 | a proven grant is adopted unless the original was revoked meanwhile, and then it is ended |
| Pairing.ResumeAnswersInKind | src/assistance/index.ts:101-114 | in every run, saveResume or not, a resume is granted exactly if nothing it rests on changed, and then expires exactly when the authority does, carries authority of that expiry and proves itself |
| Pairing.StepRetains | src/assistance/index.ts:62-114 | every supplier step keeps the retained authority bound to the active offer's deadline |
| Pairing.StatusUnbound | src/assistance/index.ts:67-82 | without saveResume but with retained authority, an offer accepted at any time but one gives a status that carries authority expiring at another time |
| Pairing.StatusBound | src/assistance/index.ts:67-82 | every status in every run carries authority that expires with its grant if and only if saveResume is configured or the supplier started without authority |
| Worlds.ReachableSound | src/assistance/index.ts:40-243 | in every run of a consumer, any suppliers and a channel that loses, delays and repeats, every grant held, on its way or answered was accepted by one supplier with that expiry |
| Worlds.FirstExpiryKept | src/assistance/index.ts:79-218 | through any number of resumes to any generations, with polls of the grant's status between and during them, every grant has exactly the first one's expiry, as long as only tokens held since are asked for or adopted |
| Worlds.GrantsCarryBound | src/assistance/index.ts:67-218 | if every supplier has saveResume or starts without authority, whatever authority the consumer ever holds expires with its grant |
| Worlds.HonestResumeAdopted | src/assistance/index.ts:101-204 | in such a run, a supplier about to answer a resume honestly grants it, and a connected consumer still holding the grant adopts what was granted, with the same expiry and at the new generation |

## Left out

- The canonical text projection from outside the repository, and the check that the identity projection equals it (src/text_crdt.ts:304-307): the package is not shown.
- Vector clocks and diagnostic strings of a text state: they do not influence elements or text.
- Payload bytes, JSON and UTF-8: a payload is an edit or malformed, so the strict key check of the decoder is not modelled.
- A `null` and an empty `after` compare equal when inserts of one atom are ranked; the identity of the operation then decides, as in the code.
- Attaching a destination and its backfill (src/instance.ts:118-124): backfill is an ordinary ingest.
- Writing to a log through a destination: its echo and its reply are two ingests here.
- The persistent store, checkpoint scheduling every 256 operations, and opening and dropping stores: the store is the in-memory operation list and a checkpoint a value.
- Value and SWMR shapes, the binder, the manifest, sessions, and the adapters over GRIP, MCP and the wire.
- Listeners: a list of what was published stands for them, so a listener calling back is not modelled.
- Two instances sharing one origin, and shipping operations minted offline, which the runtime does not do.
- Backoff durations: that a timer is pending is modelled, when it fires is not.
- Answering exchange requests, and filtering inbound operations by surface: thin calls around the handler.
- Probing for a resume and signing a lineage: they change nothing on either side.
- Worlds: the requests suppliers receive are arbitrary rather than only those the consumer sent, and a call's answer may come from any generation; both allow more runs than there are.
- Supplier.Supplier.Valid: says only that servings are distinct objects; that the state stays well formed is proved for the step functions the methods equal.
- Serving: one class stands for the exchange and the share serving, which differ in `onServe` and in publishing.
- Several clock readings within one synchronous stretch: they are one value here.
