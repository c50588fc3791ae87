# A Dafny model of openstreetmap-cgimap

cgimap serves the read calls of the OpenStreetMap API and accepts changeset uploads. This project models the parts of it
whose correctness depends on state, on order or on arithmetic, and proves properties of every input, run or reachable
state of the model.

- **Changesets.** `ChangesetRules` gives the rules of a changeset row, `ChangesetUpdater` the updater and the upload
  driver over one database transaction, `ChangesetHistory` what serial histories keep, and `ChangesetProtocol` the
  interleaving of transactions: fixed `now()`, ownership check, row lock or refusal, private write, commit or abort.
- **Uploads.** `OsmElements` fills and validates objects, `OsmChangeXml` is the event-driven osmChange parser,
  `OsmChangeXmlMeaning` proves that it computes what the document tree denotes, and `OsmChangeXmlReading` says by the
  names of elements and attributes which documents are accepted and what is read of them. `OsmChangeHandler` buffers and
  flushes the operations, `OsmChangeRegroup` says in which order a document is executed, `OsmChangeOutcome` which refusal
  or rejected batch it ends with, and `ModificationPackages` how repeated modifications of an object are applied.
  `OsmChangeTracking` assembles the diffResult, `OsmChangeDocument` says what the answer to a whole document is in terms
  of its changes, and `OsmChangePipeline` joins parser and handler.
- **Text.** `PgArrays` and `ArrayWriter` read and write PostgreSQL arrays; `IdVersions` handles lists such as `12,34v5`.
- **Reading.** `QuadTile`, `QuadTileArea` and `QuadTileIndex` cover the tile index, `Selections` and `ReadCalls` the
  map call and the multi-fetch, `OsmChangeSort` the order of a changeset download.
- **Requests.** `RateLimiter` is the leaky bucket, `Router` and `Routes` the matching of paths and methods, `RoutePaths`
  the handler that each path of the default table reaches, `RequestWorkflow` the stages of a response.

Objects whose methods update their fields are classes; their methods are proved equal to specification functions, and the
lemmas are about those functions. What a function at the bottom of a model computes is also stated without it, by literal
values or by an independent condition. Lemmas carry `{:induction false}`: every induction is written out. Clocks, the
database's answers, the `double` parser and the Unicode length of text are parameters.

Points where the code differs from what its documentation or the rest of the code suggests, each with the condition under
which it does:

- The comment in `changeset_updater.cpp:85-90` describes the new closing time as the earlier of `idle` from now and the end
  of the maximal opening time. The code decides by the *old* closing time and can give a later one
  (`ClosingTimeVersusDocumented`; `ClosingTimeDiffers` is a history in which it does).
- A transaction that began before a close but locks after it can reopen the changeset (`StaleTransactionReopens`;
  `LeftAloneExactly` says which lock attempts do).
- The handler of a matching rule is constructed before the method is looked at, and some constructors refuse bad parameters.
  A request with a method that the path does not serve is then answered 400 instead of 405, and so is OPTIONS
  (`PostToMap`, `MethodNotAllowedExactly`).
- OPTIONS announces the methods of the handler that answers it, not those of the path. On `changeset/<id>`, which is also
  served by PUT, it leaves PUT out, while a 405 on the same path names it (`ChangesetOptionsOmitPut`,
  `DefaultOptionsAnnounceExactly`).
- A client that is told when to retry can be accepted much earlier, because the cache may drop its entry before that time
  when the 30-day limit cuts the expiry (`CappedEntryForgotten`, `RetryIsExact`).
- A response that takes the debt of a client past 2^32 bytes leaves only the rest of it (`TruncatedDebtForgiven`,
  `StoredExactly`).
- The tile of a node is computed from the coordinates as sent, its stored coordinates are rounded, so the tile index can
  hide a node that the plain box comparison finds (`HiddenNode`, `FilterAgreesExactly`). Off the 1/scale grid, the comparison
  also takes in rows up to one unit outside the box, which the tile index may drop (`FilterDiffersOffGrid`,
  `FilterDiffersExactly`).
- A version above 2^32 - 1 passes the range check and is stored truncated, so a modification of version 4294967297 is handed
  over as one of version 1 (`VersionReadExactly`, `LargeVersionReadAsOne`).
- Within a changeset download, versions of an object come out in order exactly when its timestamps do
  (`OutputFollowsVersionsExactly`; `EarlierTimestampComesFirst` is a pair that does not).

## Model

Rows marked as main results say what the project is for; the others are the methods and the lemmas they rest on.

| member | source | states |
|---|---|---|
| Bbox.JoinAllIsLeastUpperBound | include/cgimap/util.hpp:201-207 | Growing a box by a list of boxes gives the least box that contains them all. |
| Bbox.JoinAllUnchanged | include/cgimap/util.hpp:190-207 | The join is still the start box exactly when no listed box reaches outside it. |
| ChangesetRules.ClosingTimeVersusDocumented | src/backend/apidb/changeset_upload/changeset_updater.cpp:85-114 | The closing time written is never before the documented one, equals it exactly under a stated condition, and leaves the changeset open at `now`. |
| ChangesetRules.UpdatedRow | src/backend/apidb/changeset_upload/changeset_updater.cpp:58-147 | Updating a changeset keeps its owner, creation time and tags. |
| ChangesetRules.ApplyOp | src/backend/apidb/changeset_upload/changeset_updater.cpp:207-230 | A whole transaction keeps owner and creation time and replaces the tags only in a tag update; a close is never refused and keeps count, box and counters. |
| ChangesetRules.CloseEffect | src/backend/apidb/changeset_upload/changeset_updater.cpp:215-230 | A close ends any changeset at its own time, whatever it holds, and changes nothing else. |
| ChangesetRules.RetagEffect | src/backend/apidb/changeset_upload/changeset_updater.cpp:207-213 | A tag update sets the tags and the closing time of the rule, and keeps owner, count, box and counters. |
| ChangesetRules.UploadEffect | src/backend/apidb/changeset_upload/changeset_updater.cpp:58-147 | An upload is refused exactly over the limit; otherwise its changes are added, its box is covered, and the closing time is that of the rule. |
| ChangesetUpdater.ApiDBChangesetUpdater.CheckUserOwnsChangeset | src/backend/apidb/changeset_upload/changeset_updater.cpp:280-294 | Missing changeset and foreign changeset are refused, in that order. |
| ChangesetUpdater.ApiDBChangesetUpdater.LockCs | src/backend/apidb/changeset_upload/changeset_updater.cpp:232-278 | The row lock is taken exactly for an uncontended row of this user, and only then count and box are loaded. |
| ChangesetUpdater.ApiDBChangesetUpdater.LockCurrentChangeset | src/backend/apidb/changeset_upload/changeset_updater.cpp:34-56 | Outcome of ownership, lock, closed and limit checks in order, and the fields on success. |
| ChangesetUpdater.ApiDBChangesetUpdater.UpdateChangeset | src/backend/apidb/changeset_upload/changeset_updater.cpp:58-147 | Over the limit nothing changes; otherwise exactly this row is rewritten as the rules say. |
| ChangesetUpdater.ApiDBChangesetUpdater.UpdateEnhancedStats | src/backend/apidb/changeset_upload/changeset_updater.cpp:149-178 | The nine counters grow by the upload's statistics when they are kept and anything changed; nothing else changes. |
| ChangesetUpdater.ApiDBChangesetUpdater.ApiCreateChangeset | src/backend/apidb/changeset_upload/changeset_updater.cpp:197-205 | Inserts exactly one open, empty row with the tags. |
| ChangesetUpdater.ApiDBChangesetUpdater.ApiUpdateChangeset | src/backend/apidb/changeset_upload/changeset_updater.cpp:207-213 | A tag update is refused without a trace by the lock, and otherwise writes the rules' row. |
| ChangesetUpdater.ApiDBChangesetUpdater.ApiCloseChangeset | src/backend/apidb/changeset_upload/changeset_updater.cpp:215-230 | Refused by the lock without a trace; otherwise exactly the closing time of exactly this row becomes the time of the transaction. |
| ChangesetUpdater.UploadChangeset | src/api06/changeset_upload_handler.cpp:31-100 | **Main result.** The outcome is that of the first failing check in source order: user, lock, payload, rate limit, element limit, box size; it commits exactly when all pass, and then the row is the upload's row. |
| ChangesetUpdater.UploadErrors | src/api06/changeset_upload_handler.cpp:31-100 | Which error each failing check gives, and that the earlier of two failing checks decides, with the limits written out in numbers. |
| ChangesetHistory.EntryCount | src/backend/apidb/changeset_upload/changeset_updater.cpp:61-76 | An accepted transaction stays within the element limit and adds its total in 32 bits. |
| ChangesetHistory.ClosingTimeAfter | src/backend/apidb/changeset_upload/changeset_updater.cpp:98-114 | After every committed transaction the closing time is its own for a close and that of the prolonging rule for an upload or a tag update. |
| ChangesetHistory.CountCongruent | src/backend/apidb/changeset_upload/changeset_updater.cpp:61-76 | Over every history the count is within the limit and congruent to the sum of all uploads. |
| ChangesetHistory.CountExact | src/backend/apidb/changeset_upload/changeset_updater.cpp:61-76 | The count is the exact sum if and only if no committed upload exceeds the limit by itself. |
| ChangesetHistory.CountIsSum | include/cgimap/options.hpp:245-245 | **Main result.** For uploads whose payload can be received, the count is the exact sum in every history. |
| ChangesetHistory.EachCounterExact | src/backend/apidb/changeset_upload/changeset_updater.cpp:149-178 | **Main result.** Each of the nine counters is the sum of its own kind of change over the committed uploads. |
| ChangesetHistory.CountersExact | src/backend/apidb/changeset_upload/changeset_updater.cpp:149-178 | The nine counters together hold the sum of the committed totals when they are kept, else zero. |
| ChangesetHistory.BoxIsJoin | src/backend/apidb/changeset_upload/changeset_updater.cpp:78-96 | The stored box is the join of the committed uploads' boxes, null exactly while that is the default box. |
| ChangesetHistory.BoxNullExactly | src/backend/apidb/changeset_upload/changeset_updater.cpp:78-96 | The box is null exactly when every committed upload's box adds nothing to the default box. |
| ChangesetHistory.IdentityKept | src/backend/apidb/changeset_upload/changeset_updater.cpp:207-230 | Owner and creation time never change; the tags are those of the last committed tag update. |
| ChangesetHistory.ClosingTimeBounded | src/backend/apidb/changeset_upload/changeset_updater.cpp:98-114 | If `idle` is at most the maximal opening time, no history closes later than creation plus that time. |
| ChangesetHistory.ClosingTimeBoundedExactly | src/backend/apidb/changeset_upload/changeset_updater.cpp:98-114 | That condition on the settings is also necessary. |
| ChangesetHistory.ClosingTimeDiffers | src/backend/apidb/changeset_upload/changeset_updater.cpp:85-114 | A history of two uploads after which the closing time is later than the documented one. |
| ChangesetProtocol.StepKeepsInv | src/backend/apidb/changeset_upload/changeset_updater.cpp:34-147 | Every event of every interleaving keeps: workers hold the lock, work on the committed row, and the row is the serial replay of the log. |
| ChangesetProtocol.Serializable | src/backend/apidb/changeset_upload/changeset_updater.cpp:232-278 | **Main result.** In every interleaving the row equals the committed transactions run one after the other, and at most one works under the lock. |
| ChangesetProtocol.Conservation | src/backend/apidb/changeset_upload/changeset_updater.cpp:58-178 | **Main result.** Over every interleaving: the limit holds, the count is the sum of the committed uploads that can be received, the counters agree with it, and the box is the join. |
| ChangesetProtocol.OpenTimeBounded | src/backend/apidb/changeset_upload/changeset_updater.cpp:98-114 | **Main result.** The closing time bound over every interleaving. |
| ChangesetProtocol.OnlyCommitChangesRow | src/api06/changeset_upload_handler.cpp:49-100 | Refused and aborted transactions leave no trace in row or log. |
| ChangesetProtocol.LeftAloneExactly | src/backend/apidb/changeset_upload/changeset_updater.cpp:34-56 | **Main result.** From a state in which nobody works, nobody ever works if and only if no lock attempt of the run is by the owner, on a free lock, in time and below the limit; row and log are then unchanged. |
| ChangesetProtocol.ClosedForever | src/backend/apidb/changeset_upload/changeset_updater.cpp:34-47 | In particular, once seen closed at a time, no run whose lock attempts come from then on changes the row or commits. |
| ChangesetProtocol.SeenClosed | src/backend/apidb/changeset_upload/changeset_updater.cpp:44-47 | A lock attempt that finds the row closed establishes the start of `ClosedForever`. |
| ChangesetProtocol.CommittedCloseCloses | src/backend/apidb/changeset_upload/changeset_updater.cpp:215-230 | Committing a close in any interleaving sets the closing time to the transaction's time, frees the lock, and establishes the start of `ClosedForever` for the next moment. |
| ChangesetProtocol.NothingAfterClose | src/backend/apidb/changeset_upload/changeset_updater.cpp:34-47 | **Main result.** After a committed close, no run whose lock attempts begin later changes the row or commits anything. |
| ChangesetProtocol.AloneCommits | src/api06/changeset_upload_handler.cpp:49-100 | A transaction that meets nobody commits the rules' row, or leaves row and log alone exactly when they refuse it. |
| ChangesetProtocol.LockSucceedsExactly | src/backend/apidb/changeset_upload/changeset_updater.cpp:34-56 | A free lock is obtained by the owner exactly when it is not too late and, for uploads, below the limit. |
| ChangesetProtocol.StaleTransactionReopens | src/backend/apidb/changeset_upload/changeset_updater.cpp:98-114 | A run in which an upload that began before the close commits after it and reopens the changeset. |
| OsmElements.IsValidExactly | include/cgimap/api06/changeset_upload/osmobject.hpp:156-177 | `is_valid` accepts exactly the complete, in-limit objects among those the setters can build. |
| OsmElements.VersionStoredExactly | include/cgimap/api06/changeset_upload/osmobject.hpp:82-96 | The stored version is the number written exactly when it fits 32 bits. |
| OsmElements.SettersKeepSane | include/cgimap/api06/changeset_upload/node.hpp:32-107 | No successful setter stores an out-of-range id, changeset, version or coordinate. |
| OsmElements.AddersKeepSane | include/cgimap/api06/changeset_upload/way.hpp:30-54 | Way nodes and members that are added are complete and non-zero. |
| OsmElements.AddTagKeepsSane | include/cgimap/api06/changeset_upload/osmobject.hpp:133-154 | Added tags have a non-empty new key and texts of at most 255 characters. |
| OsmChangeXml.CheckAttributes | include/cgimap/api06/changeset_upload/osmchange_xml_input_format.hpp:282-291 | The loop applies a setter to the attributes in order up to the first failure. |
| OsmChangeXml.IfUnusedFound | include/cgimap/api06/changeset_upload/osmchange_xml_input_format.hpp:87-97 | The flag is set exactly when some attribute has the name `if-unused`. |
| OsmChangeXml.OpenObjectKeeps | include/cgimap/api06/changeset_upload/osmchange_xml_input_format.hpp:293-343 | An opened object is within limits and has the version its operation demands. |
| OsmChangeXml.AddPartKeeps | include/cgimap/api06/changeset_upload/osmchange_xml_input_format.hpp:131-177 | Parts keep the object within limits and leave its type and version alone. |
| OsmChangeXml.StartStepKeeps | include/cgimap/api06/changeset_upload/osmchange_xml_input_format.hpp:59-182 | Every start tag keeps: the stack mirrors the open elements, operation and flag are the block's, callbacks are valid. |
| OsmChangeXml.EndTagExpected | include/cgimap/api06/changeset_upload/osmchange_xml_input_format.hpp:184-256 | At a matching end tag the stack has something to pop and its top is the context that element opened. |
| OsmChangeXml.EndStepKeeps | include/cgimap/api06/changeset_upload/osmchange_xml_input_format.hpp:184-257 | Every end tag keeps the same. |
| OsmChangeXml.RunKeepsInv | include/cgimap/api06/changeset_upload/osmchange_xml_input_format.hpp:59-257 | **Main result.** So does every run on well-nested events; the stack never exceeds five. |
| OsmChangeXml.OSMChangeXMLParser.OnStartElement | include/cgimap/api06/changeset_upload/osmchange_xml_input_format.hpp:59-182 | The method computes the start step on its fields, and a failure calls nothing back. |
| OsmChangeXml.OSMChangeXMLParser.OnEndElement | include/cgimap/api06/changeset_upload/osmchange_xml_input_format.hpp:184-257 | The method computes the end step on its fields. |
| OsmChangeXml.OSMChangeXMLParser.SwitchOnEnd | include/cgimap/api06/changeset_upload/osmchange_xml_input_format.hpp:190-256 | None of the assertions on end tags can fail. |
| OsmChangeXml.OSMChangeXMLParser.StartObject | include/cgimap/api06/changeset_upload/osmchange_xml_input_format.hpp:293-343 | Creating an object from its attributes, with the mandatory fields of the operation. |
| OsmChangeXml.OSMChangeXMLParser.StartPart | include/cgimap/api06/changeset_upload/osmchange_xml_input_format.hpp:131-177 | Tags, way nodes and members from their attributes. |
| OsmChangeXmlMeaning.PartsFollow | include/cgimap/api06/changeset_upload/osmchange_xml_input_format.hpp:131-182 | Inside an object the machine adds exactly its parts, and refuses deeper nesting. |
| OsmChangeXmlMeaning.ObjectFollows | include/cgimap/api06/changeset_upload/osmchange_xml_input_format.hpp:105-129 | One object element yields exactly its one callback, or its first error. |
| OsmChangeXmlMeaning.ParserComputesMeaning | include/cgimap/api06/changeset_upload/osmchange_xml_input_format.hpp:59-257 | **Main result.** For every document tree the machine fails with the first error in document order, or calls back exactly what the tree denotes. |
| OsmChangeXmlMeaning.EventsNest | include/cgimap/api06/changeset_upload/osmchange_xml_input_format.hpp:184-257 | The events of a tree are well-nested. |
| OsmChangeXmlMeaning.AcceptedDocumentIsValid | include/cgimap/api06/changeset_upload/osmchange_xml_input_format.hpp:216-252 | **Main result.** Every object of an accepted document is valid for its operation, and only deletes carry the flag. |
| OsmChangeXmlReading.NumbersRead | include/cgimap/api06/changeset_upload/osmchange_xml_input_format.hpp:293-332 | Of every attribute list, the last `id`, `changeset` and `version` are stored; it is refused exactly when some attribute of these names is no number in range. |
| OsmChangeXmlReading.CoordinatesRead | include/cgimap/api06/changeset_upload/osmchange_xml_input_format.hpp:334-343 | The last `lat` becomes the latitude and the last `lon` the longitude, and out of range they are refused. |
| OsmChangeXmlReading.OpenObjectExactly | include/cgimap/api06/changeset_upload/osmchange_xml_input_format.hpp:293-343 | Which start tags of objects are refused, and every field of the object that the others open, by attribute name. |
| OsmChangeXmlReading.TagPartExactly | include/cgimap/api06/changeset_upload/osmchange_xml_input_format.hpp:345-373 | A tag maps its `k` text to its `v` text and is refused exactly when one is missing or unfit or the key is taken. |
| OsmChangeXmlReading.NdPartExactly | include/cgimap/api06/changeset_upload/osmchange_xml_input_format.hpp:137-150 | A way node adds the numbers of its `ref` attributes in order and needs one. |
| OsmChangeXmlReading.MemberPartExactly | include/cgimap/api06/changeset_upload/osmchange_xml_input_format.hpp:155-173 | A member has the type, reference and role of the attributes of these names, and needs the first two. |
| OsmChangeXmlReading.PartsRead | include/cgimap/api06/changeset_upload/osmchange_xml_input_format.hpp:131-182 | Of every list of parts: which are refused, and that the others add tags, way nodes and members in document order. |
| OsmChangeXmlReading.TagsAreParts | include/cgimap/api06/changeset_upload/osmchange_xml_input_format.hpp:345-373 | An object maps a key to a value exactly when some `tag` part of it gives both. |
| OsmChangeXmlReading.ParserReadsDocument | include/cgimap/api06/changeset_upload/osmchange_xml_input_format.hpp:59-257 | **Main result.** For every document: it is accepted exactly when every element is fine by names and texts, and then each object element hands over one change whose every field is the value of the attribute or part of its name. |
| OsmChangePipeline.AcceptedDocumentOutcome | src/api06/changeset_upload/osmchange_handler.cpp:33-40 | **Main result.** What the parser accepts ends with the first rejected batch among those that are due, else with a conflict exactly when some object names another changeset. |
| OsmChangePipeline.PayloadBoundsUpload | src/fcgi_request.cpp:114-115 | **Main result.** A document below 2^32 bytes yields an upload small enough for `Conservation` to be exact. |
| OsmChangePipeline.VersionReadExactly | include/cgimap/api06/changeset_upload/osmobject.hpp:82-96 | A document that modifies a node is accepted exactly when its version modulo 2^32 is at least 1, and is handed over with that. |
| OsmChangePipeline.LargeVersionReadAsOne | include/cgimap/api06/changeset_upload/osmobject.hpp:82-96 | Version 4294967297 is handed over as version 1. |
| OsmChangeTracking.FirstById | src/api06/changeset_upload/osmchange_tracking.cpp:34-61 | The scan finds an entry of the id exactly when there is one. |
| OsmChangeTracking.FirstByVersion | src/api06/changeset_upload/osmchange_tracking.cpp:43-52 | The scan finds an entry of id and version exactly when there is one. |
| OsmChangeTracking.Index | src/api06/changeset_upload/osmchange_tracking.cpp:24-80 | The lookup map agrees with the first-match scan for every type and id. |
| OsmChangeTracking.IndexVersions | src/api06/changeset_upload/osmchange_tracking.cpp:24-80 | The same for id and version. |
| OsmChangeTracking.RowAnswersItem | src/api06/changeset_upload/osmchange_tracking.cpp:84-172 | A row has its item's operation, type and old id, the next version for modifies, and is skipped only for an if-unused delete that was reported skipped. |
| OsmChangeTracking.OSMChangeTracking.LookUp | src/api06/changeset_upload/osmchange_tracking.cpp:84-172 | The branch for one item agrees with the scans. |
| OsmChangeTracking.OSMChangeTracking.AssembleDiffresult | src/api06/changeset_upload/osmchange_tracking.cpp:22-180 | **Main result.** Throws exactly when some item has no answer; otherwise one row per item, in order. |
| OsmChangeTracking.OSMChangeTracking.ReportCreated | src/backend/apidb/changeset_upload/node_updater.cpp:355-358 | A creation is appended to the list of its type and to no other. |
| OsmChangeTracking.OSMChangeTracking.ReportModified | src/backend/apidb/changeset_upload/node_updater.cpp:650-655 | The same for modifications. |
| OsmChangeTracking.OSMChangeTracking.ReportDeleted | src/backend/apidb/changeset_upload/node_updater.cpp:708-710 | The same for deletions. |
| OsmChangeTracking.OSMChangeTracking.ReportSkipped | src/backend/apidb/changeset_upload/node_updater.cpp:529-535 | The same for skipped deletions. |
| OsmChangeRegroup.LastRunMaximal | src/api06/changeset_upload/osmchange_handler.cpp:158-209 | The run that is buffered is maximal: one state throughout, another just before it. |
| OsmChangeRegroup.RegroupPermutes | src/api06/changeset_upload/osmchange_handler.cpp:158-209 | **Main result.** The execution order loses and duplicates no operation. |
| OsmChangeRegroup.RegroupKeepsTypeOrder | src/api06/changeset_upload/osmchange_handler.cpp:158-209 | Operations on each object type keep the document's order. |
| OsmChangeRegroup.RegroupUnchangedExactly | src/api06/changeset_upload/osmchange_handler.cpp:182-192 | **Main result.** Execution order is document order exactly when neighbouring modifications are sorted by type. |
| OsmChangeRegroup.MachineSplitsDocument | src/api06/changeset_upload/osmchange_handler.cpp:42-209 | At every step everything before the last run is executed and exactly the last run is buffered. |
| OsmChangeRegroup.EndExecutesRegrouped | src/api06/changeset_upload/osmchange_handler.cpp:138-140 | Ending the document executes exactly the regrouped document. |
| OsmChangeHandler.ElementUpdater.Put | src/backend/apidb/changeset_upload/node_updater.cpp:40-106 | One operation goes to the one buffer of its kind and to the end of the original sequence. |
| OsmChangeHandler.ElementUpdater.Report | src/backend/apidb/changeset_upload/node_updater.cpp:525-536 | One executed operation extends the tracking list it belongs to and no other. |
| OsmChangeHandler.ElementUpdater.CheckUniquePlaceholderIds | src/backend/apidb/changeset_upload/node_updater.cpp:273-283 | Passes exactly when no placeholder id is repeated or was seen in an earlier batch, and remembers the ids. |
| OsmChangeHandler.ElementUpdater.ProcessNew | src/backend/apidb/changeset_upload/node_updater.cpp:108-138 | Refuses placeholder ids that occurred before in the upload, and otherwise drains the buffer of creations in order and reports them, unless the database rejects the batch. |
| OsmChangeHandler.ElementUpdater.ProcessModify | src/backend/apidb/changeset_upload/node_updater.cpp:140-187 | Drains the buffer of modifications in order and reports them, unless the database rejects the batch. |
| OsmChangeHandler.ElementUpdater.ProcessDelete | src/backend/apidb/changeset_upload/node_updater.cpp:189-243 | Drains the buffer of deletions in order, unless the database rejects the batch; skipped ones are reported as such. |
| OsmChangeHandler.OSMChangeHandler.HandleNewState | src/api06/changeset_upload/osmchange_handler.cpp:158-209 | A change of state executes the current run, with the outcome of its batches, and leaves every other buffer empty. |
| OsmChangeHandler.OSMChangeHandler.Process | src/api06/changeset_upload/osmchange_handler.cpp:33-136 | One callback is one step of the machine; it fails for a foreign changeset, then for a batch that the change of state drains, then for a non-negative placeholder. |
| OsmChangeHandler.OSMChangeHandler.EndDocument | src/api06/changeset_upload/osmchange_handler.cpp:30-30 | The end of the document is the machine's final state change. |
| OsmChangeHandler.OSMChangeHandler.GetStats | src/api06/changeset_upload/osmchange_handler.cpp:142-146 | The statistics are the sizes of the tracking lists. |
| OsmChangeHandler.StatsCountDocument | src/backend/apidb/changeset_upload/node_updater.cpp:981-985 | An upload counts as many changes as its document has operations, less the skipped deletes. |
| OsmChangeHandler.ExecutedIsAnswered | src/api06/changeset_upload/osmchange_tracking.cpp:84-172 | Every executed operation has an answer in the reports. |
| OsmChangeHandler.RowIsOwn | src/api06/changeset_upload/osmchange_tracking.cpp:84-172 | Where an operation's key is its own in the document, its row carries its own new id, version and skip flag. |
| OsmChangeDocument.EditsAreChanges | src/backend/apidb/changeset_upload/node_updater.cpp:40-106 | Each buffered edit has the operation, type, id, version and contents of its change, version 1 for creations, and the flag only on if-unused deletes. |
| OsmChangeDocument.RowsAnswerChanges | src/api06/changeset_upload/osmchange_tracking.cpp:84-172 | Rows taken from the reports of an accepted document answer its changes: kind, type, id and version, and for creations and unrivalled operations the database's own answer, skipped exactly when an if-unused delete is in use. |
| OsmChangeDocument.StatsOfDocument | src/backend/apidb/changeset_upload/node_updater.cpp:981-985 | The created, modified and deleted counts of each type are the numbers of such changes in the document, deletes less those that are skipped. |
| OsmChangeDocument.HandleDocument | src/api06/changeset_upload_handler.cpp:40-60 | **Main result.** A whole document, stated on its changes: the outcome of its first failing check, executed operations equal to the regrouped document, one diffResult row per change with the database's answer for it, and counts by kind and type. |
| OsmChangeOutcome.BatchesRegroup | src/api06/changeset_upload/osmchange_handler.cpp:158-209 | The batches in which the buffers are drained are together the regrouped document. |
| OsmChangeOutcome.DrainedMonotone | src/api06/changeset_upload/osmchange_handler.cpp:158-209 | Batches that were drained stay drained, in the same order, whatever follows. |
| OsmChangeOutcome.DocumentOutcomeExactly | src/api06/changeset_upload/osmchange_handler.cpp:33-140 | **Main result.** The outcome of a document, without the handler's states: the first rejected batch among those drained before the first refused operation decides, then that operation's refusal, and else the document is accepted. |
| OsmChangeOutcome.AcceptedExactly | src/api06/changeset_upload/osmchange_handler.cpp:33-209 | **Main result.** A document is accepted exactly when no operation is refused and every batch passes after those before it. |
| OsmChangeOutcome.AcceptedOnChanges | src/backend/apidb/changeset_upload/node_updater.cpp:273-283 | **Main result.** The same on the changes alone: accepted exactly when all name the changeset, creations have negative ids that differ within their type, and the database takes each batch after those before it. |
| OsmChangeOutcome.FirstRefusalDecides | src/api06/changeset_upload/osmchange_handler.cpp:33-40 | When the batches until then pass, the first refused change gives a conflict for a foreign changeset and a bad request for a creation whose id is no placeholder. |
| OsmChangeOutcome.PlaceholdersUnique | src/backend/apidb/changeset_upload/node_updater.cpp:273-283 | **Main result.** In an accepted document no two creations of one type share a placeholder, however far apart they are. |
| OsmChangeOutcome.CreatedRowIsOwn | src/api06/changeset_upload/osmchange_tracking.cpp:84-172 | **Main result.** Every creation of an accepted document is answered with its own new id and version 1. |
| ModificationPackages.BuildPackages | src/backend/apidb/changeset_upload/node_updater.cpp:402-422 | The loop puts each modification into the package numbered by how often its object was modified before. |
| ModificationPackages.PackageHolds | src/backend/apidb/changeset_upload/node_updater.cpp:395-422 | Package `p` holds exactly the modification number `p` of each object that has more than `p`. |
| ModificationPackages.PackagesKeepOrder | src/backend/apidb/changeset_upload/node_updater.cpp:395-422 | **Main result.** One package after the other, each object meets its own modifications in document order, none lost or repeated. |
| ModificationPackages.PackagesNeeded | src/backend/apidb/changeset_upload/node_updater.cpp:395-422 | There are as many packages as some object has modifications. |
| ModificationPackages.UpdatedAllExactly | src/backend/apidb/changeset_upload/node_updater.cpp:567-640 | With matching versions, one update statement changes a row for every modification exactly if no object occurs twice. |
| ModificationPackages.OneByOneExactly | src/backend/apidb/changeset_upload/node_updater.cpp:424-470 | Applied one by one, modifications succeed exactly when each object's versions follow its current one without a gap. |
| ModificationPackages.CurrentObjects.ProcessModify | src/backend/apidb/changeset_upload/node_updater.cpp:140-188 | **Main result.** Package by package, the modifications succeed exactly when they would one by one, with the same versions; otherwise 404 for an unknown object, else 409, and never the error of the update statement. |
| Decimal.ValueOfPrint | src/backend/apidb/utils.cpp:143-152 | The printed digits of a number denote it. |
| Decimal.PrintedIsRead | src/backend/apidb/utils.cpp:143-152 | Reading a printed number returns it, whatever non-digit follows. |
| Decimal.NegativeIsRead | src/backend/apidb/utils.cpp:143-152 | The same for negative numbers of signed types. |
| Decimal.PrintedDigits | src/backend/apidb/utils.cpp:143-152 | The notation of `10n + d` is that of `n` followed by the digit `d`. |
| Decimal.DigitsArePrinted | src/backend/apidb/utils.cpp:143-152 | Every row of digits is the notation of its value with zeros before it. |
| Decimal.NumeralIsRead | src/backend/apidb/utils.cpp:143-152 | For every text, split into sign, digits and rest: whether it is read, out of range or no number, and as what. |
| PgArrays.Escape | include/cgimap/util.hpp:145-173 | The buffer, sized by a first pass, is filled exactly with the escaped text. |
| PgArrays.PsqlArrayToVector | src/backend/apidb/utils.cpp:70-124 | The character loop computes the scan that the round trip is about. |
| PgArrays.ScanEscaped | src/backend/apidb/utils.cpp:83-117 | Inside quotes, escaped text is collected as it was before escaping. |
| PgArrays.ArrayRoundTrip | src/backend/apidb/utils.cpp:70-124 | **Main result.** For every non-empty list, each element quoted or bare, parsing the printed array returns the list, except the lone bare `NULL`. |
| PgArrays.PsqlArrayIdsToVector | src/backend/apidb/utils.cpp:131-155 | The offset loop computes the specification, including the error. |
| PgArrays.IdsRoundTrip | src/backend/apidb/utils.cpp:131-155 | **Main result.** Parsing the printed array of any non-empty in-range list of numbers returns the list. |
| ArrayWriter.SizeBuffer | include/cgimap/backend/apidb/pqxx_string_traits.hpp:97-104 | The budget is three plus each element's size and separator. |
| ArrayWriter.AppendElement | include/cgimap/backend/apidb/pqxx_string_traits.hpp:82-87 | One turn of the loop appends the element and a separator over its NUL, inside the room the element asked for. |
| ArrayWriter.IntoBuf | include/cgimap/backend/apidb/pqxx_string_traits.hpp:71-95 | **Main result.** Refuses exactly a buffer below the budget; otherwise leaves exactly the array text and NUL and touches nothing outside the budget. |
| ArrayWriter.ContentsExactly | include/cgimap/backend/apidb/pqxx_string_traits.hpp:71-95 | The text of every container: braces and a NUL around nothing or one element, and a comma in place of the inner braces where two containers are joined. |
| ArrayWriter.EmptyIsNotReadBack | src/backend/apidb/utils.cpp:83-152 | An empty container is read back as one empty string by the string parser, and refused by the id parser. |
| ArrayWriter.WrittenArrayIsReadBack | include/cgimap/backend/apidb/pqxx_string_traits.hpp:71-95 | **Main result.** What the writer leaves for escaped or bare strings, the array parser reads back. |
| ArrayWriter.WrittenIdsAreReadBack | include/cgimap/backend/apidb/pqxx_string_traits.hpp:71-95 | What it leaves for numbers, the id parser reads back. |
| QuadTile.Xy2Tile | include/cgimap/backend/apidb/quad_tile.hpp:25-34 | The shifting loop interleaves the low 16 bits of both coordinates. |
| QuadTile.InterleaveBits | include/cgimap/backend/apidb/quad_tile.hpp:25-34 | Bit `i` of each coordinate stands at its place in the tile number. |
| QuadTile.TileIsBijective | include/cgimap/backend/apidb/quad_tile.hpp:25-34 | **Main result.** Tile numbers of 16-bit coordinates are exactly the 32-bit numbers, one each. |
| QuadTile.TileStrictlyMonotone | include/cgimap/backend/apidb/quad_tile.hpp:25-34 | **Main result.** Growing either coordinate grows the tile number. |
| QuadTileArea.Generate | src/backend/apidb/quad_tile.cpp:27-34 | The nested loops produce each tile of the area once and no other. |
| QuadTileArea.TilesOfArea | src/backend/apidb/quad_tile.cpp:20-41 | The result is strictly increasing, exactly the area's tiles, and as long as the area has points. |
| QuadTileIndex.Lon2x | include/cgimap/backend/apidb/quad_tile.hpp:36-38 | Valid longitudes give 16-bit coordinates, at most half of a 65535th of the world away from the longitude. |
| QuadTileIndex.Lat2y | include/cgimap/backend/apidb/quad_tile.hpp:40-42 | Valid latitudes give 16-bit coordinates, at most half of a 65535th of the half circle between the poles away. |
| QuadTileIndex.RowExactly | include/cgimap/backend/apidb/quad_tile.hpp:40-42 | The row of a latitude is `y` exactly when it lies within half a row of the centre `-90 + y * 180 / 65535`, the lower border included. |
| QuadTileIndex.ColumnExactly | include/cgimap/backend/apidb/quad_tile.hpp:36-38 | The same for longitudes and columns. |
| QuadTileIndex.CoordinatesMonotone | include/cgimap/backend/apidb/quad_tile.hpp:36-42 | Rounding to tile coordinates keeps the order. |
| QuadTileIndex.AreaCoversBox | src/backend/apidb/quad_tile.cpp:20-41 | The tiles of a valid box contain the tile of every point of the box. |
| QuadTileIndex.TilesForArea | src/backend/apidb/quad_tile.cpp:20-41 | **Main result.** The list for a valid box of degrees: strictly increasing, exact, with the exact count. |
| QuadTileIndex.AreaIsPointTiles | src/backend/apidb/quad_tile.cpp:20-41 | **Main result.** A tile is listed for a box exactly when it is the tile of some point of the box. |
| QuadTileIndex.WholeWorld | src/backend/apidb/quad_tile.cpp:20-41 | The box of the whole world has exactly the tile numbers below 2^32. |
| QuadTileIndex.InsideIsSelected | src/backend/apidb/readonly_pgsql_selection.cpp:462-490 | For any valid box, a visible row with a consistent tile that lies in the box is selected. |
| QuadTileIndex.PlainOnGrid | src/backend/apidb/readonly_pgsql_selection.cpp:462-490 | For bounds that are multiples of 1/scale the comparison is exact. |
| QuadTileIndex.FilterAgreesExactly | src/backend/apidb/readonly_pgsql_selection.cpp:462-490 | **Main result.** The tile condition changes no answer of such boxes exactly for rows whose tile is that of their stored coordinates. |
| QuadTileIndex.FilterDiffersExactly | src/backend/apidb/readonly_pgsql_selection.cpp:462-490 | **Main result.** For any valid box, the tile condition drops a consistent row that the comparison takes in exactly when a bound was cut to the row's coordinate across a tile border; such a row lies outside the box. |
| QuadTileIndex.FilterDiffersOffGrid | src/backend/apidb/readonly_pgsql_selection.cpp:462-490 | A box half a unit off a row on which the two tests differ. |
| QuadTileIndex.CreatedRowAgreesExactly | src/backend/apidb/changeset_upload/node_updater.cpp:49-54 | **Main result.** For created nodes this is exactly that rounding does not move them to another tile. |
| QuadTileIndex.GridNodeAgrees | src/backend/apidb/changeset_upload/node_updater.cpp:49-54 | Nodes sent with coordinates on the grid agree. |
| QuadTileIndex.HiddenNode | src/backend/apidb/changeset_upload/node_updater.cpp:49-54 | A node that the box comparison finds and the tile condition hides. |
| RateLimiter.MemcachedRateLimiter.Check | src/rate_limiter.cpp:57-89 | Rejects exactly when the remaining debt reaches the limit, with the retry time as computed. |
| RateLimiter.MemcachedRateLimiter.Update | src/rate_limiter.cpp:91-151 | Stores the next entry with its expiry under the client's key and changes no other. |
| RateLimiter.NextExactly | src/rate_limiter.cpp:106-151 | An update in plain arithmetic: 32-bit sum of what a live entry still owes and the response, and the expiry of twice the earning time, 30 days at most. |
| RateLimiter.RetryIsExact | src/rate_limiter.cpp:57-89 | **Main result.** For every stored entry, a rejected client is rejected at every second before the retry time and accepted from it on, if and only if the cached entry outlives that time. |
| RateLimiter.UncappedOutlivesRetry | src/rate_limiter.cpp:106-113 | After an accepted run it does, and the retry time is exact, whenever the 30-day limit did not cut the expiry. |
| RateLimiter.CappedEntryForgotten | src/rate_limiter.cpp:102-113 | A client told to wait more than 9,000,000 seconds that is accepted after 2,592,000. |
| RateLimiter.RetryIsReported | src/rate_limiter.cpp:82-88 | After every accepted run the retry time is at most the bytes of the last response, and the 32-bit result holds it. |
| RateLimiter.StoredFits | src/rate_limiter.cpp:119-132 | Every entry that an update stores for a 32-bit response satisfies the premise of `RetryIsExact`. |
| RateLimiter.StoredExactly | src/rate_limiter.cpp:119-132 | A response is added to the debt exactly when the sum fits 32 bits. |
| RateLimiter.TruncatedDebtForgiven | src/rate_limiter.cpp:128-129 | An accepted client near the largest limit whose debt is zero after 624,951,297 bytes more. |
| RateLimiter.DebtIsBounded | src/rate_limiter.cpp:106-132 | In every accepted run the stored debt fits 32 bits untruncated and is below the limit plus the last response. |
| RateLimiter.ExpiryDropsLittle | src/rate_limiter.cpp:106-113 | An entry that expires under its own time to live drops less than one second's quota. |
| RateLimiter.BandwidthBound | src/rate_limiter.cpp:57-151 | **Main result.** Bytes recorded in any window of any accepted run are below limit, last response, quota, and the debt that the cache dropped in the window. |
| RateLimiter.DroppedIsLittle | src/rate_limiter.cpp:106-113 | Where the 30-day limit cut no lost expiry, at most one second's quota is dropped for each expired entry. |
| RateLimiter.UncappedBandwidthBound | src/rate_limiter.cpp:57-151 | So the bound is then limit, last response and quota, plus one second's quota per expired entry. |
| RateLimiter.DebtCovers | src/rate_limiter.cpp:91-151 | What was recorded since any request is covered by the stored debt, the quota earned, and the debt dropped since. |
| RateLimiter.DebtIsAttained | src/rate_limiter.cpp:91-151 | Some request attains the stored debt: what was recorded since it, less what was earned since. |
| RateLimiter.StoredDebtIsIdeal | src/rate_limiter.cpp:91-151 | **Main result.** While the cache drops no debt, the stored debt is that of the ideal leaky bucket, the greatest over all requests of what was recorded less what was earned since. |
| Sorting.Sort | src/api06/handler_utils.cpp:78-78 | Only what `std::ranges::sort` promises: sorted and a permutation. |
| Sorting.Unique | src/api06/handler_utils.cpp:79-80 | One of each run of equal elements of a sorted list, and nothing removed where there are no duplicates. |
| Sorting.SortedIsUnique | src/osmchange_responder.cpp:195-197 | Where the order separates elements, the sorted arrangement is unique. |
| IdVersions.StrictTotalOrder | include/cgimap/api06/id_version.hpp:26-48 | The comparisons form a strict total order. |
| IdVersions.OrderIsNumeric | include/cgimap/api06/id_version.hpp:26-48 | The order is that of the numbers with the id in the high digits and no version counted above every version. |
| IdVersions.RubyNumberExactly | include/cgimap/util.hpp:131-143 | For every text: the value of its leading digits if it has any and they fit the type, otherwise 0. |
| IdVersions.SingleIdExactly | src/api06/handler_utils.cpp:24-45 | For every text, by its letters `v`: an id, an id and a version, or neither. |
| IdVersions.RequestedExactly | src/api06/handler_utils.cpp:66-76 | For every text, by its commas: each non-empty piece requests one id, in order. |
| IdVersions.SingleIdRoundTrip | src/api06/handler_utils.cpp:24-45 | Parsing a printed id with or without version returns it. |
| IdVersions.ParseIdList | src/api06/handler_utils.cpp:48-83 | The list is sorted, free of duplicates, and holds exactly the requested ids. |
| IdVersions.PrintedListIsReadBack | include/cgimap/api06/id_version.hpp:52-63 | **Main result.** Parsing the printed form of a sorted list without duplicates returns that list. |
| Selections.ReadonlySelection.InsertResults | src/backend/apidb/readonly_pgsql_selection.cpp:87-101 | Inserting rows adds exactly them and counts the new ones. |
| Selections.ReadonlySelection.SelectNodes | src/backend/apidb/readonly_pgsql_selection.cpp:434-441 | Adds the existing ones of the given ids. |
| Selections.ReadonlySelection.SelectHistoricalNodes | src/backend/apidb/readonly_pgsql_selection.cpp:610-638 | Adds the existing editions that are not hidden. |
| Selections.ReadonlySelection.SelectNodesFromBbox | src/backend/apidb/readonly_pgsql_selection.cpp:462-490 | Adds all matching nodes unless more than the limit match, and then one more than the limit. |
| Selections.ReadonlySelection.SelectWaysFromNodes | src/backend/apidb/readonly_pgsql_selection.cpp:508-519 | Adds the ways that touch a selected node. |
| Selections.ReadonlySelection.SelectNodesFromWayNodes | src/backend/apidb/readonly_pgsql_selection.cpp:551-560 | Adds the nodes of the selected ways. |
| Selections.ReadonlySelection.SelectRelationsFromWays | src/backend/apidb/readonly_pgsql_selection.cpp:536-549 | Adds the relations with a selected way as member. |
| Selections.ReadonlySelection.SelectRelationsFromNodes | src/backend/apidb/readonly_pgsql_selection.cpp:562-573 | Adds the relations with a selected node as member. |
| Selections.ReadonlySelection.SelectRelationsFromRelations | src/backend/apidb/readonly_pgsql_selection.cpp:575-594 | Adds, or puts in their place, the parents of the relations selected before. |
| Selections.ReadonlySelection.MergeNodes | src/backend/apidb/readonly_pgsql_selection.cpp:107-129 | Merging current into historic nodes keeps the set of editions and leaves only one kind selected. |
| ReadCalls.MapResponder | src/api06/map_handler.cpp:22-42 | **Main result.** Fails exactly above the node limit; otherwise the selection is the closure of exactly the matching nodes. |
| ReadCalls.ClosureAnswers | src/api06/map_handler.cpp:34-41 | The closure contains all nodes of its ways, all direct parents and the parents of those. |
| ReadCalls.ClosureIsLeast | src/api06/map_handler.cpp:34-41 | Every selection with these properties contains the closure. |
| ReadCalls.MapIgnoresIndex | src/backend/apidb/readonly_pgsql_selection.cpp:462-490 | On grid boxes over consistent tiles the index plays no part in the map call. |
| ReadCalls.RelationFullResponder | src/api06/relation_full_handler.cpp:18-48 | **Main result.** 404 for a missing relation, 410 for a deleted one, otherwise the relation with its members and the nodes of its ways. |
| ReadCalls.FullRelationIsLeast | src/backend/apidb/readonly_pgsql_selection.cpp:492-608 | That selection is the least one holding the relation, all its members and all nodes of all its ways. |
| ReadCalls.CountDecides | src/api06/nodes_handler.cpp:27-41 | As many rows as ids were selected exactly when every requested id or edition is available. |
| ReadCalls.NodesResponder | src/api06/nodes_handler.cpp:20-43 | **Main result.** 404 exactly when some requested id or edition is missing or hidden; the selection is the available part. |
| Router.Match | include/cgimap/router.hpp:69-77 | The nested match on the shared iterator computes the matcher's meaning and its final position. |
| Router.MatchString | src/router.cpp:16-25 | A literal matches its text and moves the iterator in either case. |
| Router.MatchOsmId | src/router.cpp:27-46 | An id matches digits with a positive 64-bit value, which it returns, and moves the iterator only then. |
| Router.ParseOsmIdExactly | src/router.cpp:27-46 | A component is the id `n` exactly when it is non-empty, all digits, and has the positive 64-bit value `n`. |
| Router.NestedIsFlat | include/cgimap/router.hpp:62-82 | However nested, an expression matches from a position exactly what its flat pattern does. |
| Router.InvokeIsFlat | src/routes.cpp:95-115 | **Main result.** A rule accepts a path exactly when it has the pattern's length and fits it, with the ids in order. |
| Router.PrintedPathIsInvoked | src/routes.cpp:95-115 | **Main result.** The path printed from a pattern and ids in range is accepted with exactly those ids. |
| Routes.RouteTable.Match | src/routes.cpp:150-203 | The three loops, constructing each matching handler before looking at the method, compute the dispatch. |
| Routes.MethodNotAllowedExactly | src/routes.cpp:150-203 | **Main result.** 405 is raised exactly when the path is served, not for this method, and no matching rule's handler refuses the request, with exactly OPTIONS and the matching groups' methods. |
| Routes.AnswerMeaning | src/routes.cpp:150-203 | A returned handler was constructed, matches the path with its ids, and allows the method both by its group and by itself where the table fits; a refusal is that of the first candidate the loops do not pass. |
| Routes.ReturnedHandlerAllows | src/process_request.cpp:433-441 | **Main result.** A handler that the default table returns has the method in its own set, so the test after routing never answers 405. |
| Routes.OptionsAnnouncesExactly | src/process_request.cpp:359-380 | **Main result.** What OPTIONS announces is all that the path serves exactly when one group of rules matches the path. |
| Routes.DefaultOptionsAnnounceExactly | src/routes.cpp:224-263 | In the default table, exactly when the path is not `changeset/<id>`. |
| Routes.ChangesetOptionsOmitPut | src/process_request.cpp:443-445 | There OPTIONS announces GET, HEAD and OPTIONS, PUT is served, and a POST is answered 405 with PUT among the methods. |
| Routes.DecidedByFirst | src/routes.cpp:164-190 | The answer is that of the first matching rule that refuses or serves the method. |
| Routes.PostToMap | src/api06/map_handler.cpp:77-104 | POST or OPTIONS on `map` is answered with the handler's own error when its parameters are refused, and POST with 405 only otherwise. |
| Routes.OrderIrrelevant | src/routes.cpp:154-157 | Where no path matches two rules, the order of rules does not matter. |
| Routes.DefaultTableUnambiguous | src/routes.cpp:224-263 | **Main result.** In the default table no path matches two rules of one group, so any order dispatches alike. |
| RoutePaths.MethodTexts | src/http.cpp:261-293 | Each of five texts names its method and no other text names one. |
| RoutePaths.ListPaths | src/routes.cpp:224-263 | `map`, `nodes`, `ways` and `relations` reach their handlers. |
| RoutePaths.NodePaths | src/routes.cpp:224-263 | `node/<n>`, its versions, history, ways and relations reach their handlers with the numbers in the path. |
| RoutePaths.WayPaths | src/routes.cpp:224-263 | The same for ways, with `full`. |
| RoutePaths.RelationPaths | src/routes.cpp:224-263 | The same for relations. |
| RoutePaths.ChangesetPaths | src/routes.cpp:224-263 | **Main result.** The paths of changesets reach the handler that their method asks for, POST only for uploads and PUT for create, update and close. |
| RequestWorkflow.Request.CheckWorkflow | src/request.cpp:69-98 | Advances the workflow or throws without a change; the recursion through the default headers ends. |
| RequestWorkflow.Request.SetDefaultHeaders | src/request.cpp:19-27 | Adds the CORS headers exactly when the client sent an origin. |
| RequestWorkflow.Request.AddHeader | src/request.cpp:37-41 | Adds one header, or throws without a change once the body has begun. |
| RequestWorkflow.Request.GetBuffer | src/request.cpp:49-52 | Gives the body access after the headers, or throws without a change when finished. |
| RequestWorkflow.Request.Finish | src/request.cpp:64-67 | Finishes after writing the headers if they were still due. |
| RequestWorkflow.BeforeOutput | src/request.cpp:31-47 | Until the first output call the state is what the calls say and nothing is written. |
| RequestWorkflow.HeadersWrittenOnce | src/request.cpp:69-98 | **Main result.** Headers are written once and first: the last status, the four CORS headers by name and value if an origin was sent, then added ones in call order, then success headers if and only if that status was 200. |
| RequestWorkflow.MethodsListed | src/http.cpp:271-283 | The list names each method of the set once, in a fixed order, with a comma and a space between two of them. |
| OsmChangeSort.Order | src/osmchange_responder.cpp:37-52 | The comparison is total and transitive, and equates only elements of the same timestamp, version, type and id. |
| OsmChangeSort.AtMostExactly | src/osmchange_responder.cpp:37-52 | One version comes before another by dictionary order of the timestamps, then lower version, then nodes before ways before relations, then lower id. |
| OsmChangeSort.SortingFormatter.Write | src/osmchange_responder.cpp:195-214 | Sorts the collected elements and writes each between the start and end of one action: create for version 1, modify for a visible later version, delete for a hidden one. |
| OsmChangeSort.ActionsWriteAll | src/osmchange_responder.cpp:197-214 | Every element is written once, in list order. |
| OsmChangeSort.OutputIsDetermined | src/osmchange_responder.cpp:195-214 | **Main result.** For distinct versions the output depends only on the set selected, despite the unstable sort. |
| OsmChangeSort.OutputFollowsVersionsExactly | src/osmchange_responder.cpp:37-52 | **Main result.** Each object's versions come out in order exactly when its timestamps follow its versions. |
| OsmChangeSort.EarlierTimestampComesFirst | src/osmchange_responder.cpp:37-52 | Two versions of a node that come out in the wrong order. |

## Left out

- The node, way and relation updaters' work in the database: each is three buffers that are drained in order into an
  execution log. What the database answers (new ids, current versions, whether an if-unused delete is skipped) and which
  batch it rejects, given what was executed before, are parameters; version checks of modifications are the subject of
  `ModificationPackages`. Placeholder resolution and the boxes that the updaters compute are not modelled.
- `process_node`, `process_way` and `process_relation` have the same shape and are one method `Process` on the type.
- `bbox_t`, `OSMObject` and its subclasses are values: their setters are functions, so aliasing of these objects is not
  captured. The parser's three object pointers are one field, of which only the one of the current context is in use.
- The parser's callbacks are collected and then handled; in the original each reaches the handler at once, so an error of
  the handler may come before a later error of the parser. The message of an error is not modelled, only its status.
- The integer columns of `changesets` are unbounded here; the 32-bit arithmetic of the updater is not.
- Two transactions of the protocol touch one changeset only; the `users` row and its lock are not part of this model.
- ChangesetProtocol.ClosedForever: states the property for runs whose later lock attempts are made by transactions that
  began no earlier than the one that saw the changeset closed; `LeftAloneExactly` is the exact form.
- OsmChangeHandler.ElementUpdater.ProcessNew: reports in buffer order, where the database's row order is open; forward
  references between relations are among the rejections that are a parameter.
- OsmChangeHandler.ElementUpdater.ProcessModify: takes the rejection of a batch from a parameter; which batches versions
  reject is proved for resolved ids in `ModificationPackages`.
- OsmChangeHandler.ElementUpdater.ProcessDelete: version conflicts, deleted and referenced objects are among the rejections
  that are a parameter, as is which if-unused deletes are skipped.
- OsmChangeDocument.HandleDocument: a batch is rejected as a whole and nothing is said about the tables after a failure,
  because the transaction is then not committed.
- RateLimiter.BandwidthBound: assumes that time does not run backwards, one request of a client at a time, and responses that
  keep the debt within 32 bits, as `TruncatedDebtForgiven` shows to be needed; overlapping updates of one key are excluded
  because the code itself does not guard against them. Products are not cut to 64 bits, and the retry after a failed
  insertion is not modelled.
- `lon2x`, `lat2y`, scaling and rounding are on real numbers; floating-point error is not modelled.
- PgArrays.ArrayRoundTrip: does not cover other backslash escapes than those of quotes and backslashes, nor the empty
  array, which the parser reads as one empty string.
- Parsing of `double` attributes and the Unicode length of texts are parameters of the configuration.
- `urldecode` and the splitting of query parameters, the stripping of `.json` and `.xml` and the check of the path prefix.
- Handlers are names with their own methods; which of them refuse the request at hand, and with what error, is a parameter.
- Ways and relations in `select_historical_*` and in the merge before writing follow the text of the node case.
- Formatters, compression, FastCGI, logging, OAuth, permissions and content negotiation: shallow branching or input and
  output, which would add only easy members.
