# Document tracking pages: status workflow model

The application tracks three kinds of documents through delivery: credit
notes, delivery orders and invoices. Each kind has a tracking page. A page
shows a table of rows, and each row carries:

- a document number and date;
- a status from a fixed list of twelve;
- optional assignees: a driver, a salesman or a clerk;
- optional transfer and hold warehouses;
- a delivery date and slot;
- a free-text remark;
- a discrepancy flag with a title and a description.

Changing a row's status starts a small workflow. The page checks phase
guards (Billed, phase-2 preparation statuses, Delivery In Progress,
Delivered, Completed). It then opens selection dialogs for a salesman,
clerk, warehouse, hold type or driver. Next it asks for a delivery date,
then a delivery slot. On the delivery-order page it can finally attach an
invoice. A change that commits a payload is offered to every other
selected row ("bulk apply").

This project models the following as Dafny:

- the credit-note and delivery-order pages (`PhasedPages.PhasedTracker`);
- the older invoice page (`InvoicePage.InvoiceTracker`), which has no phases and no bulk apply, and stores rows only in test mode;
- the pure logic under both pages:
  - the status decision table (`Workflow`, `InvoiceWorkflow`);
  - the statuses and their phases (`Statuses`);
  - row patches, the row `updateRow` merge and persistence (`Rows`);
  - `parseDate` and `toInputDate` from `src/utils/dateFormat.js` (`DateFormat`);
  - normalising the add-document form and splitting its entries into conflicts and new rows (`AddDocuments`);
  - the invoice search filter (`InvoiceSearch`);
  - the dialogs a page can have open (`Dialogs`);
  - the `find` lookup the pages share (`Lookup`);
  - the JavaScript string built-ins these use (`Text`).

Each page is a class whose fields are the page's state:

- the rows;
- the selected row ids;
- the pending bulk ids;
- the pending assign-date step;
- the open dialog;
- test mode;
- an outbox of the storage-adapter calls made so far.

Each event handler is a method. Its `ensures` ties the new state to the
pure decision functions. The properties that matter are lemmas about those
functions:

- the phase guards;
- the delivered gate;
- capturing and restoring `remarkAtBilled`;
- exactly which fields each confirmation clears;
- the bulk update's pointwise result;
- the add-form partition;
- date parsing round trips.

Where the code departs from the documented behaviour, the model follows
the code:

- Entering a salesman status does not clear the clerk, and entering a clerk status does not clear the salesman. Two assignees can coexist (`Workflow.EntryTable`).
- Entering Chop & Sign - Warehouse never captures `remarkAtBilled` (`Workflow.RemarkCapturedIff`).
- The bulk payload of a transfer does not include the status (`Workflow.TransferPatch`).
- Parsing a date with exactly one slash throws, and the handler stops before changing anything (`DateFormat.ParseSingleSlashThrows`).

## Model

| member | source | states |
|---|---|---|
| Text.Split | src/utils/dateFormat.js:15 | `split` on a separator set yields at least one part; the parts hold no separator (`SplitPartsAvoid`), and the split depends only on where the separators are |
| Text.PadStart | src/utils/dateFormat.js:30-32 | `padStart` keeps the string as a suffix, fills only the front with the pad character, and reaches at least the requested length |
| Text.TrimStart | src/pages/CreditNoteTrackingPage.jsx:962 | only leading whitespace is dropped; the result is a suffix that starts with a non-space |
| Text.TrimEnd | src/pages/CreditNoteTrackingPage.jsx:962 | only trailing whitespace is dropped; the result is a prefix that ends with a non-space |
| Text.Trim | src/pages/CreditNoteTrackingPage.jsx:962 | `trim` never lengthens the string |
| Text.TrimStripsEnds | src/pages/CreditNoteTrackingPage.jsx:962 | what `trim` returns neither starts nor ends with whitespace |
| Text.TrimIdempotent | src/pages/CreditNoteTrackingPage.jsx:962 | trimming twice is trimming once |
| Text.LowerChar | src/pages/DeliveryOrderTrackingPage.jsx:982-988 | one character's lower case: only the modelled capitals change, and the result is never one of them |
| Text.ToLower | src/pages/DeliveryOrderTrackingPage.jsx:982-988 | `toLowerCase` lower-cases character by character; with one character per capital, the length is kept |
| Text.ToLowerIdempotent | src/pages/DeliveryOrderTrackingPage.jsx:982-988 | lower-casing twice is lower-casing once |
| Statuses.FromName | src/pages/CreditNoteTrackingPage.jsx:31-45 | the status a string denotes has that string as its name and is canonical; it is an unlisted status exactly when the string is not one of the options |
| Statuses.Name | src/pages/CreditNoteTrackingPage.jsx:31-44 | each offered status is stored as one of the dropdown's option strings; any other status keeps the string it was read with |
| Statuses.NameInjective | src/pages/CreditNoteTrackingPage.jsx:31-45 | two canonical statuses are equal iff their names are, so status equality is string equality |
| Statuses.FromNameOfName | src/pages/CreditNoteTrackingPage.jsx:31-45 | reading back a canonical status's name gives the same status |
| Statuses.PhaseOfName | src/pages/CreditNoteTrackingPage.jsx:66-73 | `getPhase` is between 1 and 5, and an unknown string is phase 1 |
| Statuses.Phase | src/pages/CreditNoteTrackingPage.jsx:51-64 | each status has a phase between 1 and 5 |
| Statuses.PhaseAgreesWithNames | src/pages/CreditNoteTrackingPage.jsx:51-73 | the phase of a canonical status agrees with `getPhase` of its name |
| Statuses.PhaseTable | src/pages/CreditNoteTrackingPage.jsx:51-64 | which statuses are in phases 1 to 5, in both directions |
| Statuses.HoldOrChopTable | src/pages/CreditNoteTrackingPage.jsx:457-458 | exactly the six hold and chop-and-sign statuses carry the "Hold -" / "Chop & Sign -" prefix |
| Statuses.IsHoldOrChop | src/pages/CreditNoteTrackingPage.jsx:457-458 | the "Hold -" / "Chop & Sign -" prefix test on the status string; `HoldOrChopTable` proves which offered statuses pass it |
| Statuses.RequiresSalesman | src/pages/CreditNoteTrackingPage.jsx:46 | the two salesman statuses are phase-2 statuses and neither of them also requires a clerk |
| Statuses.RequiresClerk | src/pages/CreditNoteTrackingPage.jsx:47 | the two clerk statuses are phase-2 statuses |
| Rows.Apply | src/pages/CreditNoteTrackingPage.jsx:259-276 | merging updates never changes the id or the number-and-date lock |
| Rows.ApplyEmpty | src/pages/CreditNoteTrackingPage.jsx:259-276 | merging an empty update leaves the row as it was |
| Rows.ApplyIdempotent | src/pages/CreditNoteTrackingPage.jsx:259-276 | merging the same update twice equals merging it once |
| Rows.UpdateRows | src/pages/CreditNoteTrackingPage.jsx:259-276 | `updateRow` keeps the number of rows and every row's id in place |
| Rows.Ids | src/pages/CreditNoteTrackingPage.jsx:1140-1146 | the ids of the rows, one per row and in order |
| Rows.Written | src/pages/CreditNoteTrackingPage.jsx:259-276 | a handler's write keeps the row ids |
| Rows.FindRow | src/pages/CreditNoteTrackingPage.jsx:364-377 | the found row is in the list with that id; nothing is found exactly when no row has the id |
| Rows.FindAfterUpdate | src/pages/CreditNoteTrackingPage.jsx:259-276 | after `updateRow`, looking the row up finds the old row with the update merged in |
| Rows.RemoveRows | src/pages/CreditNoteTrackingPage.jsx:278-283 | deleting keeps exactly the rows with another id |
| Rows.UpdateEachPointwise | src/pages/CreditNoteTrackingPage.jsx:308-316 | the bulk update merges the payload exactly into the selected rows and leaves the others unchanged |
| Rows.UpdateEach | src/pages/CreditNoteTrackingPage.jsx:308-316 | the bulk update keeps the number of rows and every row's id in place |
| Rows.PersistEach | src/pages/CreditNoteTrackingPage.jsx:308-316 | the bulk update makes at most one storage call per selected id |
| Rows.NewRow | src/pages/CreditNoteTrackingPage.jsx:81-101 | a new row is Billed (phase 1), has the given number and date, no assignees or warehouses, and empty date, slot and remarks |
| Rows.PersistMerged | src/pages/CreditNoteTrackingPage.jsx:259-276 | at most one storage call, made exactly when the row exists: an update for a `local_` id, an insert otherwise |
| DateFormat.ParseDate | src/utils/dateFormat.js:26-37 | a value with no slash, the empty string included, is returned as it is; `parseDate` fails only on a slash value with fewer than three parts |
| DateFormat.ToInputDate | src/utils/dateFormat.js:13-24 | the empty string, and any value that does not split into exactly three parts on `/` or `-`, gives the empty string |
| DateFormat.ExpandYear | src/utils/dateFormat.js:30 | the expanded year has at least four characters |
| DateFormat.ParseDayMonthYear | src/utils/dateFormat.js:26-36 | `d/m/y` parses to year-month-day with padded fields |
| DateFormat.ParseIgnoresExtraParts | src/utils/dateFormat.js:29 | parts after the third slash are ignored |
| DateFormat.ParseSingleSlashThrows | src/utils/dateFormat.js:29-30 | a value with exactly one slash makes `parseDate` throw |
| DateFormat.ParsedHasNoSlash | src/utils/dateFormat.js:26-36 | a successful parse returns a string with no slash |
| DateFormat.ParseDateIdempotent | src/utils/dateFormat.js:26-36 | parsing a parsed date returns it unchanged |
| DateFormat.ParseAgreesWithToInputDate | src/utils/dateFormat.js:13-36 | on a dash-free value with exactly three slash-separated parts, the first not four characters long, `parseDate` and `toInputDate` give the same result |
| DateFormat.YearFirstSlashDate | src/utils/dateFormat.js:13-36 | for `yyyy/m/d`, `parseDate` reads the parts as day, month and year (the four-character year becomes the day), while `toInputDate` keeps them year-first; the exact result of each is given |
| DateFormat.ToInputDateOfIso | src/utils/dateFormat.js:18 | a year-first dash date is kept, with month and day padded |
| DateFormat.ToInputDateKeepsIso | src/utils/dateFormat.js:18 | a padded ISO date comes back unchanged |
| DateFormat.ToInputDateOfParsed | src/utils/dateFormat.js:13-36 | for a year that expands to exactly four characters, `toInputDate` returns what `parseDate` produced from `d/m/y` unchanged |
| DateFormat.ToInputDateOfDayFirst | src/utils/dateFormat.js:13-23 | a day-first date whose separators are any mix of `/` and `-` becomes year-month-day, padded |
| AddDocuments.Numbered | src/pages/CreditNoteTrackingPage.jsx:958-966 | the form lines kept are exactly those whose number is not blank |
| AddDocuments.NumberedOne | src/pages/CreditNoteTrackingPage.jsx:959-965 | one form line is kept exactly when its number is not blank |
| AddDocuments.NumberedConcat | src/pages/CreditNoteTrackingPage.jsx:959-965 | `.filter` keeps the form order and repeated lines: filtering a concatenation filters each part |
| AddDocuments.Entries | src/pages/CreditNoteTrackingPage.jsx:958-966 | one entry per numbered line, with the trimmed number, and the date from the first line when "apply to all" is on |
| AddDocuments.EntriesTrimmed | src/pages/CreditNoteTrackingPage.jsx:958-966 | every entry's number is non-empty and already trimmed |
| AddDocuments.ProceedAllowed | src/pages/CreditNoteTrackingPage.jsx:968-976 | the confirmation may open only when at least one line has a number |
| AddDocuments.ProceedMeansDated | src/pages/CreditNoteTrackingPage.jsx:968-976 | once the confirmation may open, every entry has a number and a date |
| AddDocuments.FindByNumber | src/pages/CreditNoteTrackingPage.jsx:983 | the matched row has the same trimmed number; with no match, no row has it |
| AddDocuments.FindByNumberIsFirst | src/pages/CreditNoteTrackingPage.jsx:983 | with duplicate numbers, the matched row is the first row with that trimmed number |
| AddDocuments.Conflicts | src/pages/CreditNoteTrackingPage.jsx:980-986 | there are no more conflicts than entries |
| AddDocuments.NonConflicting | src/pages/CreditNoteTrackingPage.jsx:981-986 | the non-conflicting entries are no more than the entries |
| AddDocuments.PartitionSizes | src/pages/CreditNoteTrackingPage.jsx:981-986 | conflicts plus non-conflicting entries account for every entry |
| AddDocuments.ConflictsSound | src/pages/CreditNoteTrackingPage.jsx:981-986 | each conflict pairs an entry with a table row of the same trimmed number |
| AddDocuments.NonConflictingSound | src/pages/CreditNoteTrackingPage.jsx:981-986 | a non-conflicting entry matches no row |
| AddDocuments.PartitionComplete | src/pages/CreditNoteTrackingPage.jsx:981-986 | each entry lands on the side its lookup says |
| AddDocuments.Partition | src/pages/CreditNoteTrackingPage.jsx:978-986 | the loop computes exactly the conflicts and the non-conflicting entries |
| AddDocuments.OverwritePatch | src/pages/CreditNoteTrackingPage.jsx:1035-1048 | the overwrite writes the entry's number and date and the Billed status, and names neither remark nor the discrepancy |
| AddDocuments.OverwriteResets | src/pages/CreditNoteTrackingPage.jsx:1032-1063 | an overwrite resets the matched row to Billed with the entry's number and date and no assignees, warehouses, hold type, delivery date or slot, and in phase 1; it keeps the id, the remark, `remarkAtBilled` and the discrepancy |
| AddDocuments.NewRows | src/pages/CreditNoteTrackingPage.jsx:991-995 | one new Billed row per non-conflicting entry, with its number, its date and the id storage gave it |
| AddDocuments.InsertCommands | src/pages/CreditNoteTrackingPage.jsx:991-995 | one insert per new row, in order |
| InvoiceSearch.SearchKey | src/pages/DeliveryOrderTrackingPage.jsx:984 | the search key is no longer than the query and already lower-case |
| InvoiceSearch.FilterInvoices | src/pages/DeliveryOrderTrackingPage.jsx:982-988 | the filter keeps only invoices from the list, never more than it had |
| InvoiceSearch.Matching | src/pages/DeliveryOrderTrackingPage.jsx:982-988 | the kept invoices are exactly those whose lower-cased number contains the key |
| InvoiceSearch.FilterIsMatching | src/pages/DeliveryOrderTrackingPage.jsx:982-988 | the blank-query shortcut returns what the filter would: the list is the invoices that match |
| InvoiceSearch.MatchingSingleton | src/pages/DeliveryOrderTrackingPage.jsx:997-1000 | the filter leaves exactly one invoice iff exactly one position of the list matches, and it is that invoice |
| InvoiceSearch.FilterInvoicesExact | src/pages/DeliveryOrderTrackingPage.jsx:982-988 | the filter keeps exactly the matching invoices, and a blank query keeps the whole list |
| InvoiceSearch.MatchingIgnoresQueryCase | src/pages/DeliveryOrderTrackingPage.jsx:982-988 | an upper-case and a lower-case query select the same invoices |
| InvoiceSearch.TrimCommutesWithLower | src/pages/DeliveryOrderTrackingPage.jsx:984 | trimming then lower-casing is lower-casing then trimming |
| Lookup.FindFirst | src/pages/CreditNoteTrackingPage.jsx:550 | `find` with a key test: the found element is in the list with that key; nothing is found exactly when no element has it |
| Lookup.FindFirstIsFirst | src/pages/CreditNoteTrackingPage.jsx:550 | the found element is the first one with that key |
| InvoiceSearch.FindInvoice | src/pages/DeliveryOrderTrackingPage.jsx:999 | the found invoice is in the list with that id; nothing is found exactly when no invoice has it |
| InvoiceSearch.ChosenInvoice | src/pages/DeliveryOrderTrackingPage.jsx:997-1000 | an explicit pick is looked up by id: the chosen invoice has that id, and none is chosen only when no invoice has it; without a pick, an invoice is chosen exactly when one position of the list matches the query, and it is that invoice |
| Dialogs.FindWarehouse | src/pages/CreditNoteTrackingPage.jsx:550 | the found warehouse is in the list with that id; nothing is found exactly when no warehouse has it |
| Workflow.AfterCommit | src/pages/CreditNoteTrackingPage.jsx:285-306 | with pending bulk ids, the bulk prompt opens carrying the payload and the next dialog; otherwise the next dialog opens at once and nothing stays pending |
| Workflow.EntryOutcome | src/pages/CreditNoteTrackingPage.jsx:459-496 | every entry writes the new status, except Chop & Sign - Warehouse, which writes nothing; a bulk offer is the write itself and opens no dialog |
| Workflow.StartDate | src/pages/CreditNoteTrackingPage.jsx:498-509 | the assign-date step starts from a non-empty date |
| Workflow.DeliveredReady | src/pages/CreditNoteTrackingPage.jsx:445-451 | a driver or a salesman, and a delivery date; `DeliveredGate` proves a change to Delivered writes exactly when this holds (on a row not already Delivered, unless locked) |
| Workflow.CanEditRow | src/pages/CreditNoteTrackingPage.jsx:1179-1182 | `canEditRow` holds exactly in test mode: its Completed clause never changes the answer |
| Workflow.CaptureRemark | src/pages/CreditNoteTrackingPage.jsx:459-460 | the remark is captured only when a phase-1 row enters phase 2, and what is captured is the row's current remark |
| Workflow.PassesGuards | src/pages/CreditNoteTrackingPage.jsx:391-452 | a locked Completed row and a Delivered row never pass; a change to Delivered that passes has the Delivered prerequisites |
| Workflow.DefaultPatch | src/pages/CreditNoteTrackingPage.jsx:484-494 | the final branch writes the new status and the captured remark, clears the driver exactly for hold and chop-and-sign targets, and leaves remark, date, slot and hold warehouse alone |
| Workflow.StatusChange | src/pages/CreditNoteTrackingPage.jsx:391-496 | a change offered to the selection writes exactly its bulk payload and leaves no dialog open |
| Workflow.GuardsWriteNothing | src/pages/CreditNoteTrackingPage.jsx:391-496 | a change writes only when every guard passes; a guard that stops it only prompts |
| Workflow.SameStatusOnlyPrompts | src/pages/CreditNoteTrackingPage.jsx:393-396 | choosing the current status only opens the same-status prompt |
| Workflow.CompletedIsLocked | src/pages/CreditNoteTrackingPage.jsx:391-496 | outside test mode a Completed row cannot go back to an earlier phase |
| Workflow.DeliveredGate | src/pages/CreditNoteTrackingPage.jsx:391-496 | Delivered is written iff the row is not Delivered, not a locked Completed row, and has a driver or salesman and a date |
| Workflow.DeliveredBacktracks | src/pages/CreditNoteTrackingPage.jsx:391-496 | from Delivered, every phase 1–3 target goes to the backtrack prompt |
| Workflow.RedeliverOnlyFromInProgress | src/pages/CreditNoteTrackingPage.jsx:391-496 | the redeliver and change-status prompts open iff the row is In Progress and the target is phase 2 |
| Workflow.EntryCaptures | src/pages/CreditNoteTrackingPage.jsx:459-483 | once the guards pass, `remarkAtBilled` is written exactly by the entries that write a captured remark other than Chop & Sign - Warehouse, and the value is the row's remark |
| Workflow.RemarkCapturedIff | src/pages/CreditNoteTrackingPage.jsx:391-496 | `remarkAtBilled` is written iff a Billed row enters phase 2 (not Chop & Sign - Warehouse), and what is written is the remark |
| Workflow.DefaultBranchExact | src/pages/CreditNoteTrackingPage.jsx:484-494 | the final branch clears salesman, clerk and transfer, clears the driver exactly for hold and chop-and-sign targets, and keeps everything else |
| Workflow.EntryTable | src/pages/CreditNoteTrackingPage.jsx:461-483 | each dialog-opening entry writes the status, clears exactly its listed fields and opens its dialog |
| Workflow.ApplyAll | src/pages/CreditNoteTrackingPage.jsx:259-276 | successive `updateRow` merges on one row, in order; the row keeps its id throughout, so later updates still find it (the sequence `RemarkRoundTrip` and `ApplyAllKeepsRemarkAtBilled` reason over) |
| Workflow.ApplyAllKeepsRemarkAtBilled | src/pages/CreditNoteTrackingPage.jsx:259-276 | updates that do not name `remarkAtBilled` keep it |
| Workflow.BacktrackToBilledPatch | src/pages/CreditNoteTrackingPage.jsx:674-687 | the backtrack writes Billed and the remembered remark, and leaves the number, the document date, the discrepancy and `remarkAtBilled` alone; `BacktrackToBilledResets` gives its effect on a row |
| Workflow.BacktrackToBilledResets | src/pages/CreditNoteTrackingPage.jsx:674-695 | going back to Billed clears every assignment, warehouse, date and slot, and restores the remembered remark |
| Workflow.RemarkRoundTrip | src/pages/CreditNoteTrackingPage.jsx:674-695 | a Billed row's remark survives entering phase 2, any edits, and the backtrack to Billed |
| Workflow.RedeliverClears | src/pages/CreditNoteTrackingPage.jsx:655-668 | `RedeliverPatch` (a constant) clears the driver, salesman, date and slot, and keeps everything else |
| Workflow.ReentryClearsKeepsRemark | src/pages/CreditNoteTrackingPage.jsx:701-739 | a confirmed change to another phase-2 status clears every assignment, warehouse, date and slot, and keeps the remark |
| Workflow.ReentryPatch | src/pages/CreditNoteTrackingPage.jsx:706-716 | the re-entry reset writes the new status and leaves the remark, `remarkAtBilled`, number, document date and discrepancy alone |
| Workflow.DeliveredBacktrackPatch | src/pages/CreditNoteTrackingPage.jsx:752-764 | the Delivered backtrack writes the new status and the remembered remark; a Delivered backtrack to Billed sends exactly the phase-2 backtrack's payload |
| Workflow.DeliveredBacktrackRestoresRemark | src/pages/CreditNoteTrackingPage.jsx:745-781 | a confirmed Delivered backtrack clears the same fields and restores the remembered remark |
| Workflow.ReentryDialog | src/pages/CreditNoteTrackingPage.jsx:719-738 | after a confirmed re-entry, each phase-2 target opens its own selection dialog (Delivery In Progress asks whom to assign only after a Delivered backtrack); Preparing Delivery and the other statuses open none |
| Workflow.CompletedWritesOnlyStatus | src/pages/CreditNoteTrackingPage.jsx:787-792 | `CompletedPatch` (a constant) writes the Completed status and nothing else |
| Workflow.CancelRevertsStatus | src/pages/CreditNoteTrackingPage.jsx:511-626 | each cancellation restores the previous status and clears only its own dialog's field |
| Workflow.EmptyStatusReachable | src/pages/CreditNoteTrackingPage.jsx:745-781 | after a Delivered backtrack, cancelling the assign-to prompt writes the empty status (phase 1) |
| Workflow.AppendRemark | src/pages/CreditNoteTrackingPage.jsx:603-604 | the new remark ends with the appended suffix |
| Workflow.AppendRemarkKeepsOld | src/pages/CreditNoteTrackingPage.jsx:600-618 | the trimmed old remark stays as a prefix and the suffix ends the new remark |
| Workflow.IsKeruing | src/pages/CreditNoteTrackingPage.jsx:552 | only a found warehouse with a seven-character name can be Keruing |
| Workflow.HoldWarehouseChoice | src/pages/CreditNoteTrackingPage.jsx:549-571 | a write happens exactly for the Keruing warehouse and is also the bulk offer; otherwise the hold-type dialog opens with the warehouse's name |
| Workflow.KeruingCommitsAtOnce | src/pages/CreditNoteTrackingPage.jsx:549-572 | the Keruing warehouse commits the hold at once with no type; any other warehouse writes nothing and asks for a type |
| Workflow.KeruingPatch | src/pages/CreditNoteTrackingPage.jsx:552-561 | the Keruing commit is the typed hold commit with no type and no remark change |
| Workflow.KeruingIgnoresCase | src/pages/CreditNoteTrackingPage.jsx:552 | the Keruing test ignores letter case |
| Workflow.HoldTypeAppendsType | src/pages/CreditNoteTrackingPage.jsx:600-618 | a typed hold writes the warehouse, the type, today and no slot, and appends the type to the trimmed remark |
| Workflow.HoldTypePatch | src/pages/CreditNoteTrackingPage.jsx:600-613 | a typed hold writes Hold - Warehouse with the chosen type, and leaves salesman, clerk, transfer warehouse and discrepancy alone |
| Workflow.TransferPatch | src/pages/CreditNoteTrackingPage.jsx:534-539 | the transfer commit writes the warehouse, today and an empty slot, and leaves the status (written when the dialog opened), the driver and the remark alone |
| Workflow.ChopSignCommits | src/pages/CreditNoteTrackingPage.jsx:811-881 | both Chop & Sign commits save the date with an empty slot and tag the remark |
| Workflow.ChopSignYesPatch | src/pages/CreditNoteTrackingPage.jsx:847-856 | Chop & Sign "yes" moves the row to phase 3 with an empty slot, keeping its driver and hold warehouse |
| Workflow.ChopSignNoPatch | src/pages/CreditNoteTrackingPage.jsx:829-842 | Chop & Sign "no" is a Hold - Warehouse commit with an empty type on the chosen date, tagged "Chop & Sign" |
| Workflow.DatePatch | src/pages/CreditNoteTrackingPage.jsx:861 | the plain date commit writes the date and an empty slot and names no other field |
| Workflow.SavedDate | src/pages/CreditNoteTrackingPage.jsx:815-817 | with a non-empty today, a saved date is never empty; the date fails only when the chosen date, or today in its place, has a slash |
| Workflow.SavedDateProperties | src/pages/CreditNoteTrackingPage.jsx:811-881 | the saved date is never empty; an ISO choice, or today, is saved as it is |
| Workflow.SavedDateOfDayMonthYear | src/pages/CreditNoteTrackingPage.jsx:811-881 | a `d/m/y` choice is saved as year-month-day |
| Workflow.DisplaySlot | src/pages/CreditNoteTrackingPage.jsx:345-362 | "Afternoon" is shown as "Noon"; any other slot is kept |
| Workflow.LeadRowPatch | src/pages/CreditNoteTrackingPage.jsx:865-875 | applied to the lead row itself, the payload changes only the date (to the saved one) and empties the slot |
| Workflow.SlotPatch | src/pages/CreditNoteTrackingPage.jsx:345-362 | the row gets the displayed slot and nothing else |
| Workflow.SlotCopiesLead | src/pages/CreditNoteTrackingPage.jsx:345-362 | the lead row only gets the slot; a bulk row takes the lead's status, salesman, driver, date and slot |
| Workflow.LeadRowBroadcast | src/pages/CreditNoteTrackingPage.jsx:865-875 | a date commit offered to the selection gives every other row the lead's status, salesman and driver with the saved date and an empty slot; its clerk, warehouses, remark and document keep |
| Workflow.StartOver | src/pages/CreditNoteTrackingPage.jsx:628-650 | starting over offers nothing to the selection, never writes the status or `remarkAtBilled`, and reopens the status's own step with that status to go back to; otherwise it opens the Chop & Sign - Warehouse prompt or nothing |
| Workflow.StartOverKeepsStatus | src/pages/CreditNoteTrackingPage.jsx:628-649 | starting over keeps the status, reopens its step with that status to go back to, and offers nothing to the selection |
| Workflow.DiscrepancySubmitAsWritten | src/components/DiscrepancyModal.jsx:13-17 | save then close leaves the row with the default discrepancy, whatever was typed |
| Workflow.DiscrepancySaveKeeps | src/pages/CreditNoteTrackingPage.jsx:379-384 | saving sets the checked discrepancy with the given details and touches no other field |
| InvoiceWorkflow.InvoiceStatusChange | src/pages/InvoiceTrackingPage.jsx:226-276 | the invoice page offers nothing to a selection and never writes `remarkAtBilled` |
| InvoiceWorkflow.InvoiceSameStatusOnlyPrompts | src/pages/InvoiceTrackingPage.jsx:228-231 | choosing the row's current status only opens the same-status prompt |
| InvoiceWorkflow.InvoiceDeliveredGate | src/pages/InvoiceTrackingPage.jsx:226-276 | Delivered is written iff the row is not Delivered and has a driver, a date and a slot; it clears salesman, clerk and transfer |
| InvoiceWorkflow.InvoiceDeliveredReady | src/pages/InvoiceTrackingPage.jsx:232-237 | the invoice page wants a driver, a date and a slot before Delivered; any row that passes it also passes the phase-aware gate (`SalesmanAloneNotEnoughForInvoices` shows the converse fails) |
| InvoiceWorkflow.SalesmanAloneNotEnoughForInvoices | src/pages/InvoiceTrackingPage.jsx:226-276 | a row with a salesman but no driver passes the phase-aware gate and fails the invoice gate |
| InvoiceWorkflow.InvoiceHasNoPhaseGuards | src/pages/InvoiceTrackingPage.jsx:226-276 | Completed can go back to Billed, and Delivered can go to phase 2 with no prompt |
| InvoiceWorkflow.InvoiceRedeliverOnly | src/pages/InvoiceTrackingPage.jsx:226-276 | the redeliver prompt opens iff In Progress goes to Preparing Delivery, and the change-status prompt never opens |
| InvoiceWorkflow.InvoiceChopSignWarehouseDirect | src/pages/InvoiceTrackingPage.jsx:226-276 | Chop & Sign - Warehouse is written directly and clears salesman, clerk, transfer and driver |
| InvoiceWorkflow.InvoiceHoldTypePatch | src/pages/InvoiceTrackingPage.jsx:354-365 | the invoice hold type leaves the remark alone |
| InvoiceWorkflow.InvoiceHoldTypeKeepsRemark | src/pages/InvoiceTrackingPage.jsx:354-365 | it matches the phase-aware typed hold in every field except the remark |
| InvoiceWorkflow.IsSupabaseId | src/pages/InvoiceTrackingPage.jsx:21-24 | an id is stored in the database when it is an 8-4-4-4-12 hexadecimal UUID; `LocalIdsAreNotStored` and `UuidIgnoresCase` prove what it accepts |
| InvoiceWorkflow.LocalIdsAreNotStored | src/pages/InvoiceTrackingPage.jsx:22-24 | `local_` ids and ids without a dash are never taken for stored UUIDs |
| InvoiceWorkflow.UuidIgnoresCase | src/pages/InvoiceTrackingPage.jsx:22-24 | an id is taken for a stored UUID exactly when its lower-cased form is, so both letter cases are recognised |
| PhasedPages.Without | src/pages/CreditNoteTrackingPage.jsx:1259-1267 | removing an id from the selection keeps exactly the other ids |
| PhasedPages.Toggle | src/pages/CreditNoteTrackingPage.jsx:1250-1256 | a row click flips that row's membership and no other |
| PhasedPages.ToggleTwice | src/pages/CreditNoteTrackingPage.jsx:1250-1256 | two clicks leave the same rows selected |
| PhasedPages.PhasedTracker.constructor | src/pages/CreditNoteTrackingPage.jsx:108-109 | the page starts outside test mode, with nothing selected, pending or open |
| PhasedPages.PhasedTracker.UpdateRow | src/pages/CreditNoteTrackingPage.jsx:259-276 | the rows are merged and the merged row is persisted; nothing else changes |
| PhasedPages.PhasedTracker.Perform | src/pages/CreditNoteTrackingPage.jsx:290-306 | the write is merged and persisted; a bulk payload goes through `afterBulkableCommit` |
| PhasedPages.PhasedTracker.ToggleTestMode | src/pages/CreditNoteTrackingPage.jsx:1117 | only test mode flips |
| PhasedPages.PhasedTracker.DeleteRow | src/pages/CreditNoteTrackingPage.jsx:278-283 | in test mode the row is deleted in storage and dropped; otherwise nothing changes |
| PhasedPages.PhasedTracker.RemoveAbsent | src/pages/CreditNoteTrackingPage.jsx:278-283 | deleting an id no row has changes nothing |
| PhasedPages.PhasedTracker.SelectAll | src/pages/CreditNoteTrackingPage.jsx:1140-1146 | the header checkbox selects every row id or none |
| PhasedPages.PhasedTracker.RowClick | src/pages/CreditNoteTrackingPage.jsx:1250-1256 | the row is selected after the click iff it was not before |
| PhasedPages.PhasedTracker.RowCheckbox | src/pages/CreditNoteTrackingPage.jsx:1259-1267 | the row is selected iff its box is ticked |
| PhasedPages.PhasedTracker.UpdateEachLoop | src/pages/CreditNoteTrackingPage.jsx:309-312 | the loop yields exactly the rows and storage calls of one `updateRow` per id, each on the result of the previous |
| PhasedPages.PhasedTracker.UpdateEachRow | src/pages/CreditNoteTrackingPage.jsx:309-312 | the loop leaves the rows and outbox of one `updateRow` per id, in order |
| PhasedPages.PhasedTracker.EachStep | src/pages/CreditNoteTrackingPage.jsx:309-312 | one more id in the bulk is one more `updateRow` after the others |
| PhasedPages.PhasedTracker.BulkApplyYes | src/pages/CreditNoteTrackingPage.jsx:308-316 | exactly the selected rows get the payload; the selection is cleared and the continuation opens |
| PhasedPages.PhasedTracker.BulkApplyNo | src/pages/CreditNoteTrackingPage.jsx:318-322 | no row changes; the continuation opens |
| PhasedPages.PhasedTracker.DeliveryDateChange | src/pages/CreditNoteTrackingPage.jsx:324-337 | `handleDateChange`, which no control calls: a parsed date is written with no slot; the slot dialog opens unless the row is held or chop-and-signed; a failing parse changes nothing |
| PhasedPages.PhasedTracker.DocumentDateChange | src/pages/CreditNoteTrackingPage.jsx:339-343 | `handleCreditNoteDateChange`, which no control calls: a parsed document date is written; a failing parse changes nothing |
| PhasedPages.PhasedTracker.RemarkEdit | src/pages/CreditNoteTrackingPage.jsx:1324-1335 | on a row that `canEditRow` allows, the remark is written and persisted; otherwise, and always outside test mode, nothing changes (the input is read-only) |
| PhasedPages.PhasedTracker.SlotSelect | src/pages/CreditNoteTrackingPage.jsx:345-362 | the slot payload is committed and offered to the selection; delivery orders then ask for an attachment |
| PhasedPages.PhasedTracker.SlotClose | src/pages/CreditNoteTrackingPage.jsx:1592 | closing the slot dialog writes nothing |
| PhasedPages.PhasedTracker.DiscrepancyCheck | src/pages/CreditNoteTrackingPage.jsx:1339-1372 | on an unlocked row, ticking checks the box and opens the form with the row's details and unticking resets the discrepancy; on a locked Completed row the box is disabled and nothing changes |
| PhasedPages.PhasedTracker.OpenDiscrepancyDetails | src/pages/CreditNoteTrackingPage.jsx:1387-1401 | the form opens, with no title and the saved description, exactly when the link is shown: an unlocked row with a ticked, untitled discrepancy; otherwise the dialog stays |
| PhasedPages.PhasedTracker.DiscrepancySave | src/pages/CreditNoteTrackingPage.jsx:379-384 | the row ends with a checked discrepancy holding the given details, and the form closes |
| PhasedPages.PhasedTracker.DiscrepancySubmit | src/components/DiscrepancyModal.jsx:13-17 | as intended: the form's row is saved and persisted with a checked discrepancy holding the trimmed title and description, and the form closes; with no row open nothing changes; the selection, pending ids and assign-date step are kept |
| PhasedPages.PhasedTracker.DiscrepancyClose | src/pages/CreditNoteTrackingPage.jsx:386-389 | closing the form resets the discrepancy |
| PhasedPages.PhasedTracker.DiscrepancySubmitAsWired | src/pages/CreditNoteTrackingPage.jsx:1596-1608 | as wired: the row is saved, then reset to no discrepancy, with both storage calls in the outbox; with no row open nothing changes; the rest of the page is kept |
| PhasedPages.PhasedTracker.StatusChange | src/pages/CreditNoteTrackingPage.jsx:1285-1294 | on a locked Completed row there is no dropdown and nothing changes; otherwise the dropdown performs `Workflow.StatusChange` on the row; the selection counts as pending bulk ids when it contains the row |
| PhasedPages.PhasedTracker.SalesmanSelect | src/pages/CreditNoteTrackingPage.jsx:498-509 | the salesman is written and the assign-date step opens for that row |
| PhasedPages.PhasedTracker.SalesmanCancel | src/pages/CreditNoteTrackingPage.jsx:511-514 | the previous status is restored and the salesman cleared |
| PhasedPages.PhasedTracker.ClerkSelect | src/pages/CreditNoteTrackingPage.jsx:516-527 | the clerk is written and the assign-date step opens for that row |
| PhasedPages.PhasedTracker.ClerkCancel | src/pages/CreditNoteTrackingPage.jsx:529-532 | the previous status is restored and the clerk cleared |
| PhasedPages.PhasedTracker.TransferSelect | src/pages/CreditNoteTrackingPage.jsx:534-542 | the transfer warehouse and today's date are committed and offered to the selection |
| PhasedPages.PhasedTracker.TransferCancel | src/pages/CreditNoteTrackingPage.jsx:544-547 | the previous status is restored and the transfer warehouse cleared |
| PhasedPages.PhasedTracker.HoldWarehouseSelect | src/pages/CreditNoteTrackingPage.jsx:549-572 | performs the Keruing-or-type decision |
| PhasedPages.PhasedTracker.HoldWarehouseCancel | src/pages/CreditNoteTrackingPage.jsx:574-577 | the previous status is restored and the driver cleared |
| PhasedPages.PhasedTracker.HoldTypeSelect | src/pages/CreditNoteTrackingPage.jsx:600-618 | the typed hold, with the type appended to the remark, is committed and offered to the selection |
| PhasedPages.PhasedTracker.HoldTypeCancel | src/pages/CreditNoteTrackingPage.jsx:620-626 | the previous status is restored and the driver cleared |
| PhasedPages.PhasedTracker.ChopSignNoWarehouseSelect | src/pages/CreditNoteTrackingPage.jsx:579-594 | the warehouse is remembered and the assign-date step opens; no row changes |
| PhasedPages.PhasedTracker.ChopSignNoWarehouseCancel | src/pages/CreditNoteTrackingPage.jsx:596-598 | the dialog closes and nothing is written |
| PhasedPages.PhasedTracker.SameStatusStartOver | src/pages/CreditNoteTrackingPage.jsx:628-649 | performs the start-over step of the row's current status |
| PhasedPages.PhasedTracker.Dismiss | src/pages/CreditNoteTrackingPage.jsx:651-653 | a "no" or a close writes nothing and closes the dialog |
| PhasedPages.PhasedTracker.RedeliverYes | src/pages/CreditNoteTrackingPage.jsx:655-668 | the redelivery reset is committed and offered to the selection |
| PhasedPages.PhasedTracker.BacktrackToBilledYes | src/pages/CreditNoteTrackingPage.jsx:674-695 | the Billed reset with the row's remembered remark is committed and offered to the selection |
| PhasedPages.PhasedTracker.ChangeStatusYes | src/pages/CreditNoteTrackingPage.jsx:701-739 | the re-entry reset is committed, then the new status's own dialog opens |
| PhasedPages.PhasedTracker.DeliveredBacktrackYes | src/pages/CreditNoteTrackingPage.jsx:745-781 | the re-entry reset with the remembered remark is committed, then the new status's own dialog opens |
| PhasedPages.PhasedTracker.CompletedYes | src/pages/CreditNoteTrackingPage.jsx:787-792 | Completed is committed and offered to the selection |
| PhasedPages.PhasedTracker.ChopSignWarehouseNo | src/pages/CreditNoteTrackingPage.jsx:798-802 | the warehouse choice opens; nothing is written |
| PhasedPages.PhasedTracker.ChopSignWarehouseYes | src/pages/CreditNoteTrackingPage.jsx:804-809 | the status is written with no driver, then the driver dialog opens |
| PhasedPages.PhasedTracker.AssignDateInput | src/pages/CreditNoteTrackingPage.jsx:2007 | the chosen date is stored in the dialog; clearing it means today |
| PhasedPages.PhasedTracker.AssignDateOutcome | src/pages/CreditNoteTrackingPage.jsx:811-881 | confirming always writes the saved date with an empty slot; the slot dialog follows exactly after a driver outside Chop & Sign, and exactly then nothing is offered to the selection |
| PhasedPages.PhasedTracker.AssignDateConfirm | src/pages/CreditNoteTrackingPage.jsx:811-881 | the saved date is committed on the remembered row, per how the step was reached; a date that throws changes nothing |
| PhasedPages.PhasedTracker.AssignDateCancel | src/pages/CreditNoteTrackingPage.jsx:883-891 | the step and its pending state are dropped and nothing is written |
| PhasedPages.PhasedTracker.AssignToSelect | src/pages/CreditNoteTrackingPage.jsx:893-901 | the salesman or the driver dialog opens |
| PhasedPages.PhasedTracker.AssignToCancel | src/pages/CreditNoteTrackingPage.jsx:903-907 | the previous status is restored |
| PhasedPages.PhasedTracker.DriverSelect | src/pages/CreditNoteTrackingPage.jsx:909-921 | the driver is written and the assign-date step opens, with the slot to follow |
| PhasedPages.PhasedTracker.DriverCancel | src/pages/CreditNoteTrackingPage.jsx:923-926 | the previous status is restored and the driver cleared |
| PhasedPages.PhasedTracker.AddProceed | src/pages/CreditNoteTrackingPage.jsx:968-976 | the confirmation opens with the normalised entries only when the form is complete |
| PhasedPages.PhasedTracker.AppendRows | src/pages/CreditNoteTrackingPage.jsx:991-995 | the new rows are appended and inserted in entry order |
| PhasedPages.PhasedTracker.AddConfirmYes | src/pages/CreditNoteTrackingPage.jsx:978-1001 | with conflicts, the first overwrite prompt opens; otherwise every entry becomes a new row |
| PhasedPages.PhasedTracker.NextConflict | src/pages/CreditNoteTrackingPage.jsx:1032-1063 | moves to the next conflict, or after the last one inserts the non-conflicting entries |
| PhasedPages.PhasedTracker.OverwriteYes | src/pages/CreditNoteTrackingPage.jsx:1032-1063 | the matched row is reset and persisted, then the next conflict |
| PhasedPages.PhasedTracker.OverwriteNo | src/pages/CreditNoteTrackingPage.jsx:1065-1081 | the matched row is kept, then the next conflict |
| PhasedPages.PhasedTracker.AddFormClose | src/pages/CreditNoteTrackingPage.jsx:1087-1093 | closing the form closes its prompts |
| PhasedPages.PhasedTracker.AttachmentChoose | src/pages/DeliveryOrderTrackingPage.jsx:1726-1746 | the attachment choice is recorded |
| PhasedPages.PhasedTracker.AttachmentOk | src/pages/DeliveryOrderTrackingPage.jsx:950-975 | with an attachment chosen, the invoice search opens over the given list; otherwise the prompt closes |
| PhasedPages.PhasedTracker.InvoiceQuery | src/pages/DeliveryOrderTrackingPage.jsx:1784-1787 | typing a query drops the explicit pick |
| PhasedPages.PhasedTracker.InvoicePick | src/pages/DeliveryOrderTrackingPage.jsx:1804 | the picked invoice is recorded |
| PhasedPages.PhasedTracker.InvoiceSearchConfirm | src/pages/DeliveryOrderTrackingPage.jsx:990-1028 | without a row or an order the dialog closes; an original invoice is updated in storage and a notice names it; a copy is referred to in the order's remark; with no invoice chosen for either, the dialog stays; with no attachment type it closes and nothing is written |
| InvoicePage.InvoicePersist | src/pages/InvoiceTrackingPage.jsx:142-158 | at most one storage call, only in test mode and when the row exists: an update for a UUID, an insert otherwise |
| InvoicePage.StoredOnlyInTestMode | src/pages/InvoiceTrackingPage.jsx:142-158 | outside test mode nothing is stored, whereas the other pages store every edit |
| InvoicePage.InvoiceTracker.constructor | src/pages/InvoiceTrackingPage.jsx:74-75 | the page starts outside test mode with no dialog and no storage calls |
| InvoicePage.InvoiceTracker.UpdateRow | src/pages/InvoiceTrackingPage.jsx:142-158 | the rows are merged, and outside test mode nothing is stored |
| InvoicePage.InvoiceTracker.Do | src/pages/InvoiceTrackingPage.jsx:142-158 | the write is merged and persisted, and the dialog is set |
| InvoicePage.InvoiceTracker.ToggleTestMode | src/pages/InvoiceTrackingPage.jsx:489 | only test mode flips |
| InvoicePage.InvoiceTracker.DeleteRow | src/pages/InvoiceTrackingPage.jsx:160-169 | in test mode the row is dropped, with a storage delete only for a UUID; otherwise nothing changes |
| InvoicePage.InvoiceTracker.RemarkEdit | src/pages/InvoiceTrackingPage.jsx:691-702 | on a row that `canEditRow` allows, the remark is written; otherwise, and always outside test mode, nothing changes |
| InvoicePage.InvoiceTracker.InvoiceNoEdit | src/pages/InvoiceTrackingPage.jsx:605-614 | on a row that `canEditRow` allows, the invoice number is written; otherwise, and always outside test mode, nothing changes |
| InvoicePage.InvoiceTracker.DeliveryDateChange | src/pages/InvoiceTrackingPage.jsx:171-184 | `handleDateChange`, which no control calls: a parsed date is written with no slot; the slot dialog opens unless the row is held or chop-and-signed; a failing parse changes nothing |
| InvoicePage.InvoiceTracker.InvoiceDateChange | src/pages/InvoiceTrackingPage.jsx:616-628 | the picker exists only when `canEditRow`: there a parsed invoice date is written; a failing parse, a read-only row, or any row outside test mode changes nothing |
| InvoicePage.InvoiceTracker.SlotSelect | src/pages/InvoiceTrackingPage.jsx:192-197 | only the displayed slot is written |
| InvoicePage.InvoiceTracker.Dismiss | src/pages/InvoiceTrackingPage.jsx:396-398 | a close writes nothing |
| InvoicePage.InvoiceTracker.DiscrepancyCheck | src/pages/InvoiceTrackingPage.jsx:706-739 | on an unlocked row, ticking checks the box and opens the form and unticking resets; on a locked Completed row nothing changes |
| InvoicePage.InvoiceTracker.OpenDiscrepancyDetails | src/pages/InvoiceTrackingPage.jsx:754-768 | the form opens, with no title and the saved description, exactly when the link is shown: an unlocked row with a ticked, untitled discrepancy |
| InvoicePage.InvoiceTracker.DiscrepancySave | src/pages/InvoiceTrackingPage.jsx:214-219 | the row ends with a checked discrepancy holding the given details |
| InvoicePage.InvoiceTracker.DiscrepancySubmit | src/components/DiscrepancyModal.jsx:13-17 | as intended: the form's row gets a checked discrepancy with the trimmed details and the form closes; with no row open nothing changes; test mode is kept |
| InvoicePage.InvoiceTracker.DiscrepancyClose | src/pages/InvoiceTrackingPage.jsx:221-224 | closing the form resets the discrepancy |
| InvoicePage.InvoiceTracker.DiscrepancySubmitAsWired | src/pages/InvoiceTrackingPage.jsx:803-815 | as wired: the row is saved, then reset to no discrepancy, with both (test-mode) storage calls in the outbox; with no row open nothing changes; the dialog closes and test mode is kept |
| InvoicePage.InvoiceTracker.StatusChange | src/pages/InvoiceTrackingPage.jsx:650-659 | on a locked Completed row there is no dropdown and nothing changes (the handler itself has no Completed guard); otherwise the dropdown performs `InvoiceWorkflow.InvoiceStatusChange` on the row |
| InvoicePage.InvoiceTracker.SalesmanSelect | src/pages/InvoiceTrackingPage.jsx:278-288 | the salesman is written and the assign-date step opens |
| InvoicePage.InvoiceTracker.SalesmanCancel | src/pages/InvoiceTrackingPage.jsx:290-293 | the previous status is restored and the salesman cleared |
| InvoicePage.InvoiceTracker.ClerkSelect | src/pages/InvoiceTrackingPage.jsx:295-305 | the clerk is written and the assign-date step opens |
| InvoicePage.InvoiceTracker.ClerkCancel | src/pages/InvoiceTrackingPage.jsx:307-310 | the previous status is restored and the clerk cleared |
| InvoicePage.InvoiceTracker.TransferSelect | src/pages/InvoiceTrackingPage.jsx:312-319 | the transfer warehouse and today's date are written |
| InvoicePage.InvoiceTracker.TransferCancel | src/pages/InvoiceTrackingPage.jsx:321-324 | the previous status is restored and the transfer warehouse cleared |
| InvoicePage.InvoiceTracker.HoldWarehouseSelect | src/pages/InvoiceTrackingPage.jsx:326-347 | Keruing commits at once; other warehouses ask for a type |
| InvoicePage.InvoiceTracker.HoldWarehouseCancel | src/pages/InvoiceTrackingPage.jsx:349-352 | the previous status is restored and the driver cleared |
| InvoicePage.InvoiceTracker.HoldTypeSelect | src/pages/InvoiceTrackingPage.jsx:354-365 | the typed hold is written, remark untouched |
| InvoicePage.InvoiceTracker.HoldTypeCancel | src/pages/InvoiceTrackingPage.jsx:367-373 | the previous status is restored and the driver cleared |
| InvoicePage.InvoiceTracker.SameStatusStartOver | src/pages/InvoiceTrackingPage.jsx:375-394 | the start-over step, with no Chop & Sign - Warehouse case |
| InvoicePage.InvoiceTracker.RedeliverYes | src/pages/InvoiceTrackingPage.jsx:400-412 | the redelivery reset is written |
| InvoicePage.InvoiceTracker.CompletedYes | src/pages/InvoiceTrackingPage.jsx:418-424 | Completed is written |
| InvoicePage.InvoiceTracker.AssignDateInput | src/pages/InvoiceTrackingPage.jsx:1030 | the chosen date is stored in the dialog; clearing it means today |
| InvoicePage.InvoiceTracker.AssignDateConfirm | src/pages/InvoiceTrackingPage.jsx:430-441 | the saved date is written with no slot, and after a driver the slot dialog opens; a date that throws changes nothing |
| InvoicePage.InvoiceTracker.AssignToSelect | src/pages/InvoiceTrackingPage.jsx:447-455 | the salesman or the driver dialog opens |
| InvoicePage.InvoiceTracker.AssignToCancel | src/pages/InvoiceTrackingPage.jsx:457-461 | the previous status is restored |
| InvoicePage.InvoiceTracker.DriverSelect | src/pages/InvoiceTrackingPage.jsx:463-473 | the driver is written and the assign-date step opens, with the slot to follow |
| InvoicePage.InvoiceTracker.DriverCancel | src/pages/InvoiceTrackingPage.jsx:475-478 | the previous status is restored and the driver cleared |

## Left out

- Storage adapters: the pages' calls are recorded as `Command`s in an outbox. Their asynchronous results are not modelled: an insert's returned row replacing the local one, a failed call, loading order.
- Initial loading and the fallback rows used when storage is empty are not modelled. The constructors take the loaded rows.
- Display helpers are not modelled: `formatDate`, the row-display helpers, the assignee labels, and the `isInteractive` click filter on rows.
- Editing the add form's fields and its "multiple" and "apply date to all" toggles is not modelled. `AddProceed` takes the lines and the flag as they stand.
- Where a page opens two modals at once (the bulk prompt and the next step), the model opens them one after the other. The next dialog is carried in `BulkApplyPrompt.next`.
- A handler that throws becomes "no change". Examples: a one-slash date, or a row that is missing.
- The clock is a `today` parameter. The ids storage assigns to new rows are an `ids` parameter. The invoice list for the search dialog is an `invoices` parameter.
- `src/components/SelectWarehouseModal.jsx` is not part of this model. It is taken to call `onSelect(rowId, warehouseId)` and `onClose` like its sibling dialogs.
- The invoice page's "delivery in progress" notice is never opened by any handler, so it is not modelled.
- Cancelling the invoice page's assign-date step has no method of its own. It only closes the step, and `InvoicePage.InvoiceTracker.Dismiss` covers it.
- That a status is canonical (`Statuses.Canonical`: `Other` only for strings outside the dropdown) is not part of the `Status` type. `FromName` yields only canonical statuses, but the handlers accept any `Status`. A non-canonical value such as `Other("Billed")` stands for no string the pages can hold.
- Text.ToLower: folds only ASCII, Latin-1, basic Greek and Cyrillic capitals and the Kelvin, Ohm and Angstrom signs; other capitals are left as they are. It also keeps `İ` as one character, where JavaScript gives two code units, and ignores the final-sigma rule. This affects the Keruing test (src/pages/CreditNoteTrackingPage.jsx:552, src/pages/DeliveryOrderTrackingPage.jsx:569, src/pages/InvoiceTrackingPage.jsx:329) and the invoice search (src/pages/DeliveryOrderTrackingPage.jsx:982-988) only for names and numbers written in other scripts.
- Text.PadStart, DateFormat.ExpandYear, DateFormat.ToInputDate: string lengths count characters, while JavaScript counts UTF-16 code units. The two differ only when a date part holds a character outside the Basic Multilingual Plane, which a date field is not meant to hold.
- PhasedPages.PhasedTracker.DeliveryDateChange, PhasedPages.PhasedTracker.DocumentDateChange, InvoicePage.InvoiceTracker.DeliveryDateChange: they model `handleDateChange` (src/pages/CreditNoteTrackingPage.jsx:324, src/pages/DeliveryOrderTrackingPage.jsx:337, src/pages/InvoiceTrackingPage.jsx:171) and `handleCreditNoteDateChange` / `handleDeliveryOrderDateChange` (src/pages/CreditNoteTrackingPage.jsx:339, src/pages/DeliveryOrderTrackingPage.jsx:352). The pages define these handlers but no control calls them, so no user event reaches these methods. They are modelled as the handlers are written.
- Other pages (GRN, settings, employee and warehouse management) and the context providers are not part of this model.

## Findings

| source | as written | input that shows it | evidently intended | confidence | as-written member | corrected member |
|---|---|---|---|---|---|---|
| src/components/DiscrepancyModal.jsx:13-17 | submitting calls `onSave` with the trimmed details, then `onClose`. The pages wire `onClose` to the cancel handler, which still sees the open form's row id and resets the discrepancy to the default | tick the box on any row, type title "Short" and description "2 boxes", press Save: the row ends unchecked with empty title and description | the saved, checked discrepancy stays on the row | not executed | PhasedPages.PhasedTracker.DiscrepancySubmitAsWired | PhasedPages.PhasedTracker.DiscrepancySubmit |
