/**
 * The decisions of the phase-aware status workflow shared by the credit-note
 * and delivery-order pages, as pure functions: what a status-dropdown change
 * writes and which dialog it opens, and the payload each confirmation,
 * selection and cancellation merges into a row.
 */
module Workflow {
  import opened Options
  import opened Text
  import opened Statuses
  import opened Rows
  import opened DateFormat
  import opened Dialogs

  /**
   * What a handler decides: the patch it merges into the acting row (if
   * any), the payload it hands to `afterBulkableCommit` (if it calls it),
   * and the dialog it opens — or, with a bulk payload, the continuation that
   * runs once the bulk question is settled.
   */
  datatype Outcome = Outcome(write: Option<Patch>, bulk: Option<Patch>, dialog: Dialog)

  function Prompt(d: Dialog): Outcome
  {
    Outcome(None, None, d)
  }

  /** A commit whose payload is also offered to the selection. */
  function Bulkable(p: Patch, next: Dialog): Outcome
  {
    Outcome(Some(p), Some(p), next)
  }

  /** The Delivered prerequisites: a driver or salesman, and a delivery date. */
  predicate DeliveredReady(row: Row)
  {
    (Assigned(row.assignedDriverId) || Assigned(row.assignedSalesmanId)) && row.deliveryDate != ""
  }

  /** `isCompletedLocked`: outside test mode a Completed row is shown read-only. */
  predicate IsCompletedLocked(row: Row, testMode: bool)
  {
    row.status == Completed && !testMode
  }

  /**
   * `canEditRow`: the row's text inputs and document-date picker accept
   * input. The Completed clause adds nothing: only test mode decides.
   */
  predicate CanEditRow(row: Row, testMode: bool)
    ensures CanEditRow(row, testMode) <==> testMode
  {
    testMode && !IsCompletedLocked(row, testMode)
  }

  /** The "Add details" link: a ticked discrepancy with no title yet, on a row that is not locked. */
  predicate ShowsAddDetails(row: Row, testMode: bool)
  {
    !IsCompletedLocked(row, testMode) && row.discrepancy.checked && row.discrepancy.title == ""
  }

  /** `remarkAtBilledUpdate`: the remark is remembered when a row leaves Billed for phase 2. */
  function CaptureRemark(row: Row, newStatus: Status): (u: Upd<string>)
    ensures u.Set? ==> u.value == row.remark && Phase(row.status) == 1 && Phase(newStatus) == 2
  {
    if row.status == Billed && Phase(newStatus) == 2 then Set(row.remark) else Keep
  }

  /** The payload of the final branch of `handleStatusChange`. */
  function DefaultPatch(newStatus: Status, capture: Upd<string>): (p: Patch)
    ensures p.status == Set(newStatus) && p.remarkAtBilled == capture
    ensures p.assignedDriverId.Set? <==> IsHoldOrChop(newStatus)
    ensures p.remark.Keep? && p.deliveryDate.Keep? && p.deliverySlot.Keep? && p.holdWarehouseId.Keep?
  {
    EmptyPatch.(
      status := Set(newStatus),
      assignedSalesmanId := Set(None), assignedClerkId := Set(None), transferWarehouseId := Set(None),
      assignedDriverId := if IsHoldOrChop(newStatus) then Set(None) else Keep,
      remarkAtBilled := capture)
  }

  /** The status-specific part of `handleStatusChange`, once every guard has passed. */
  function EntryOutcome(row: Row, newStatus: Status, previousStatus: Status): (o: Outcome)
    ensures o.write.None? <==> newStatus == ChopSignWarehouse
    ensures o.write.Some? ==> o.write.value.status == Set(newStatus)
    ensures o.bulk.Some? ==> o.write == o.bulk && o.dialog == Idle
  {
    var base := EmptyPatch.(status := Set(newStatus), remarkAtBilled := CaptureRemark(row, newStatus));
    if newStatus == DeliveryInProgress then
      Outcome(Some(base.(assignedSalesmanId := Set(None), assignedDriverId := Set(None))), None,
              AssignToPrompt(row.id, previousStatus))
    else if RequiresSalesman(newStatus) then
      Outcome(Some(base.(assignedDriverId := Set(None))), None, SelectSalesman(row.id, previousStatus))
    else if RequiresClerk(newStatus) then
      Outcome(Some(base.(assignedDriverId := Set(None))), None, SelectClerk(row.id, previousStatus))
    else if newStatus == Transfer then
      Outcome(Some(base), None, SelectTransferWarehouse(row.id, previousStatus))
    else if newStatus == HoldWarehouse then
      Outcome(Some(base.(assignedDriverId := Set(None))), None, SelectHoldWarehouse(row.id, previousStatus))
    else if newStatus == ChopSignWarehouse then
      Prompt(ChopSignWarehousePrompt(row.id, previousStatus))
    else
      Bulkable(DefaultPatch(newStatus, CaptureRemark(row, newStatus)), Idle)
  }

  /** `isBulkApply()`: more than one row was selected when the change began. */
  predicate IsBulk(pending: Option<seq<Id>>)
  {
    pending.Some? && |pending.value| > 1
  }

  /**
   * `afterBulkableCommit`: with a bulk selection pending, the bulk prompt
   * opens and holds the continuation, and the pending ids stay until it is
   * answered; otherwise the pending ids are dropped and the continuation
   * runs at once. Yields the dialog and the pending ids afterwards.
   */
  function AfterCommit(pending: Option<seq<Id>>, payload: Patch, next: Dialog): (r: (Dialog, Option<seq<Id>>))
    ensures r.1.Some? <==> IsBulk(pending)
    ensures !IsBulk(pending) ==> r.0 == next
    ensures IsBulk(pending) ==> r.0.BulkApplyPrompt? && r.0.payload == payload && r.0.next == next
  {
    if IsBulk(pending) then (BulkApplyPrompt(pending.value, payload, next), pending) else (next, None)
  }

  /** `row?.deliveryDate || getTodayDateStr()`: the date an assign-date step starts from. */
  function StartDate(row: Option<Row>, today: string): (d: string)
    ensures today != "" ==> d != ""
  {
    if row.Some? && row.value.deliveryDate != "" then row.value.deliveryDate else today
  }

  /** Chop & Sign - Warehouse "yes": the status with no driver, before the driver is chosen. */
  const ChopSignStartPatch: Patch := EmptyPatch.(status := Set(ChopSignWarehouse), assignedDriverId := Set(None))

  /** `handleStatusChange` on the row the event names: the guards in the order the source checks them. */
  function StatusChange(row: Row, newStatus: Status, previousStatus: Status, testMode: bool): (o: Outcome)
    ensures o.bulk.Some? ==> o.write == o.bulk && o.dialog == Idle
  {
    var current := Phase(row.status);
    var target := Phase(newStatus);
    if newStatus == row.status then Prompt(SameStatusPrompt(row.id, newStatus))
    else if current == 5 && target < 5 && !testMode then Prompt(ShowNotice(CompletedLocked))
    else if current == 2 && newStatus == Billed then Prompt(BacktrackToBilledPrompt(row.id))
    else if current == 4 && target < 4 then Prompt(DeliveredBacktrackPrompt(row.id, newStatus, row.status))
    else if (current == 3 || current == 4) && target == 2 then
      if newStatus == PreparingDelivery then Prompt(RedeliverPrompt(row.id))
      else Prompt(ChangeStatusPrompt(row.id, newStatus, row.status))
    else if newStatus == Delivered && !DeliveredReady(row) then Prompt(ShowNotice(DeliveredPrerequisitesMissing))
    else if newStatus == Completed then Prompt(CompletedPrompt(row.id))
    else EntryOutcome(row, newStatus, previousStatus)
  }

  /** Every guard of `handleStatusChange` lets the change through. */
  predicate PassesGuards(row: Row, newStatus: Status, testMode: bool)
    ensures IsCompletedLocked(row, testMode) ==> !PassesGuards(row, newStatus, testMode)
    ensures Phase(row.status) == 4 ==> !PassesGuards(row, newStatus, testMode)
    ensures PassesGuards(row, newStatus, testMode) && newStatus == Delivered ==> DeliveredReady(row)
  {
    var current := Phase(row.status);
    var target := Phase(newStatus);
    && newStatus != row.status
    && !(current == 5 && target < 5 && !testMode)
    && !(current == 2 && newStatus == Billed)
    && !(current == 4 && target < 4)
    && !((current == 3 || current == 4) && target == 2)
    && !(newStatus == Delivered && !DeliveredReady(row))
    && newStatus != Completed
  }

  /**
   * A status change writes to the row only when every guard passes; a
   * guard that stops it only opens a prompt or a notice.
   */
  lemma GuardsWriteNothing(row: Row, newStatus: Status, previousStatus: Status, testMode: bool)
    ensures PassesGuards(row, newStatus, testMode) ==>
              StatusChange(row, newStatus, previousStatus, testMode) == EntryOutcome(row, newStatus, previousStatus)
    ensures !PassesGuards(row, newStatus, testMode) ==>
              StatusChange(row, newStatus, previousStatus, testMode).write.None?
              && StatusChange(row, newStatus, previousStatus, testMode).bulk.None?
  {
  }

  /** Requesting the current status writes nothing and only opens the same-status prompt. */
  lemma SameStatusOnlyPrompts(row: Row, previousStatus: Status, testMode: bool)
    ensures StatusChange(row, row.status, previousStatus, testMode) == Prompt(SameStatusPrompt(row.id, row.status))
  {
  }

  /** Outside test mode a Completed row cannot go back to any earlier phase. */
  lemma CompletedIsLocked(row: Row, newStatus: Status, previousStatus: Status)
    requires row.status == Completed && Phase(newStatus) < 5
    ensures StatusChange(row, newStatus, previousStatus, false) == Prompt(ShowNotice(CompletedLocked))
  {
  }

  /**
   * Delivered is written exactly when the row is not already Delivered, is
   * not a locked Completed row, and has a driver or salesman and a date.
   */
  lemma DeliveredGate(row: Row, previousStatus: Status, testMode: bool)
    ensures StatusChange(row, Delivered, previousStatus, testMode).write.Some? <==>
              row.status != Delivered && (row.status != Completed || testMode) && DeliveredReady(row)
  {
    PhaseTable(row.status);
  }

  /** From Delivered every phase 1–3 target goes to the Delivered backtrack prompt. */
  lemma DeliveredBacktracks(row: Row, newStatus: Status, previousStatus: Status, testMode: bool)
    requires row.status == Delivered && Phase(newStatus) < 4
    ensures StatusChange(row, newStatus, previousStatus, testMode) ==
            Prompt(DeliveredBacktrackPrompt(row.id, newStatus, Delivered))
  {
  }

  /**
   * The redeliver and change-status prompts are reached only from Delivery
   * In Progress towards phase 2, and from there always.
   */
  lemma RedeliverOnlyFromInProgress(row: Row, newStatus: Status, previousStatus: Status, testMode: bool)
    ensures var d := StatusChange(row, newStatus, previousStatus, testMode).dialog;
            (d.RedeliverPrompt? || d.ChangeStatusPrompt?) ==> row.status == DeliveryInProgress && Phase(newStatus) == 2
    ensures row.status == DeliveryInProgress && Phase(newStatus) == 2 ==>
              StatusChange(row, newStatus, previousStatus, testMode).dialog ==
              if newStatus == PreparingDelivery then RedeliverPrompt(row.id)
              else ChangeStatusPrompt(row.id, newStatus, DeliveryInProgress)
  {
    GuardsWriteNothing(row, newStatus, previousStatus, testMode);
    var d := StatusChange(row, newStatus, previousStatus, testMode).dialog;
    if d.RedeliverPrompt? || d.ChangeStatusPrompt? {
      assert Phase(row.status) == 3 && Phase(newStatus) == 2;
      PhaseTable(row.status);
    }
    if row.status == DeliveryInProgress && Phase(newStatus) == 2 {
      assert Phase(row.status) == 3;
    }
  }

  /**
   * `remarkAtBilled` is written exactly when a Billed row moves to a phase-2
   * status other than Chop & Sign - Warehouse (whose entry writes nothing),
   * and what is written is the row's remark.
   */
  lemma RemarkCapturedIff(row: Row, newStatus: Status, previousStatus: Status, testMode: bool)
    ensures var o := StatusChange(row, newStatus, previousStatus, testMode);
            (o.write.Some? && o.write.value.remarkAtBilled.Set?) <==>
              row.status == Billed && Phase(newStatus) == 2 && newStatus != ChopSignWarehouse
    ensures var o := StatusChange(row, newStatus, previousStatus, testMode);
            o.write.Some? && o.write.value.remarkAtBilled.Set? ==> o.write.value.remarkAtBilled.value == row.remark
  {
    GuardsWriteNothing(row, newStatus, previousStatus, testMode);
    if row.status == Billed && Phase(newStatus) == 2 {
      assert Phase(row.status) == 1;
      assert PassesGuards(row, newStatus, testMode);
    }
    if PassesGuards(row, newStatus, testMode) {
      EntryCaptures(row, newStatus, previousStatus);
    }
  }

  /** Once the guards have passed, the remark is captured by every entry that writes, and only there. */
  lemma EntryCaptures(row: Row, newStatus: Status, previousStatus: Status)
    ensures var o := EntryOutcome(row, newStatus, previousStatus);
            (o.write.Some? && o.write.value.remarkAtBilled.Set?) <==>
              CaptureRemark(row, newStatus).Set? && newStatus != ChopSignWarehouse
    ensures var o := EntryOutcome(row, newStatus, previousStatus);
            o.write.Some? && o.write.value.remarkAtBilled.Set? ==> o.write.value.remarkAtBilled.value == row.remark
  {
  }

  /**
   * The final branch clears salesman, clerk and transfer warehouse, clears
   * the driver exactly for hold and chop-and-sign targets, may capture the
   * remark, and leaves every other field as it was.
   */
  lemma DefaultBranchExact(row: Row, newStatus: Status, previousStatus: Status, testMode: bool)
    requires StatusChange(row, newStatus, previousStatus, testMode).bulk.Some?
    ensures Apply(row, StatusChange(row, newStatus, previousStatus, testMode).write.value) ==
            row.(status := newStatus,
                 assignedSalesmanId := None, assignedClerkId := None, transferWarehouseId := None,
                 assignedDriverId := if IsHoldOrChop(newStatus) then None else row.assignedDriverId,
                 remarkAtBilled := if row.status == Billed && Phase(newStatus) == 2 then row.remark else row.remarkAtBilled)
    ensures PassesGuards(row, newStatus, testMode)
    ensures newStatus !in {DeliveryInProgress, HoldSalesman, ChopSignSalesman, HoldOffice, ChopSignOffice,
                           Transfer, HoldWarehouse, ChopSignWarehouse}
  {
    GuardsWriteNothing(row, newStatus, previousStatus, testMode);
  }

  /**
   * The entries that open a selection dialog: each writes the new status,
   * clears the fields the table lists, may capture the remark, and keeps
   * everything else — in particular a salesman entry keeps the clerk and a
   * clerk entry keeps the salesman.
   */
  lemma EntryTable(row: Row, newStatus: Status, previousStatus: Status, testMode: bool)
    requires PassesGuards(row, newStatus, testMode)
    ensures var o := StatusChange(row, newStatus, previousStatus, testMode);
            var r := row.(status := newStatus, remarkAtBilled := Merge(CaptureRemark(row, newStatus), row.remarkAtBilled));
            && (newStatus == DeliveryInProgress ==>
                  o.write.Some? && Apply(row, o.write.value) == r.(assignedSalesmanId := None, assignedDriverId := None)
                  && o.dialog == AssignToPrompt(row.id, previousStatus))
            && (RequiresSalesman(newStatus) ==>
                  o.write.Some? && Apply(row, o.write.value) == r.(assignedDriverId := None)
                  && o.dialog == SelectSalesman(row.id, previousStatus))
            && (RequiresClerk(newStatus) ==>
                  o.write.Some? && Apply(row, o.write.value) == r.(assignedDriverId := None)
                  && o.dialog == SelectClerk(row.id, previousStatus))
            && (newStatus == Transfer ==>
                  o.write.Some? && Apply(row, o.write.value) == r && o.dialog == SelectTransferWarehouse(row.id, previousStatus))
            && (newStatus == HoldWarehouse ==>
                  o.write.Some? && Apply(row, o.write.value) == r.(assignedDriverId := None)
                  && o.dialog == SelectHoldWarehouse(row.id, previousStatus))
            && (newStatus == ChopSignWarehouse ==>
                  o == Prompt(ChopSignWarehousePrompt(row.id, previousStatus)))
  {
    GuardsWriteNothing(row, newStatus, previousStatus, testMode);
  }

  /** `{ ...row, ...updates }` applied for a sequence of updates, in order. */
  function ApplyAll(row: Row, edits: seq<Patch>): (r: Row)
    ensures r.id == row.id
    decreases |edits|
  {
    if edits == [] then row else ApplyAll(Apply(row, edits[0]), edits[1..])
  }

  lemma {:induction false} ApplyAllKeepsRemarkAtBilled(row: Row, edits: seq<Patch>)
    requires forall p :: p in edits ==> p.remarkAtBilled.Keep?
    ensures ApplyAll(row, edits).remarkAtBilled == row.remarkAtBilled
    decreases |edits|
  {
    if edits != [] {
      assert forall p :: p in edits[1..] ==> p in edits;
      ApplyAllKeepsRemarkAtBilled(Apply(row, edits[0]), edits[1..]);
    }
  }

  /** The confirmed backtrack to Billed (`handleBacktrackPhase2To1Yes`). */
  function BacktrackToBilledPatch(remarkAtBilled: string): (p: Patch)
    ensures p.status == Set(Billed) && p.remark == Set(remarkAtBilled)
    ensures p.docNo.Keep? && p.docDate.Keep? && p.discrepancy.Keep? && p.remarkAtBilled.Keep?
  {
    EmptyPatch.(
      status := Set(Billed),
      assignedDriverId := Set(None), assignedSalesmanId := Set(None), assignedClerkId := Set(None),
      transferWarehouseId := Set(None), holdWarehouseId := Set(None), holdWarehouseType := Set(Some("")),
      deliveryDate := Set(""), deliverySlot := Set(""),
      remark := Set(remarkAtBilled))
  }

  /**
   * A backtrack to Billed clears every assignment, warehouse, date and slot
   * field, puts the remembered remark back and keeps number, date and
   * discrepancy.
   */
  lemma BacktrackToBilledResets(row: Row)
    ensures Apply(row, BacktrackToBilledPatch(row.remarkAtBilled)) ==
            row.(status := Billed,
                 assignedDriverId := None, assignedSalesmanId := None, assignedClerkId := None,
                 transferWarehouseId := None, holdWarehouseId := None, holdWarehouseType := Some(""),
                 deliveryDate := "", deliverySlot := "", remark := row.remarkAtBilled)
  {
  }

  /**
   * Round trip of the remark: a Billed row with remark R that moves to
   * phase 2, is then edited by any updates that leave `remarkAtBilled`
   * alone (remark suffixes included), and is backtracked to Billed, has
   * remark R again.
   */
  lemma {:induction false} RemarkRoundTrip(row: Row, newStatus: Status, previousStatus: Status, testMode: bool, edits: seq<Patch>)
    requires row.status == Billed && Phase(newStatus) == 2 && newStatus != ChopSignWarehouse
    requires forall p :: p in edits ==> p.remarkAtBilled.Keep?
    ensures StatusChange(row, newStatus, previousStatus, testMode).write.Some?
    ensures var moved := Apply(row, StatusChange(row, newStatus, previousStatus, testMode).write.value);
            var edited := ApplyAll(moved, edits);
            Apply(edited, BacktrackToBilledPatch(edited.remarkAtBilled)).remark == row.remark
  {
    RemarkCapturedIff(row, newStatus, previousStatus, testMode);
    var moved := Apply(row, StatusChange(row, newStatus, previousStatus, testMode).write.value);
    assert moved.remarkAtBilled == row.remark;
    ApplyAllKeepsRemarkAtBilled(moved, edits);
  }

  /** `handleRearrangeDeliveryYes` */
  const RedeliverPatch: Patch :=
    EmptyPatch.(status := Set(PreparingDelivery), assignedDriverId := Set(None), assignedSalesmanId := Set(None),
                deliveryDate := Set(""), deliverySlot := Set(""))

  /** Redelivery clears driver, salesman, date and slot, and keeps the clerk and both warehouses. */
  lemma RedeliverClears(row: Row)
    ensures Apply(row, RedeliverPatch) ==
            row.(status := PreparingDelivery, assignedDriverId := None, assignedSalesmanId := None,
                 deliveryDate := "", deliverySlot := "")
  {
  }

  /** The reset of a confirmed change from phase 3 or 4 to another phase-2 status. */
  function ReentryPatch(newStatus: Status): (p: Patch)
    ensures p.status == Set(newStatus)
    ensures p.remark.Keep? && p.remarkAtBilled.Keep? && p.docNo.Keep? && p.docDate.Keep? && p.discrepancy.Keep?
  {
    EmptyPatch.(
      status := Set(newStatus),
      assignedDriverId := Set(None), assignedSalesmanId := Set(None), assignedClerkId := Set(None),
      deliveryDate := Set(""), deliverySlot := Set(""),
      transferWarehouseId := Set(None), holdWarehouseId := Set(None), holdWarehouseType := Set(Some("")))
  }

  /** The reset of a confirmed Delivered backtrack: the re-entry reset plus the remembered remark. */
  function DeliveredBacktrackPatch(newStatus: Status, remarkAtBilled: string): (p: Patch)
    ensures newStatus == Billed ==> p == BacktrackToBilledPatch(remarkAtBilled)
    ensures p.status == Set(newStatus) && p.remark == Set(remarkAtBilled) && p.remarkAtBilled.Keep?
  {
    ReentryPatch(newStatus).(remark := Set(remarkAtBilled))
  }

  /** A confirmed change of phase-2 status clears every assignment, date, slot and warehouse field and keeps the remark. */
  lemma ReentryClearsKeepsRemark(row: Row, newStatus: Status)
    ensures Apply(row, ReentryPatch(newStatus)) ==
            row.(status := newStatus,
                 assignedDriverId := None, assignedSalesmanId := None, assignedClerkId := None,
                 deliveryDate := "", deliverySlot := "",
                 transferWarehouseId := None, holdWarehouseId := None, holdWarehouseType := Some(""))
  {
  }

  /** A confirmed Delivered backtrack clears the same fields and restores the remembered remark. */
  lemma DeliveredBacktrackRestoresRemark(row: Row, newStatus: Status)
    ensures Apply(row, DeliveredBacktrackPatch(newStatus, row.remarkAtBilled)) ==
            Apply(row, ReentryPatch(newStatus)).(remark := row.remarkAtBilled)
  {
  }

  /**
   * The dialog that resumes after a confirmed change to phase 2 or a
   * Delivered backtrack. After a Delivered backtrack to Delivery In Progress
   * the assign-to dialog opens with an empty previous status.
   */
  function ReentryDialog(rowId: Id, newStatus: Status, previousStatus: Status, fromDelivered: bool): (d: Dialog)
    ensures newStatus == DeliveryInProgress ==>
              d == if fromDelivered then AssignToPrompt(rowId, FromName("")) else Idle
    ensures RequiresSalesman(newStatus) ==> d == SelectSalesman(rowId, previousStatus)
    ensures RequiresClerk(newStatus) ==> d == SelectClerk(rowId, previousStatus)
    ensures newStatus == Transfer ==> d == SelectTransferWarehouse(rowId, previousStatus)
    ensures newStatus == HoldWarehouse ==> d == SelectHoldWarehouse(rowId, previousStatus)
    ensures newStatus == ChopSignWarehouse ==> d == ChopSignWarehousePrompt(rowId, previousStatus)
    ensures newStatus in {Billed, PreparingDelivery, Delivered, Completed} || newStatus.Other? ==> d == Idle
  {
    if newStatus == DeliveryInProgress && fromDelivered then AssignToPrompt(rowId, FromName(""))
    else if RequiresSalesman(newStatus) then SelectSalesman(rowId, previousStatus)
    else if RequiresClerk(newStatus) then SelectClerk(rowId, previousStatus)
    else if newStatus == Transfer then SelectTransferWarehouse(rowId, previousStatus)
    else if newStatus == HoldWarehouse then SelectHoldWarehouse(rowId, previousStatus)
    else if newStatus == ChopSignWarehouse then ChopSignWarehousePrompt(rowId, previousStatus)
    else Idle
  }

  /** `{ status: 'Completed' }` */
  const CompletedPatch: Patch := EmptyPatch.(status := Set(Completed))

  /** Confirming Completed writes the status and nothing else. */
  lemma CompletedWritesOnlyStatus(row: Row)
    ensures Apply(row, CompletedPatch) == row.(status := Completed)
    ensures Phase(Apply(row, CompletedPatch).status) == 5
  {
  }

  /** Cancelling the assign-to prompt: only the status goes back. */
  function AssignToCancelPatch(previousStatus: Status): Patch
  {
    EmptyPatch.(status := Set(previousStatus))
  }

  /** Cancelling the salesman dialog. */
  function SalesmanCancelPatch(previousStatus: Status): Patch
  {
    EmptyPatch.(status := Set(previousStatus), assignedSalesmanId := Set(None))
  }

  /** Cancelling the clerk dialog. */
  function ClerkCancelPatch(previousStatus: Status): Patch
  {
    EmptyPatch.(status := Set(previousStatus), assignedClerkId := Set(None))
  }

  /** Cancelling the transfer-warehouse dialog. */
  function TransferCancelPatch(previousStatus: Status): Patch
  {
    EmptyPatch.(status := Set(previousStatus), transferWarehouseId := Set(None))
  }

  /** Cancelling the driver, hold-warehouse or hold-type dialog. */
  function DriverCancelPatch(previousStatus: Status): Patch
  {
    EmptyPatch.(status := Set(previousStatus), assignedDriverId := Set(None))
  }

  /** Each cancellation puts the previous status back and clears only its own dialog's field. */
  lemma CancelRevertsStatus(row: Row, previousStatus: Status)
    ensures Apply(row, AssignToCancelPatch(previousStatus)) == row.(status := previousStatus)
    ensures Apply(row, SalesmanCancelPatch(previousStatus)) == row.(status := previousStatus, assignedSalesmanId := None)
    ensures Apply(row, ClerkCancelPatch(previousStatus)) == row.(status := previousStatus, assignedClerkId := None)
    ensures Apply(row, TransferCancelPatch(previousStatus)) == row.(status := previousStatus, transferWarehouseId := None)
    ensures Apply(row, DriverCancelPatch(previousStatus)) == row.(status := previousStatus, assignedDriverId := None)
  {
  }

  /**
   * After a Delivered backtrack to Delivery In Progress, cancelling the
   * assign-to dialog writes the empty status, which is none of the offered
   * statuses and counts as phase 1.
   */
  lemma EmptyStatusReachable(row: Row, rowId: Id)
    ensures ReentryDialog(rowId, DeliveryInProgress, Delivered, true) == AssignToPrompt(rowId, FromName(""))
    ensures var r := Apply(row, AssignToCancelPatch(FromName("")));
            Name(r.status) == "" && r.status.Other? && Phase(r.status) == 1
  {
  }

  /** `row?.remark?.trim() || ''` followed by ` / suffix`, or the suffix alone. */
  function AppendRemark(remark: string, suffix: string): (r: string)
    ensures |r| >= |suffix| && r[|r| - |suffix|..] == suffix
  {
    var current := Trim(remark);
    if current != "" then current + " / " + suffix else suffix
  }

  /** The trimmed old remark survives as a prefix and the suffix ends the new remark. */
  lemma AppendRemarkKeepsOld(remark: string, suffix: string)
    ensures HasPrefix(AppendRemark(remark, suffix), Trim(remark))
    ensures |AppendRemark(remark, suffix)| >= |suffix|
    ensures AppendRemark(remark, suffix)[|AppendRemark(remark, suffix)| - |suffix|..] == suffix
    ensures Trim(remark) == "" <==> AppendRemark(remark, suffix) == suffix
  {
    var r := AppendRemark(remark, suffix);
    if Trim(remark) != "" {
      assert r[..|Trim(remark)|] == Trim(remark);
      assert |r| > |suffix|;
    }
  }

  /** The remark of the row as the handler's snapshot shows it, `''` for a missing row. */
  function RemarkOf(row: Option<Row>): string
  {
    if row.Some? then row.value.remark else ""
  }

  /** `handleHoldWarehouseTypeSelect` on the phase-aware pages. */
  function HoldTypePatch(warehouseId: Id, holdType: string, today: string, remark: string): (p: Patch)
    ensures p.status == Set(HoldWarehouse) && p.holdWarehouseType == Set(Some(holdType))
    ensures p.assignedSalesmanId.Keep? && p.assignedClerkId.Keep? && p.transferWarehouseId.Keep? && p.discrepancy.Keep?
  {
    EmptyPatch.(
      status := Set(HoldWarehouse), holdWarehouseId := Set(Some(warehouseId)), holdWarehouseType := Set(Some(holdType)),
      assignedDriverId := Set(None), deliveryDate := Set(today), deliverySlot := Set(""),
      remark := Set(AppendRemark(remark, holdType)))
  }

  /** The immediate commit for a Keruing hold warehouse. */
  function KeruingPatch(warehouseId: Id, today: string): (p: Patch)
    ensures p == HoldTypePatch(warehouseId, "", today, "").(holdWarehouseType := Set(None), remark := Keep)
  {
    EmptyPatch.(
      status := Set(HoldWarehouse), holdWarehouseId := Set(Some(warehouseId)), holdWarehouseType := Set(None),
      assignedDriverId := Set(None), deliveryDate := Set(today), deliverySlot := Set(""))
  }

  /** `warehouse?.name?.toLowerCase() === 'keruing'` */
  predicate IsKeruing(w: Option<Warehouse>)
    ensures IsKeruing(w) ==> w.Some? && w.value.name.Some? && |w.value.name.value| == 7
  {
    w.Some? && w.value.name.Some? && ToLower(w.value.name.value) == "keruing"
  }

  /** The name the hold-type dialog shows, `''` when there is none. */
  function WarehouseName(w: Option<Warehouse>): string
  {
    if w.Some? && w.value.name.Some? then w.value.name.value else ""
  }

  /** `handleHoldWarehouseSelect`: Keruing commits at once, any other warehouse asks for a type. */
  function HoldWarehouseChoice(ws: seq<Warehouse>, rowId: Id, warehouseId: Id, previousStatus: Status, today: string): (o: Outcome)
    ensures o.bulk == o.write
    ensures o.write.Some? <==> IsKeruing(FindWarehouse(ws, warehouseId))
    ensures o.write.None? ==>
              o.dialog == SelectHoldType(rowId, warehouseId, WarehouseName(FindWarehouse(ws, warehouseId)), previousStatus)
  {
    var w := FindWarehouse(ws, warehouseId);
    if IsKeruing(w) then Bulkable(KeruingPatch(warehouseId, today), Idle)
    else Prompt(SelectHoldType(rowId, warehouseId, WarehouseName(w), previousStatus))
  }

  /**
   * A Keruing warehouse, in any letter case, commits Hold - Warehouse with
   * no type, no driver, today's date and an empty slot and opens no type
   * dialog; any other warehouse writes nothing and opens the type dialog.
   */
  lemma KeruingCommitsAtOnce(ws: seq<Warehouse>, row: Row, warehouseId: Id, previousStatus: Status, today: string)
    ensures var o := HoldWarehouseChoice(ws, row.id, warehouseId, previousStatus, today);
            IsKeruing(FindWarehouse(ws, warehouseId)) ==>
              o.write.Some? && o.bulk == o.write && o.dialog == Idle
              && Apply(row, o.write.value) ==
                 row.(status := HoldWarehouse, holdWarehouseId := Some(warehouseId), holdWarehouseType := None,
                      assignedDriverId := None, deliveryDate := today, deliverySlot := "")
    ensures var o := HoldWarehouseChoice(ws, row.id, warehouseId, previousStatus, today);
            !IsKeruing(FindWarehouse(ws, warehouseId)) ==> o.write.None? && o.dialog.SelectHoldType?
  {
  }

  lemma KeruingIgnoresCase(id: Id, name: string)
    ensures IsKeruing(Some(Warehouse(id, Some(name)))) <==> IsKeruing(Some(Warehouse(id, Some(ToLower(name)))))
  {
    ToLowerIdempotent(name);
  }

  /** A typed hold commits the type and appends it to the trimmed remark. */
  lemma HoldTypeAppendsType(row: Row, warehouseId: Id, holdType: string, today: string)
    ensures var r := Apply(row, HoldTypePatch(warehouseId, holdType, today, row.remark));
            && r.status == HoldWarehouse && r.holdWarehouseId == Some(warehouseId)
            && r.holdWarehouseType == Some(holdType) && r.assignedDriverId.None?
            && r.deliveryDate == today && r.deliverySlot == ""
            && HasPrefix(r.remark, Trim(row.remark))
            && r.remark[|r.remark| - |holdType|..] == holdType
            && r.remarkAtBilled == row.remarkAtBilled
  {
    AppendRemarkKeepsOld(row.remark, holdType);
  }

  /** `handleWarehouseSelect` */
  function TransferPatch(warehouseId: Id, today: string): (p: Patch)
    ensures p.transferWarehouseId == Set(Some(warehouseId)) && p.deliveryDate == Set(today) && p.deliverySlot == Set("")
    ensures p.status.Keep? && p.assignedDriverId.Keep? && p.remark.Keep?
  {
    EmptyPatch.(transferWarehouseId := Set(Some(warehouseId)), deliveryDate := Set(today), deliverySlot := Set(""))
  }

  /** Chop & Sign "yes", confirmed with a date: out for delivery, remark tagged. */
  function ChopSignYesPatch(date: string, remark: string): (p: Patch)
    ensures p.status == Set(DeliveryInProgress) && Phase(DeliveryInProgress) == 3
    ensures p.assignedDriverId.Keep? && p.holdWarehouseId.Keep? && p.deliverySlot == Set("")
  {
    EmptyPatch.(status := Set(DeliveryInProgress), deliveryDate := Set(date), deliverySlot := Set(""),
                remark := Set(AppendRemark(remark, "Chop & Sign")))
  }

  /** Chop & Sign "no", confirmed with a date: held at the chosen warehouse, remark tagged. */
  function ChopSignNoPatch(warehouseId: Id, date: string, remark: string): (p: Patch)
    ensures p == HoldTypePatch(warehouseId, "", date, remark).(remark := Set(AppendRemark(remark, "Chop & Sign")))
  {
    EmptyPatch.(status := Set(HoldWarehouse), holdWarehouseId := Set(Some(warehouseId)), holdWarehouseType := Set(Some("")),
                assignedDriverId := Set(None), deliveryDate := Set(date), deliverySlot := Set(""),
                remark := Set(AppendRemark(remark, "Chop & Sign")))
  }

  /** Both Chop & Sign commits save the date with an empty slot, so no slot step follows. */
  lemma ChopSignCommits(row: Row, warehouseId: Id, date: string)
    ensures var r := Apply(row, ChopSignYesPatch(date, row.remark));
            r == row.(status := DeliveryInProgress, deliveryDate := date, deliverySlot := "",
                      remark := AppendRemark(row.remark, "Chop & Sign"))
    ensures var r := Apply(row, ChopSignNoPatch(warehouseId, date, row.remark));
            r == row.(status := HoldWarehouse, holdWarehouseId := Some(warehouseId), holdWarehouseType := Some(""),
                      assignedDriverId := None, deliveryDate := date, deliverySlot := "",
                      remark := AppendRemark(row.remark, "Chop & Sign"))
  {
  }

  /** `{ deliveryDate, deliverySlot: '' }` */
  function DatePatch(date: string): (p: Patch)
    ensures p.deliveryDate == Set(date) && p.deliverySlot == Set("")
    ensures p.(deliveryDate := Keep, deliverySlot := Keep) == EmptyPatch
  {
    EmptyPatch.(deliveryDate := Set(date), deliverySlot := Set(""))
  }

  /**
   * The date the assign-date step saves: `parseDate(selected || today) || today`.
   * `None` is the parse error on a one-slash string, which aborts the handler.
   */
  function SavedDate(selected: string, today: string): (r: Option<string>)
    ensures today != "" && r.Some? ==> r.value != ""
    ensures r.None? ==> '/' in selected || (selected == "" && '/' in today)
  {
    var dateStr := if selected != "" then selected else today;
    match ParseDate(dateStr)
    case None => None
    case Some(p) => Some(if p != "" then p else today)
  }

  /**
   * The saved date is never empty; an ISO selection is saved as it is, and a
   * `d/m/y` selection is saved as `yyyy-mm-dd`.
   */
  lemma SavedDateProperties(selected: string, today: string)
    requires today != ""
    ensures SavedDate(selected, today).Some? ==> SavedDate(selected, today).value != ""
    ensures selected != "" && '/' !in selected ==> SavedDate(selected, today) == Some(selected)
    ensures selected == "" && '/' !in today ==> SavedDate(selected, today) == Some(today)
  {
  }

  lemma {:induction false} SavedDateOfDayMonthYear(d: string, m: string, y: string, today: string)
    requires Avoids(d, Slash) && Avoids(m, Slash) && Avoids(y, Slash)
    ensures SavedDate(d + "/" + m + "/" + y, today) == Some(DmyToIso(d, m, y))
  {
    ParseDayMonthYear(d, m, y);
    assert (d + "/" + m + "/" + y)[|d|] == '/';
  }

  /** The lead row's fields a date commit broadcasts (`leadRow` in `handleAssignDateConfirm`). */
  function LeadRowPatch(lead: Option<Row>, date: string): (p: Patch)
    ensures lead.Some? ==> Apply(lead.value, p) == lead.value.(deliveryDate := date, deliverySlot := "")
    ensures p.deliveryDate == Set(date) && p.deliverySlot == Set("")
  {
    match lead
    case None => DatePatch(date)
    case Some(r) =>
      DatePatch(date).(status := Set(r.status), assignedSalesmanId := Set(r.assignedSalesmanId),
                       assignedDriverId := Set(r.assignedDriverId))
  }

  /** `slot === 'Afternoon' ? 'Noon' : slot` */
  function DisplaySlot(slot: string): (d: string)
    ensures d != "Afternoon"
    ensures slot != "Afternoon" ==> d == slot
  {
    if slot == "Afternoon" then "Noon" else slot
  }

  /** The payload of `handleDeliverySlotSelect`, built from the row as the event found it. */
  function SlotPatch(row: Option<Row>, slot: string): (p: Patch)
    ensures p.deliverySlot == Set(DisplaySlot(slot))
    ensures row.Some? ==> Apply(row.value, p) == row.value.(deliverySlot := DisplaySlot(slot))
  {
    match row
    case None => EmptyPatch.(deliverySlot := Set(DisplaySlot(slot)), deliveryDate := Set(""))
    case Some(r) =>
      EmptyPatch.(status := Set(r.status), assignedSalesmanId := Set(r.assignedSalesmanId),
                  assignedDriverId := Set(r.assignedDriverId), deliveryDate := Set(r.deliveryDate),
                  deliverySlot := Set(DisplaySlot(slot)))
  }

  /**
   * On the lead row a slot commit only sets the slot; a row that receives
   * it in bulk takes the lead row's status, salesman, driver, date and slot.
   */
  lemma SlotCopiesLead(lead: Row, other: Row, slot: string)
    ensures Apply(lead, SlotPatch(Some(lead), slot)) == lead.(deliverySlot := DisplaySlot(slot))
    ensures var r := Apply(other, SlotPatch(Some(lead), slot));
            r.status == lead.status && r.assignedSalesmanId == lead.assignedSalesmanId
            && r.assignedDriverId == lead.assignedDriverId && r.deliveryDate == lead.deliveryDate
            && r.deliverySlot == DisplaySlot(slot)
            && r.assignedClerkId == other.assignedClerkId && r.remark == other.remark
  {
  }

  /**
   * A date commit offered to the selection gives every other row the lead
   * row's status, salesman and driver with the saved date and an empty
   * slot; the other row's clerk, warehouses, remark and document keep.
   */
  lemma LeadRowBroadcast(lead: Row, other: Row, date: string)
    ensures var r := Apply(other, LeadRowPatch(Some(lead), date));
            r.status == lead.status && r.assignedSalesmanId == lead.assignedSalesmanId
            && r.assignedDriverId == lead.assignedDriverId
            && r.deliveryDate == date && r.deliverySlot == ""
            && r.assignedClerkId == other.assignedClerkId && r.remark == other.remark
            && r.transferWarehouseId == other.transferWarehouseId && r.holdWarehouseId == other.holdWarehouseId
            && r.docNo == other.docNo && r.docDate == other.docDate && r.discrepancy == other.discrepancy
  {
  }

  /** `handleSameStatusStartOver`; `chopSign` is false on the invoice page, which has no Chop & Sign - Warehouse case. */
  function StartOver(rowId: Id, status: Status, chopSign: bool): (o: Outcome)
    ensures o.bulk.None?
    ensures o.write.Some? ==> o.write.value.status.Keep? && o.write.value.remarkAtBilled.Keep?
    ensures o.write.Some? ==>
              o.dialog in {SelectSalesman(rowId, status), SelectClerk(rowId, status), SelectTransferWarehouse(rowId, status),
                           SelectHoldWarehouse(rowId, status), AssignToPrompt(rowId, status)}
    ensures o.write.None? ==> o.dialog == Idle || o.dialog == ChopSignWarehousePrompt(rowId, status)
  {
    if RequiresSalesman(status) then
      Outcome(Some(EmptyPatch.(assignedSalesmanId := Set(None))), None, SelectSalesman(rowId, status))
    else if RequiresClerk(status) then
      Outcome(Some(EmptyPatch.(assignedClerkId := Set(None))), None, SelectClerk(rowId, status))
    else if status == Transfer then
      Outcome(Some(EmptyPatch.(transferWarehouseId := Set(None))), None, SelectTransferWarehouse(rowId, status))
    else if status == HoldWarehouse then
      Outcome(Some(EmptyPatch.(holdWarehouseId := Set(None), holdWarehouseType := Set(None))), None,
              SelectHoldWarehouse(rowId, status))
    else if status == ChopSignWarehouse && chopSign then
      Prompt(ChopSignWarehousePrompt(rowId, status))
    else if status == DeliveryInProgress then
      Outcome(Some(EmptyPatch.(assignedSalesmanId := Set(None), assignedDriverId := Set(None))), None,
              AssignToPrompt(rowId, status))
    else Prompt(Idle)
  }

  /**
   * Starting over keeps the status: it clears the current status's own
   * assignment and reopens its selection step, whose cancel goes back to
   * that same status.
   */
  lemma StartOverKeepsStatus(row: Row, chopSign: bool)
    ensures var o := StartOver(row.id, row.status, chopSign);
            o.write.Some? ==> Apply(row, o.write.value).status == row.status
    ensures var o := StartOver(row.id, row.status, chopSign);
            o.dialog.SelectSalesman? || o.dialog.SelectClerk? || o.dialog.SelectTransferWarehouse?
            || o.dialog.SelectHoldWarehouse? || o.dialog.AssignToPrompt? || o.dialog.ChopSignWarehousePrompt?
            ==> o.dialog.previousStatus == row.status
    ensures StartOver(row.id, row.status, chopSign).bulk.None?
  {
  }

  /** `{ discrepancy: { ...row.discrepancy, checked: true } }` */
  function DiscrepancyCheckPatch(current: Discrepancy): Patch
  {
    EmptyPatch.(discrepancy := Set(current.(checked := true)))
  }

  /** `handleDiscrepancySave` */
  function DiscrepancySavePatch(title: string, description: string): Patch
  {
    EmptyPatch.(discrepancy := Set(Discrepancy(true, title, description)))
  }

  /** `handleDiscrepancyCancel` and unticking the box: back to `defaultDiscrepancy()`. */
  const DiscrepancyResetPatch: Patch := EmptyPatch.(discrepancy := Set(NoDiscrepancy))

  /**
   * As the pages are wired, submitting the discrepancy form saves the
   * details and then runs the close callback, which still sees the open
   * dialog's row id and resets the discrepancy: whatever was typed, the row
   * ends with the default discrepancy.
   */
  lemma DiscrepancySubmitAsWritten(row: Row, title: string, description: string)
    ensures Apply(Apply(row, DiscrepancySavePatch(Trim(title), Trim(description))), DiscrepancyResetPatch).discrepancy
            == NoDiscrepancy
    ensures Trim(title) != "" ==>
              Apply(Apply(row, DiscrepancySavePatch(Trim(title), Trim(description))), DiscrepancyResetPatch).discrepancy
              != Discrepancy(true, Trim(title), Trim(description))
  {
  }

  /** Saving alone keeps the checked discrepancy with the trimmed details, and touches no other field. */
  lemma DiscrepancySaveKeeps(row: Row, title: string, description: string)
    ensures Apply(row, DiscrepancySavePatch(Trim(title), Trim(description))) ==
            row.(discrepancy := Discrepancy(true, Trim(title), Trim(description)))
  {
  }
}
