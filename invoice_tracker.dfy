/**
 * The invoice tracking page: the rows, the open dialog and one method per
 * event handler. Unlike the credit-note and delivery-order pages it has no
 * selection, no bulk apply and no remembered assign-date step, and it only
 * stores rows while test mode is on.
 */
module InvoicePage {
  import opened Options
  import opened Text
  import opened Statuses
  import opened Rows
  import opened DateFormat
  import opened Dialogs
  import opened Workflow
  import opened InvoiceWorkflow

  /**
   * The persistence step of the invoice page's `updateRow`: nothing is
   * stored outside test mode; in test mode a row with a UUID is updated in
   * storage and any other row is inserted.
   */
  function InvoicePersist(next: seq<Row>, id: Id, testMode: bool): (cmds: seq<Command>)
    ensures |cmds| <= 1
    ensures cmds != [] <==> testMode && id in Ids(next)
    ensures forall c :: c in cmds ==> (c.UpdateStored? && IsSupabaseId(id)) || (c.InsertRow? && !IsSupabaseId(id))
  {
    match FindRow(next, id)
    case None => []
    case Some(row) =>
      if !testMode then []
      else if IsSupabaseId(id) then [UpdateStored(id, row)]
      else [InsertRow(row)]
  }

  /**
   * The same edit is stored by the credit-note and delivery-order pages in
   * any mode, and by the invoice page only in test mode.
   */
  lemma StoredOnlyInTestMode(next: seq<Row>, id: Id)
    ensures InvoicePersist(next, id, false) == []
    ensures id in Ids(next) ==> PersistMerged(next, id) != [] && InvoicePersist(next, id, true) != []
  {
  }

  class InvoiceTracker {
    const warehouses: seq<Warehouse>
    var testMode: bool
    var rows: seq<Row>
    var dialog: Dialog
    var outbox: seq<Command>

    /** The page once its invoices are loaded; test mode starts off. */
    constructor(warehouses: seq<Warehouse>, rows: seq<Row>)
      ensures this.warehouses == warehouses && this.rows == rows
      ensures !testMode && dialog == Idle && outbox == []
    {
      this.warehouses := warehouses;
      this.rows := rows;
      testMode := false;
      dialog := Idle;
      outbox := [];
    }

    /** The effect of a handler that writes `write` (if any) on `rowId` and leaves `d` open. */
    twostate predicate Done(rowId: Id, write: Option<Patch>, d: Dialog)
      reads this
    {
      && rows == Written(old(rows), rowId, write)
      && outbox == old(outbox) + (if write.Some? then InvoicePersist(rows, rowId, testMode) else [])
      && dialog == d
      && testMode == old(testMode)
    }

    /** `updateRow`: merge into every row with that id; store the merged row only in test mode. */
    method UpdateRow(id: Id, p: Patch)
      modifies this
      ensures rows == UpdateRows(old(rows), id, p)
      ensures outbox == old(outbox) + InvoicePersist(rows, id, testMode)
      ensures !testMode ==> outbox == old(outbox)
      ensures dialog == old(dialog) && testMode == old(testMode)
    {
      rows := UpdateRows(rows, id, p);
      outbox := outbox + InvoicePersist(rows, id, testMode);
    }

    method Do(rowId: Id, write: Option<Patch>, d: Dialog)
      modifies this
      ensures Done(rowId, write, d)
    {
      if write.Some? {
        UpdateRow(rowId, write.value);
      }
      dialog := d;
    }

    method ToggleTestMode()
      modifies this
      ensures testMode == !old(testMode)
      ensures rows == old(rows) && outbox == old(outbox) && dialog == old(dialog)
    {
      testMode := !testMode;
    }

    /**
     * `deleteRow`: only in test mode. A row that was never stored (no UUID)
     * is dropped from the list at once; a stored one is deleted in storage
     * and then dropped.
     */
    method DeleteRow(id: Id)
      modifies this
      ensures !old(testMode) ==> rows == old(rows) && outbox == old(outbox)
      ensures old(testMode) ==> rows == RemoveRows(old(rows), id)
      ensures old(testMode) && IsSupabaseId(id) ==> outbox == old(outbox) + [DeleteStored(id)]
      ensures old(testMode) && !IsSupabaseId(id) ==> outbox == old(outbox)
      ensures dialog == old(dialog) && testMode == old(testMode)
    {
      if testMode {
        if IsSupabaseId(id) {
          outbox := outbox + [DeleteStored(id)];
        }
        rows := RemoveRows(rows, id);
      }
    }

    /** Typing in a row's remark field, which is read-only unless `canEditRow`. */
    method RemarkEdit(rowId: Id, value: string)
      modifies this
      ensures var row := FindRow(old(rows), rowId);
              row.Some? && CanEditRow(row.value, old(testMode)) ==> Done(rowId, Some(EmptyPatch.(remark := Set(value))), old(dialog))
      ensures var row := FindRow(old(rows), rowId);
              row.None? || !CanEditRow(row.value, old(testMode)) ==> unchanged(this)
      ensures !old(testMode) ==> unchanged(this)
    {
      var row := FindRow(rows, rowId);
      if row.Some? && CanEditRow(row.value, testMode) {
        Do(rowId, Some(EmptyPatch.(remark := Set(value))), dialog);
      }
    }

    /** Typing in a row's invoice number field, which is read-only unless `canEditRow`. */
    method InvoiceNoEdit(rowId: Id, value: string)
      modifies this
      ensures var row := FindRow(old(rows), rowId);
              row.Some? && CanEditRow(row.value, old(testMode)) ==> Done(rowId, Some(EmptyPatch.(docNo := Set(value))), old(dialog))
      ensures var row := FindRow(old(rows), rowId);
              row.None? || !CanEditRow(row.value, old(testMode)) ==> unchanged(this)
      ensures !old(testMode) ==> unchanged(this)
    {
      var row := FindRow(rows, rowId);
      if row.Some? && CanEditRow(row.value, testMode) {
        Do(rowId, Some(EmptyPatch.(docNo := Set(value))), dialog);
      }
    }

    /** `handleDateChange`, which no control on the page calls: a hold or chop-and-sign row takes the date with no slot; any other row also opens the slot dialog. */
    method DeliveryDateChange(rowId: Id, value: string)
      modifies this
      ensures var parsed := ParseDate(value);
              parsed.None? || parsed.value == "" ==> unchanged(this)
      ensures var parsed := ParseDate(value);
              var row := FindRow(old(rows), rowId);
              parsed.Some? && parsed.value != "" ==>
                Done(rowId, Some(DatePatch(parsed.value)),
                     if row.Some? && IsHoldOrChop(row.value.status) then old(dialog) else SelectSlot(rowId))
    {
      var parsed := ParseDate(value);
      if parsed.Some? && parsed.value != "" {
        var row := FindRow(rows, rowId);
        Do(rowId, Some(DatePatch(parsed.value)), if row.Some? && IsHoldOrChop(row.value.status) then dialog else SelectSlot(rowId));
      }
    }

    /**
     * The invoice-date picker, shown only when `canEditRow`, which calls
     * `handleInvoiceDateChange` with a non-empty value.
     */
    method InvoiceDateChange(rowId: Id, value: string)
      modifies this
      ensures var row := FindRow(old(rows), rowId);
              var parsed := ParseDate(value);
              row.None? || !CanEditRow(row.value, old(testMode)) || parsed.None? || parsed.value == "" ==> unchanged(this)
      ensures var row := FindRow(old(rows), rowId);
              var parsed := ParseDate(value);
              row.Some? && CanEditRow(row.value, old(testMode)) && parsed.Some? && parsed.value != "" ==>
                Done(rowId, Some(EmptyPatch.(docDate := Set(parsed.value))), old(dialog))
      ensures !old(testMode) ==> unchanged(this)
    {
      var row := FindRow(rows, rowId);
      var parsed := ParseDate(value);
      if row.Some? && CanEditRow(row.value, testMode) && parsed.Some? && parsed.value != "" {
        Do(rowId, Some(EmptyPatch.(docDate := Set(parsed.value))), dialog);
      }
    }

    /** `handleDeliverySlotSelect`: only the slot is written, "Afternoon" shown as "Noon". */
    method SlotSelect(slot: string)
      requires dialog.SelectSlot?
      modifies this
      ensures old(dialog).rowId == "" ==> unchanged(this)
      ensures old(dialog).rowId != "" ==> Done(old(dialog).rowId, Some(EmptyPatch.(deliverySlot := Set(DisplaySlot(slot)))), Idle)
    {
      var rowId := dialog.rowId;
      if rowId != "" {
        Do(rowId, Some(EmptyPatch.(deliverySlot := Set(DisplaySlot(slot)))), Idle);
      }
    }

    /** Closing a dialog or notice that writes nothing on close. */
    method Dismiss()
      requires dialog.SelectSlot? || dialog.SameStatusPrompt? || dialog.RedeliverPrompt? || dialog.CompletedPrompt?
               || dialog.ShowNotice? || dialog.AssignDate?
      modifies this
      ensures dialog == Idle && rows == old(rows) && outbox == old(outbox) && testMode == old(testMode)
    {
      dialog := Idle;
    }

    /**
     * A row's discrepancy checkbox, which calls `handleDiscrepancyCheck`:
     * ticking opens the details form, unticking resets. The box is
     * disabled on a locked Completed row.
     */
    method DiscrepancyCheck(rowId: Id, checked: bool)
      modifies this
      ensures var row := FindRow(old(rows), rowId);
              row.None? || IsCompletedLocked(row.value, old(testMode)) ==> unchanged(this)
      ensures var row := FindRow(old(rows), rowId);
              checked && row.Some? && !IsCompletedLocked(row.value, old(testMode)) ==>
                Done(rowId, Some(DiscrepancyCheckPatch(row.value.discrepancy)),
                     EditDiscrepancy(rowId, row.value.discrepancy.title, row.value.discrepancy.description))
      ensures var row := FindRow(old(rows), rowId);
              !checked && row.Some? && !IsCompletedLocked(row.value, old(testMode)) ==>
                Done(rowId, Some(DiscrepancyResetPatch), old(dialog))
    {
      var row := FindRow(rows, rowId);
      if row.Some? && !IsCompletedLocked(row.value, testMode) {
        if checked {
          var d := row.value.discrepancy;
          Do(rowId, Some(DiscrepancyCheckPatch(d)), EditDiscrepancy(rowId, d.title, d.description));
        } else {
          Do(rowId, Some(DiscrepancyResetPatch), dialog);
        }
      }
    }

    /** The "Add details" link, shown only on an unlocked row whose ticked discrepancy has no title. */
    method OpenDiscrepancyDetails(rowId: Id)
      modifies this
      ensures var row := FindRow(old(rows), rowId);
              row.Some? && ShowsAddDetails(row.value, old(testMode)) ==>
                dialog == EditDiscrepancy(rowId, "", row.value.discrepancy.description)
      ensures var row := FindRow(old(rows), rowId);
              row.None? || !ShowsAddDetails(row.value, old(testMode)) ==> dialog == old(dialog)
      ensures rows == old(rows) && outbox == old(outbox) && testMode == old(testMode)
    {
      var row := FindRow(rows, rowId);
      if row.Some? && ShowsAddDetails(row.value, testMode) {
        dialog := EditDiscrepancy(rowId, row.value.discrepancy.title, row.value.discrepancy.description);
      }
    }

    /** `handleDiscrepancySave`: the details are saved on the checked discrepancy and the form closes. */
    method DiscrepancySave(title: string, description: string)
      requires dialog.EditDiscrepancy?
      modifies this
      ensures old(dialog).rowId != "" ==> Done(old(dialog).rowId, Some(DiscrepancySavePatch(title, description)), Idle)
      ensures var rowId := old(dialog).rowId;
              rowId in Ids(old(rows)) && rowId != "" ==>
                FindRow(rows, rowId) == Some(FindRow(old(rows), rowId).value.(discrepancy := Discrepancy(true, title, description)))
      ensures old(dialog).rowId == "" ==> rows == old(rows) && outbox == old(outbox) && dialog == Idle
      ensures testMode == old(testMode)
    {
      var rowId := dialog.rowId;
      if rowId != "" {
        if rowId in Ids(rows) {
          FindAfterUpdate(rows, rowId, DiscrepancySavePatch(title, description));
        }
        Do(rowId, Some(DiscrepancySavePatch(title, description)), Idle);
      } else {
        dialog := Idle;
      }
    }

    /** Submitting the discrepancy form as intended: trimmed details saved, nothing run after. */
    method DiscrepancySubmit(title: string, description: string)
      requires dialog.EditDiscrepancy?
      modifies this
      ensures old(dialog).rowId != "" ==>
                Done(old(dialog).rowId, Some(DiscrepancySavePatch(Trim(title), Trim(description))), Idle)
      ensures var rowId := old(dialog).rowId;
              rowId in Ids(old(rows)) && rowId != "" ==>
                FindRow(rows, rowId) ==
                Some(FindRow(old(rows), rowId).value.(discrepancy := Discrepancy(true, Trim(title), Trim(description))))
      ensures old(dialog).rowId == "" ==> rows == old(rows) && outbox == old(outbox) && dialog == Idle
      ensures testMode == old(testMode)
    {
      DiscrepancySave(Trim(title), Trim(description));
    }

    /** The discrepancy form's close callback: back to no discrepancy. */
    method DiscrepancyClose()
      requires dialog.EditDiscrepancy?
      modifies this
      ensures old(dialog).rowId != "" ==> Done(old(dialog).rowId, Some(DiscrepancyResetPatch), Idle)
      ensures var rowId := old(dialog).rowId;
              rowId in Ids(old(rows)) && rowId != "" ==>
                FindRow(rows, rowId) == Some(FindRow(old(rows), rowId).value.(discrepancy := NoDiscrepancy))
      ensures old(dialog).rowId == "" ==> rows == old(rows) && outbox == old(outbox) && dialog == Idle
      ensures testMode == old(testMode)
    {
      var rowId := dialog.rowId;
      if rowId != "" {
        if rowId in Ids(rows) {
          FindAfterUpdate(rows, rowId, DiscrepancyResetPatch);
        }
        Do(rowId, Some(DiscrepancyResetPatch), Idle);
      } else {
        dialog := Idle;
      }
    }

    /** Submitting the discrepancy form as the page wires it: the close callback resets what was saved. */
    method DiscrepancySubmitAsWired(title: string, description: string)
      requires dialog.EditDiscrepancy?
      modifies this
      ensures var rowId := old(dialog).rowId;
              var saved := UpdateRows(old(rows), rowId, DiscrepancySavePatch(Trim(title), Trim(description)));
              rowId != "" ==>
                && rows == UpdateRows(saved, rowId, DiscrepancyResetPatch)
                && outbox == old(outbox) + InvoicePersist(saved, rowId, testMode) + InvoicePersist(rows, rowId, testMode)
      ensures var rowId := old(dialog).rowId;
              rowId in Ids(old(rows)) && rowId != "" ==>
                FindRow(rows, rowId) == Some(FindRow(old(rows), rowId).value.(discrepancy := NoDiscrepancy))
      ensures old(dialog).rowId == "" ==> rows == old(rows) && outbox == old(outbox)
      ensures dialog == Idle && testMode == old(testMode)
    {
      var rowId := dialog.rowId;
      DiscrepancySubmit(title, description);
      ghost var saved := rows;
      assert rowId != "" ==> saved == UpdateRows(old(rows), rowId, DiscrepancySavePatch(Trim(title), Trim(description)));
      assert Ids(saved) == Ids(old(rows));
      dialog := EditDiscrepancy(rowId, "", "");
      DiscrepancyClose();
    }

    /**
     * The row's status dropdown, which calls `handleStatusChange`. A locked
     * Completed row shows its status as text, with no dropdown.
     */
    method StatusChange(rowId: Id, newStatus: Status, previousStatus: Status)
      modifies this
      ensures var row := FindRow(old(rows), rowId);
              row.None? || IsCompletedLocked(row.value, old(testMode)) ==> unchanged(this)
      ensures var row := FindRow(old(rows), rowId);
              row.Some? && !IsCompletedLocked(row.value, old(testMode)) ==>
                var o := InvoiceStatusChange(row.value, newStatus, previousStatus);
                Done(rowId, o.write, o.dialog)
    {
      var row := FindRow(rows, rowId);
      if row.Some? && !IsCompletedLocked(row.value, testMode) {
        var o := InvoiceStatusChange(row.value, newStatus, previousStatus);
        Do(rowId, o.write, o.dialog);
      }
    }

    /** `handleSalesmanSelect` */
    method SalesmanSelect(salesmanId: Id, today: string)
      requires dialog.SelectSalesman?
      modifies this
      ensures var rowId := old(dialog).rowId;
              Done(rowId, Some(EmptyPatch.(assignedSalesmanId := Set(Some(salesmanId)))),
                   AssignDate(rowId, StartDate(FindRow(old(rows), rowId), today), false))
    {
      var rowId := dialog.rowId;
      Do(rowId, Some(EmptyPatch.(assignedSalesmanId := Set(Some(salesmanId)))),
         AssignDate(rowId, StartDate(FindRow(rows, rowId), today), false));
    }

    method SalesmanCancel()
      requires dialog.SelectSalesman?
      modifies this
      ensures Done(old(dialog).rowId, Some(SalesmanCancelPatch(old(dialog).previousStatus)), Idle)
    {
      Do(dialog.rowId, Some(SalesmanCancelPatch(dialog.previousStatus)), Idle);
    }

    /** `handleClerkSelect` */
    method ClerkSelect(clerkId: Id, today: string)
      requires dialog.SelectClerk?
      modifies this
      ensures var rowId := old(dialog).rowId;
              Done(rowId, Some(EmptyPatch.(assignedClerkId := Set(Some(clerkId)))),
                   AssignDate(rowId, StartDate(FindRow(old(rows), rowId), today), false))
    {
      var rowId := dialog.rowId;
      Do(rowId, Some(EmptyPatch.(assignedClerkId := Set(Some(clerkId)))),
         AssignDate(rowId, StartDate(FindRow(rows, rowId), today), false));
    }

    method ClerkCancel()
      requires dialog.SelectClerk?
      modifies this
      ensures Done(old(dialog).rowId, Some(ClerkCancelPatch(old(dialog).previousStatus)), Idle)
    {
      Do(dialog.rowId, Some(ClerkCancelPatch(dialog.previousStatus)), Idle);
    }

    /** `handleWarehouseSelect`: the transfer warehouse with today's date. */
    method TransferSelect(warehouseId: Id, today: string)
      requires dialog.SelectTransferWarehouse?
      modifies this
      ensures Done(old(dialog).rowId, Some(TransferPatch(warehouseId, today)), Idle)
    {
      Do(dialog.rowId, Some(TransferPatch(warehouseId, today)), Idle);
    }

    method TransferCancel()
      requires dialog.SelectTransferWarehouse?
      modifies this
      ensures Done(old(dialog).rowId, Some(TransferCancelPatch(old(dialog).previousStatus)), Idle)
    {
      Do(dialog.rowId, Some(TransferCancelPatch(dialog.previousStatus)), Idle);
    }

    /** `handleHoldWarehouseSelect`: Keruing commits at once, other warehouses ask for a type. */
    method HoldWarehouseSelect(warehouseId: Id, today: string)
      requires dialog.SelectHoldWarehouse?
      modifies this
      ensures var o := HoldWarehouseChoice(warehouses, old(dialog).rowId, warehouseId, old(dialog).previousStatus, today);
              Done(old(dialog).rowId, o.write, o.dialog)
    {
      var o := HoldWarehouseChoice(warehouses, dialog.rowId, warehouseId, dialog.previousStatus, today);
      Do(dialog.rowId, o.write, o.dialog);
    }

    method HoldWarehouseCancel()
      requires dialog.SelectHoldWarehouse?
      modifies this
      ensures Done(old(dialog).rowId, Some(DriverCancelPatch(old(dialog).previousStatus)), Idle)
    {
      Do(dialog.rowId, Some(DriverCancelPatch(dialog.previousStatus)), Idle);
    }

    /** `handleHoldWarehouseTypeSelect`: the typed hold; the remark is left alone on this page. */
    method HoldTypeSelect(holdType: string, today: string)
      requires dialog.SelectHoldType?
      modifies this
      ensures Done(old(dialog).rowId, Some(InvoiceHoldTypePatch(old(dialog).warehouseId, holdType, today)), Idle)
    {
      Do(dialog.rowId, Some(InvoiceHoldTypePatch(dialog.warehouseId, holdType, today)), Idle);
    }

    method HoldTypeCancel()
      requires dialog.SelectHoldType?
      modifies this
      ensures Done(old(dialog).rowId, Some(DriverCancelPatch(old(dialog).previousStatus)), Idle)
    {
      Do(dialog.rowId, Some(DriverCancelPatch(dialog.previousStatus)), Idle);
    }

    /** "Yes, start over": this page has no Chop & Sign - Warehouse prompt. */
    method SameStatusStartOver()
      requires dialog.SameStatusPrompt?
      modifies this
      ensures var o := Workflow.StartOver(old(dialog).rowId, old(dialog).status, false);
              Done(old(dialog).rowId, o.write, o.dialog)
    {
      var o := Workflow.StartOver(dialog.rowId, dialog.status, false);
      Do(dialog.rowId, o.write, o.dialog);
    }

    /** `handleRearrangeDeliveryYes` */
    method RedeliverYes()
      requires dialog.RedeliverPrompt?
      modifies this
      ensures var rowId := old(dialog).rowId;
              Done(rowId, if rowId != "" then Some(RedeliverPatch) else None, Idle)
    {
      var rowId := dialog.rowId;
      Do(rowId, if rowId != "" then Some(RedeliverPatch) else None, Idle);
    }

    /** `handleCompletedConfirmYes` */
    method CompletedYes()
      requires dialog.CompletedPrompt?
      modifies this
      ensures var rowId := old(dialog).rowId;
              Done(rowId, if rowId != "" then Some(CompletedPatch) else None, Idle)
    {
      var rowId := dialog.rowId;
      Do(rowId, if rowId != "" then Some(CompletedPatch) else None, Idle);
    }

    /** The date input of the assign-date step; clearing it means today. */
    method AssignDateInput(value: string, today: string)
      requires dialog.AssignDate?
      modifies this
      ensures dialog == old(dialog).(selectedDate := if value != "" then value else today)
      ensures rows == old(rows) && outbox == old(outbox) && testMode == old(testMode)
    {
      dialog := dialog.(selectedDate := if value != "" then value else today);
    }

    /**
     * `handleAssignDateConfirm`: the parsed date (or today) with an empty
     * slot; after a driver the slot dialog follows.
     */
    method AssignDateConfirm(today: string)
      requires dialog.AssignDate?
      modifies this
      ensures old(dialog).rowId == "" || SavedDate(old(dialog).selectedDate, today).None? ==> unchanged(this)
      ensures var d := old(dialog);
              var saved := SavedDate(d.selectedDate, today);
              d.rowId != "" && saved.Some? ==>
                Done(d.rowId, Some(DatePatch(saved.value)), if d.fromDriver then SelectSlot(d.rowId) else Idle)
    {
      var d := dialog;
      var saved := SavedDate(d.selectedDate, today);
      if d.rowId != "" && saved.Some? {
        Do(d.rowId, Some(DatePatch(saved.value)), if d.fromDriver then SelectSlot(d.rowId) else Idle);
      }
    }

    /** `handlePreparingDeliveryTypeSelect`: salesman or driver. */
    method AssignToSelect(salesman: bool)
      requires dialog.AssignToPrompt?
      modifies this
      ensures dialog == if salesman then SelectSalesman(old(dialog).rowId, old(dialog).previousStatus)
                        else SelectDriver(old(dialog).rowId, old(dialog).previousStatus, false)
      ensures rows == old(rows) && outbox == old(outbox) && testMode == old(testMode)
    {
      dialog := if salesman then SelectSalesman(dialog.rowId, dialog.previousStatus)
                else SelectDriver(dialog.rowId, dialog.previousStatus, false);
    }

    method AssignToCancel()
      requires dialog.AssignToPrompt?
      modifies this
      ensures Done(old(dialog).rowId, Some(AssignToCancelPatch(old(dialog).previousStatus)), Idle)
    {
      Do(dialog.rowId, Some(AssignToCancelPatch(dialog.previousStatus)), Idle);
    }

    /** `handleDriverSelect` */
    method DriverSelect(driverId: Id, today: string)
      requires dialog.SelectDriver?
      modifies this
      ensures var rowId := old(dialog).rowId;
              Done(rowId, Some(EmptyPatch.(assignedDriverId := Set(Some(driverId)))),
                   AssignDate(rowId, StartDate(FindRow(old(rows), rowId), today), true))
    {
      var rowId := dialog.rowId;
      Do(rowId, Some(EmptyPatch.(assignedDriverId := Set(Some(driverId)))),
         AssignDate(rowId, StartDate(FindRow(rows, rowId), today), true));
    }

    method DriverCancel()
      requires dialog.SelectDriver?
      modifies this
      ensures Done(old(dialog).rowId, Some(DriverCancelPatch(old(dialog).previousStatus)), Idle)
    {
      Do(dialog.rowId, Some(DriverCancelPatch(dialog.previousStatus)), Idle);
    }
  }
}
