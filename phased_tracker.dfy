/**
 * The credit-note and delivery-order tracking pages: their rows, selection,
 * open dialog and pending assign-date step, and one method per event
 * handler. The two pages share their workflow; the delivery-order page adds
 * the invoice-attachment step after a slot or date commit.
 *
 * Storage-adapter calls are appended to `outbox` in call order; their
 * results are not modelled (an insert's returned row, a failed call).
 */
module PhasedPages {
  import opened Options
  import opened Text
  import opened Statuses
  import opened Rows
  import opened DateFormat
  import opened AddDocuments
  import opened InvoiceSearch
  import opened Dialogs
  import opened Workflow

  datatype PageKind = CreditNotes | DeliveryOrders

  /** The storage calls that `updateRow` makes, if it is called. */
  function Persisted(next: seq<Row>, id: Id, write: Option<Patch>): seq<Command>
  {
    if write.Some? then PersistMerged(next, id) else []
  }

  /** `prev.filter((id) => id !== rowId)` on the selected ids. */
  function Without(ids: seq<Id>, id: Id): (rest: seq<Id>)
    ensures forall x :: x in rest <==> x in ids && x != id
    decreases |ids|
  {
    if ids == [] then []
    else if ids[0] == id then Without(ids[1..], id)
    else [ids[0]] + Without(ids[1..], id)
  }

  /** A click on a row toggles its membership in the selection. */
  function Toggle(ids: seq<Id>, id: Id): (next: seq<Id>)
    ensures id in next <==> id !in ids
    ensures forall x :: x != id ==> (x in next <==> x in ids)
  {
    if id in ids then Without(ids, id) else ids + [id]
  }

  /** Two clicks on the same row leave the same rows selected. */
  lemma ToggleTwice(ids: seq<Id>, id: Id)
    ensures forall x :: x in Toggle(Toggle(ids, id), id) <==> x in ids
  {
  }

  /** The rows `createCreditNote` / `createDeliveryOrder` builds, stored one after another. */
  class PhasedTracker {
    const kind: PageKind
    /** The warehouse list the page reads from its context. */
    const warehouses: seq<Warehouse>
    var testMode: bool
    var rows: seq<Row>
    /** `selectedInvoiceIds` */
    var selection: seq<Id>
    /** `pendingBulkRowIdsRef` */
    var pendingBulk: Option<seq<Id>>
    /** `assignDatePendingRef` */
    var pendingDate: PendingDate
    var dialog: Dialog
    var outbox: seq<Command>

    /** The page once its rows are loaded; test mode starts off. */
    constructor(kind: PageKind, warehouses: seq<Warehouse>, rows: seq<Row>)
      ensures this.kind == kind && this.warehouses == warehouses && this.rows == rows
      ensures !testMode && selection == [] && pendingBulk.None? && pendingDate == NoPendingDate
      ensures dialog == Idle && outbox == []
    {
      this.kind := kind;
      this.warehouses := warehouses;
      this.rows := rows;
      testMode := false;
      selection := [];
      pendingBulk := None;
      pendingDate := NoPendingDate;
      dialog := Idle;
      outbox := [];
    }

    /**
     * The effect of a handler that decided `o` on row `rowId`, with
     * `pending` as the pending bulk ids at the time of the commit: the
     * write is merged and persisted, and a bulk payload goes through
     * `afterBulkableCommit`.
     */
    twostate predicate Performed(rowId: Id, o: Outcome, pending: Option<seq<Id>>)
      reads this
    {
      && rows == Written(old(rows), rowId, o.write)
      && outbox == old(outbox) + Persisted(rows, rowId, o.write)
      && (if o.bulk.Some? then (dialog, pendingBulk) == AfterCommit(pending, o.bulk.value, o.dialog)
          else dialog == o.dialog && pendingBulk == pending)
    }

    /** `updateRow`: merge into every row with that id, then persist the merged row. */
    method UpdateRow(id: Id, p: Patch)
      modifies this
      ensures rows == UpdateRows(old(rows), id, p)
      ensures outbox == old(outbox) + PersistMerged(rows, id)
      ensures dialog == old(dialog) && pendingBulk == old(pendingBulk) && selection == old(selection)
      ensures pendingDate == old(pendingDate) && testMode == old(testMode)
    {
      rows := UpdateRows(rows, id, p);
      outbox := outbox + PersistMerged(rows, id);
    }

    method Perform(rowId: Id, o: Outcome, pending: Option<seq<Id>>)
      modifies this
      ensures Performed(rowId, o, pending)
      ensures selection == old(selection) && pendingDate == old(pendingDate) && testMode == old(testMode)
    {
      if o.write.Some? {
        UpdateRow(rowId, o.write.value);
      }
      if o.bulk.Some? {
        var (d, p) := AfterCommit(pending, o.bulk.value, o.dialog);
        dialog, pendingBulk := d, p;
      } else {
        dialog, pendingBulk := o.dialog, pending;
      }
    }

    method ToggleTestMode()
      modifies this
      ensures testMode == !old(testMode)
      ensures rows == old(rows) && outbox == old(outbox) && selection == old(selection)
      ensures pendingBulk == old(pendingBulk) && pendingDate == old(pendingDate) && dialog == old(dialog)
    {
      testMode := !testMode;
    }

    /** `deleteRow`: only in test mode; the row leaves the list once storage has deleted it. */
    method DeleteRow(id: Id)
      modifies this
      ensures old(testMode) ==> rows == RemoveRows(old(rows), id) && outbox == old(outbox) + [DeleteStored(id)]
      ensures !old(testMode) ==> rows == old(rows) && outbox == old(outbox)
      ensures id !in Ids(old(rows)) ==> rows == old(rows)
      ensures dialog == old(dialog) && selection == old(selection)
      ensures pendingBulk == old(pendingBulk) && pendingDate == old(pendingDate) && testMode == old(testMode)
    {
      if testMode {
        RemoveAbsent(rows, id);
        rows := RemoveRows(rows, id);
        outbox := outbox + [DeleteStored(id)];
      }
    }

    /** Removing an id that no row has leaves the list as it was. */
    static lemma {:induction false} RemoveAbsent(rows: seq<Row>, id: Id)
      ensures id !in Ids(rows) ==> RemoveRows(rows, id) == rows
      decreases |rows|
    {
      if rows != [] && id !in Ids(rows) {
        assert Ids(rows[1..]) == Ids(rows)[1..];
        RemoveAbsent(rows[1..], id);
      }
    }

    /** The header checkbox: select every row, or none. */
    method SelectAll(checked: bool)
      modifies this
      ensures selection == if checked then Ids(old(rows)) else []
      ensures rows == old(rows) && outbox == old(outbox) && dialog == old(dialog)
      ensures pendingBulk == old(pendingBulk) && pendingDate == old(pendingDate) && testMode == old(testMode)
    {
      selection := if checked then Ids(rows) else [];
    }

    /** A click on a row outside its controls. */
    method RowClick(rowId: Id)
      modifies this
      ensures selection == Toggle(old(selection), rowId)
      ensures rowId in selection <==> rowId !in old(selection)
      ensures rows == old(rows) && outbox == old(outbox) && dialog == old(dialog)
      ensures pendingBulk == old(pendingBulk) && pendingDate == old(pendingDate) && testMode == old(testMode)
    {
      selection := Toggle(selection, rowId);
    }

    /** A row's own checkbox. */
    method RowCheckbox(rowId: Id, checked: bool)
      modifies this
      ensures selection == if checked then old(selection) + [rowId] else Without(old(selection), rowId)
      ensures rowId in selection <==> checked
      ensures rows == old(rows) && outbox == old(outbox) && dialog == old(dialog)
      ensures pendingBulk == old(pendingBulk) && pendingDate == old(pendingDate) && testMode == old(testMode)
    {
      selection := if checked then selection + [rowId] else Without(selection, rowId);
    }

    /** `rowIds.forEach((id) => updateRow(id, payload))` */
    method UpdateEachRow(ids: seq<Id>, p: Patch)
      modifies this
      ensures rows == UpdateEach(old(rows), ids, p)
      ensures outbox == old(outbox) + PersistEach(old(rows), ids, p)
      ensures dialog == old(dialog) && pendingBulk == old(pendingBulk) && selection == old(selection)
      ensures pendingDate == old(pendingDate) && testMode == old(testMode)
    {
      var next, calls := UpdateEachLoop(rows, ids, p);
      rows, outbox := next, outbox + calls;
    }

    /**
     * The loop of the bulk update on the rows as a value: one `updateRow`
     * per id, each on the result of the previous ones, with the storage
     * calls they make in order.
     */
    static method UpdateEachLoop(rows: seq<Row>, ids: seq<Id>, p: Patch) returns (next: seq<Row>, calls: seq<Command>)
      ensures next == UpdateEach(rows, ids, p)
      ensures calls == PersistEach(rows, ids, p)
    {
      next, calls := rows, [];
      var i := 0;
      while i < |ids|
        invariant 0 <= i <= |ids|
        invariant next == UpdateEach(rows, ids[..i], p)
        invariant calls == PersistEach(rows, ids[..i], p)
      {
        EachStep(rows, ids, i, p);
        next := UpdateRows(next, ids[i], p);
        calls := calls + PersistMerged(next, ids[i]);
        i := i + 1;
      }
      assert ids[..i] == ids;
    }

    /** One more id in a bulk update is one more `updateRow` after the others. */
    static lemma EachStep(rows: seq<Row>, ids: seq<Id>, i: nat, p: Patch)
      requires i < |ids|
      ensures UpdateEach(rows, ids[..i + 1], p) == UpdateRows(UpdateEach(rows, ids[..i], p), ids[i], p)
      ensures PersistEach(rows, ids[..i + 1], p) ==
              PersistEach(rows, ids[..i], p) + PersistMerged(UpdateRows(UpdateEach(rows, ids[..i], p), ids[i], p), ids[i])
    {
      assert ids[..i + 1][..i] == ids[..i];
    }

    /**
     * `handleBulkApplyYes`: the payload is merged into every selected row,
     * one `updateRow` after another; the selection is cleared and the
     * continuation runs.
     */
    method BulkApplyYes()
      requires dialog.BulkApplyPrompt?
      modifies this
      ensures rows == UpdateEach(old(rows), old(dialog).rowIds, old(dialog).payload)
      ensures |rows| == |old(rows)|
      ensures forall i :: 0 <= i < |rows| ==>
                rows[i] == if old(rows)[i].id in old(dialog).rowIds then Apply(old(rows)[i], old(dialog).payload) else old(rows)[i]
      ensures outbox == old(outbox) + PersistEach(old(rows), old(dialog).rowIds, old(dialog).payload)
      ensures selection == [] && pendingBulk.None? && dialog == old(dialog).next
      ensures pendingDate == old(pendingDate) && testMode == old(testMode)
    {
      var ids, p, next := dialog.rowIds, dialog.payload, dialog.next;
      UpdateEachPointwise(rows, ids, p);
      UpdateEachRow(ids, p);
      selection := [];
      pendingBulk := None;
      dialog := next;
    }

    /** `handleBulkApplyNo`: only the acting row keeps the change; the continuation runs. */
    method BulkApplyNo()
      requires dialog.BulkApplyPrompt?
      modifies this
      ensures rows == old(rows) && outbox == old(outbox) && selection == old(selection)
      ensures pendingBulk.None? && dialog == old(dialog).next
      ensures pendingDate == old(pendingDate) && testMode == old(testMode)
    {
      pendingBulk := None;
      dialog := dialog.next;
    }

    /**
     * `handleDateChange`, which no control on the page calls: a hold or
     * chop-and-sign row takes the date with no slot; any other row also
     * opens the slot dialog.
     */
    method DeliveryDateChange(rowId: Id, value: string)
      modifies this
      ensures var parsed := ParseDate(value);
              parsed.None? || parsed.value == "" ==> unchanged(this)
      ensures var parsed := ParseDate(value);
              var row := FindRow(old(rows), rowId);
              parsed.Some? && parsed.value != "" ==>
                Performed(rowId, Outcome(Some(DatePatch(parsed.value)), None,
                                         if row.Some? && IsHoldOrChop(row.value.status) then old(dialog) else SelectSlot(rowId)),
                          old(pendingBulk))
      ensures selection == old(selection) && pendingDate == old(pendingDate) && testMode == old(testMode)
    {
      var parsed := ParseDate(value);
      if parsed.Some? && parsed.value != "" {
        var row := FindRow(rows, rowId);
        var next := if row.Some? && IsHoldOrChop(row.value.status) then dialog else SelectSlot(rowId);
        Perform(rowId, Outcome(Some(DatePatch(parsed.value)), None, next), pendingBulk);
      }
    }

    /** `handleCreditNoteDateChange` / `handleDeliveryOrderDateChange`, which no control on the page calls: the document date. */
    method DocumentDateChange(rowId: Id, value: string)
      modifies this
      ensures var parsed := ParseDate(value);
              parsed.None? || parsed.value == "" ==> unchanged(this)
      ensures var parsed := ParseDate(value);
              parsed.Some? && parsed.value != "" ==>
                Performed(rowId, Outcome(Some(EmptyPatch.(docDate := Set(parsed.value))), None, old(dialog)), old(pendingBulk))
      ensures selection == old(selection) && pendingDate == old(pendingDate) && testMode == old(testMode)
    {
      var parsed := ParseDate(value);
      if parsed.Some? && parsed.value != "" {
        Perform(rowId, Outcome(Some(EmptyPatch.(docDate := Set(parsed.value))), None, dialog), pendingBulk);
      }
    }

    /** Typing in a row's remark field, which is read-only unless `canEditRow`. */
    method RemarkEdit(rowId: Id, value: string)
      modifies this
      ensures var row := FindRow(old(rows), rowId);
              row.Some? && CanEditRow(row.value, old(testMode)) ==>
                Performed(rowId, Outcome(Some(EmptyPatch.(remark := Set(value))), None, old(dialog)), old(pendingBulk))
      ensures var row := FindRow(old(rows), rowId);
              row.None? || !CanEditRow(row.value, old(testMode)) ==> unchanged(this)
      ensures !old(testMode) ==> unchanged(this)
      ensures selection == old(selection) && pendingDate == old(pendingDate) && testMode == old(testMode)
    {
      var row := FindRow(rows, rowId);
      if row.Some? && CanEditRow(row.value, testMode) {
        Perform(rowId, Outcome(Some(EmptyPatch.(remark := Set(value))), None, dialog), pendingBulk);
      }
    }

    /**
     * `handleDeliverySlotSelect`: the slot, with the row's status, salesman,
     * driver and date, is committed and offered to the selection; on the
     * delivery-order page the attachment prompt follows.
     */
    method SlotSelect(slot: string)
      requires dialog.SelectSlot?
      modifies this
      ensures old(dialog).rowId == "" ==> unchanged(this)
      ensures var rowId := old(dialog).rowId;
              rowId != "" ==>
                Performed(rowId, Bulkable(SlotPatch(FindRow(old(rows), rowId), slot),
                                          if kind == DeliveryOrders then AttachmentPrompt(rowId, NoAttachment) else Idle),
                          old(pendingBulk))
      ensures selection == old(selection) && pendingDate == old(pendingDate) && testMode == old(testMode)
    {
      var rowId := dialog.rowId;
      if rowId != "" {
        var next := if kind == DeliveryOrders then AttachmentPrompt(rowId, NoAttachment) else Idle;
        Perform(rowId, Bulkable(SlotPatch(FindRow(rows, rowId), slot), next), pendingBulk);
      }
    }

    /** The slot dialog closed without a choice: the date stays with an empty slot. */
    method SlotClose()
      requires dialog.SelectSlot?
      modifies this
      ensures dialog == Idle
      ensures rows == old(rows) && outbox == old(outbox) && selection == old(selection)
      ensures pendingBulk == old(pendingBulk) && pendingDate == old(pendingDate) && testMode == old(testMode)
    {
      dialog := Idle;
    }

    /**
     * A row's discrepancy checkbox, which calls `handleDiscrepancyCheck`:
     * ticking opens the details form, unticking resets. The box is
     * disabled on a locked Completed row.
     */
    method DiscrepancyCheck(rowId: Id, checked: bool)
      modifies this
      ensures var row := FindRow(old(rows), rowId);
              row.None? || IsCompletedLocked(row.value, old(testMode)) ==> unchanged(this)
      ensures var row := FindRow(old(rows), rowId);
              checked && row.Some? && !IsCompletedLocked(row.value, old(testMode)) ==>
                Performed(rowId, Outcome(Some(DiscrepancyCheckPatch(row.value.discrepancy)), None,
                                         EditDiscrepancy(rowId, row.value.discrepancy.title, row.value.discrepancy.description)),
                          old(pendingBulk))
      ensures var row := FindRow(old(rows), rowId);
              !checked && row.Some? && !IsCompletedLocked(row.value, old(testMode)) ==>
                Performed(rowId, Outcome(Some(DiscrepancyResetPatch), None, old(dialog)), old(pendingBulk))
      ensures selection == old(selection) && pendingDate == old(pendingDate) && testMode == old(testMode)
    {
      var row := FindRow(rows, rowId);
      if row.Some? && !IsCompletedLocked(row.value, testMode) {
        if checked {
          var d := row.value.discrepancy;
          Perform(rowId, Outcome(Some(DiscrepancyCheckPatch(d)), None, EditDiscrepancy(rowId, d.title, d.description)), pendingBulk);
        } else {
          Perform(rowId, Outcome(Some(DiscrepancyResetPatch), None, dialog), pendingBulk);
        }
      }
    }

    /** The "Add details" link, shown only on an unlocked row whose ticked discrepancy has no title. */
    method OpenDiscrepancyDetails(rowId: Id)
      modifies this
      ensures var row := FindRow(old(rows), rowId);
              row.Some? && ShowsAddDetails(row.value, old(testMode)) ==>
                dialog == EditDiscrepancy(rowId, "", row.value.discrepancy.description)
      ensures var row := FindRow(old(rows), rowId);
              row.None? || !ShowsAddDetails(row.value, old(testMode)) ==> dialog == old(dialog)
      ensures rows == old(rows) && outbox == old(outbox) && selection == old(selection)
      ensures pendingBulk == old(pendingBulk) && pendingDate == old(pendingDate) && testMode == old(testMode)
    {
      var row := FindRow(rows, rowId);
      if row.Some? && ShowsAddDetails(row.value, testMode) {
        dialog := EditDiscrepancy(rowId, row.value.discrepancy.title, row.value.discrepancy.description);
      }
    }

    /**
     * `handleDiscrepancySave`: the details the form hands over are saved on
     * the checked discrepancy and the form closes.
     */
    method DiscrepancySave(title: string, description: string)
      requires dialog.EditDiscrepancy?
      modifies this
      ensures var rowId := old(dialog).rowId;
              rowId != "" ==>
                Performed(rowId, Outcome(Some(DiscrepancySavePatch(title, description)), None, Idle), old(pendingBulk))
      ensures var rowId := old(dialog).rowId;
              rowId in Ids(old(rows)) && rowId != "" ==>
                FindRow(rows, rowId) == Some(FindRow(old(rows), rowId).value.(discrepancy := Discrepancy(true, title, description)))
      ensures old(dialog).rowId == "" ==> rows == old(rows) && outbox == old(outbox) && dialog == Idle
      ensures pendingBulk == old(pendingBulk)
      ensures selection == old(selection) && pendingDate == old(pendingDate) && testMode == old(testMode)
    {
      var rowId := dialog.rowId;
      if rowId != "" {
        if rowId in Ids(rows) {
          FindAfterUpdate(rows, rowId, DiscrepancySavePatch(title, description));
        }
        Perform(rowId, Outcome(Some(DiscrepancySavePatch(title, description)), None, Idle), pendingBulk);
      } else {
        dialog := Idle;
      }
    }

    /**
     * Submitting the discrepancy form as intended: the form trims both
     * fields and hands them to the save handler, and nothing runs after it.
     */
    method DiscrepancySubmit(title: string, description: string)
      requires dialog.EditDiscrepancy?
      modifies this
      ensures var rowId := old(dialog).rowId;
              rowId != "" ==>
                Performed(rowId, Outcome(Some(DiscrepancySavePatch(Trim(title), Trim(description))), None, Idle), old(pendingBulk))
      ensures var rowId := old(dialog).rowId;
              rowId in Ids(old(rows)) && rowId != "" ==>
                FindRow(rows, rowId) ==
                Some(FindRow(old(rows), rowId).value.(discrepancy := Discrepancy(true, Trim(title), Trim(description))))
      ensures old(dialog).rowId == "" ==> rows == old(rows) && outbox == old(outbox) && dialog == Idle
      ensures pendingBulk == old(pendingBulk)
      ensures selection == old(selection) && pendingDate == old(pendingDate) && testMode == old(testMode)
    {
      DiscrepancySave(Trim(title), Trim(description));
    }

    /** The discrepancy form's close callback (cancel, backdrop, close button): back to no discrepancy. */
    method DiscrepancyClose()
      requires dialog.EditDiscrepancy?
      modifies this
      ensures var rowId := old(dialog).rowId;
              rowId != "" ==> Performed(rowId, Outcome(Some(DiscrepancyResetPatch), None, Idle), old(pendingBulk))
      ensures var rowId := old(dialog).rowId;
              rowId in Ids(old(rows)) && rowId != "" ==>
                FindRow(rows, rowId) == Some(FindRow(old(rows), rowId).value.(discrepancy := NoDiscrepancy))
      ensures old(dialog).rowId == "" ==> rows == old(rows) && outbox == old(outbox) && dialog == Idle
      ensures pendingBulk == old(pendingBulk)
      ensures selection == old(selection) && pendingDate == old(pendingDate) && testMode == old(testMode)
    {
      var rowId := dialog.rowId;
      if rowId != "" {
        if rowId in Ids(rows) {
          FindAfterUpdate(rows, rowId, DiscrepancyResetPatch);
        }
        Perform(rowId, Outcome(Some(DiscrepancyResetPatch), None, Idle), pendingBulk);
      } else {
        dialog := Idle;
      }
    }

    /**
     * Submitting the discrepancy form as the pages wire it: the save runs,
     * then the close callback, which still sees the form's row id and
     * resets the discrepancy.
     */
    method DiscrepancySubmitAsWired(title: string, description: string)
      requires dialog.EditDiscrepancy?
      modifies this
      ensures var rowId := old(dialog).rowId;
              var saved := UpdateRows(old(rows), rowId, DiscrepancySavePatch(Trim(title), Trim(description)));
              rowId != "" ==>
                && rows == UpdateRows(saved, rowId, DiscrepancyResetPatch)
                && outbox == old(outbox) + PersistMerged(saved, rowId) + PersistMerged(rows, rowId)
      ensures var rowId := old(dialog).rowId;
              rowId in Ids(old(rows)) && rowId != "" ==>
                FindRow(rows, rowId) == Some(FindRow(old(rows), rowId).value.(discrepancy := NoDiscrepancy))
      ensures old(dialog).rowId == "" ==> rows == old(rows) && outbox == old(outbox)
      ensures dialog == Idle && pendingBulk == old(pendingBulk)
      ensures selection == old(selection) && pendingDate == old(pendingDate) && testMode == old(testMode)
    {
      var rowId := dialog.rowId;
      DiscrepancySubmit(title, description);
      ghost var saved := rows;
      assert rowId != "" ==> saved == UpdateRows(old(rows), rowId, DiscrepancySavePatch(Trim(title), Trim(description)));
      assert Ids(saved) == Ids(old(rows));
      dialog := EditDiscrepancy(rowId, "", "");
      DiscrepancyClose();
    }

    /**
     * The row's status dropdown, which calls `handleStatusChange`. A locked
     * Completed row shows its status as text, with no dropdown.
     */
    method StatusChange(rowId: Id, newStatus: Status, previousStatus: Status)
      modifies this
      ensures var row := FindRow(old(rows), rowId);
              row.None? || IsCompletedLocked(row.value, old(testMode)) ==> unchanged(this)
      ensures var row := FindRow(old(rows), rowId);
              row.Some? && !IsCompletedLocked(row.value, old(testMode)) ==>
                var pending := if newStatus == row.value.status then old(pendingBulk)
                               else if rowId in old(selection) then Some(old(selection)) else None;
                Performed(rowId, Workflow.StatusChange(row.value, newStatus, previousStatus, old(testMode)), pending)
      ensures selection == old(selection) && pendingDate == old(pendingDate) && testMode == old(testMode)
    {
      var row := FindRow(rows, rowId);
      if row.Some? && !IsCompletedLocked(row.value, testMode) {
        var pending := if newStatus == row.value.status then pendingBulk
                       else if rowId in selection then Some(selection) else None;
        Perform(rowId, Workflow.StatusChange(row.value, newStatus, previousStatus, testMode), pending);
      }
    }

    /** `handleSalesmanSelect`: the salesman is written and the assign-date step opens. */
    method SalesmanSelect(salesmanId: Id, today: string)
      requires dialog.SelectSalesman?
      modifies this
      ensures var rowId := old(dialog).rowId;
              Performed(rowId, Outcome(Some(EmptyPatch.(assignedSalesmanId := Set(Some(salesmanId)))), None,
                                       AssignDate(rowId, StartDate(FindRow(old(rows), rowId), today), false)),
                        old(pendingBulk))
      ensures pendingDate == PendingDate(Some(old(dialog).rowId), false, false, None)
      ensures selection == old(selection) && testMode == old(testMode)
    {
      var rowId := dialog.rowId;
      var start := StartDate(FindRow(rows, rowId), today);
      Perform(rowId, Outcome(Some(EmptyPatch.(assignedSalesmanId := Set(Some(salesmanId)))), None, AssignDate(rowId, start, false)), pendingBulk);
      pendingDate := PendingDate(Some(rowId), false, false, None);
    }

    method SalesmanCancel()
      requires dialog.SelectSalesman?
      modifies this
      ensures Performed(old(dialog).rowId, Outcome(Some(SalesmanCancelPatch(old(dialog).previousStatus)), None, Idle), old(pendingBulk))
      ensures selection == old(selection) && pendingDate == old(pendingDate) && testMode == old(testMode)
    {
      Perform(dialog.rowId, Outcome(Some(SalesmanCancelPatch(dialog.previousStatus)), None, Idle), pendingBulk);
    }

    /** `handleClerkSelect`: the clerk is written and the assign-date step opens. */
    method ClerkSelect(clerkId: Id, today: string)
      requires dialog.SelectClerk?
      modifies this
      ensures var rowId := old(dialog).rowId;
              Performed(rowId, Outcome(Some(EmptyPatch.(assignedClerkId := Set(Some(clerkId)))), None,
                                       AssignDate(rowId, StartDate(FindRow(old(rows), rowId), today), false)),
                        old(pendingBulk))
      ensures pendingDate == PendingDate(Some(old(dialog).rowId), false, false, None)
      ensures selection == old(selection) && testMode == old(testMode)
    {
      var rowId := dialog.rowId;
      var start := StartDate(FindRow(rows, rowId), today);
      Perform(rowId, Outcome(Some(EmptyPatch.(assignedClerkId := Set(Some(clerkId)))), None, AssignDate(rowId, start, false)), pendingBulk);
      pendingDate := PendingDate(Some(rowId), false, false, None);
    }

    method ClerkCancel()
      requires dialog.SelectClerk?
      modifies this
      ensures Performed(old(dialog).rowId, Outcome(Some(ClerkCancelPatch(old(dialog).previousStatus)), None, Idle), old(pendingBulk))
      ensures selection == old(selection) && pendingDate == old(pendingDate) && testMode == old(testMode)
    {
      Perform(dialog.rowId, Outcome(Some(ClerkCancelPatch(dialog.previousStatus)), None, Idle), pendingBulk);
    }

    /** `handleWarehouseSelect`: the transfer warehouse with today's date, offered to the selection. */
    method TransferSelect(warehouseId: Id, today: string)
      requires dialog.SelectTransferWarehouse?
      modifies this
      ensures Performed(old(dialog).rowId, Bulkable(TransferPatch(warehouseId, today), Idle), old(pendingBulk))
      ensures selection == old(selection) && pendingDate == old(pendingDate) && testMode == old(testMode)
    {
      Perform(dialog.rowId, Bulkable(TransferPatch(warehouseId, today), Idle), pendingBulk);
    }

    method TransferCancel()
      requires dialog.SelectTransferWarehouse?
      modifies this
      ensures Performed(old(dialog).rowId, Outcome(Some(TransferCancelPatch(old(dialog).previousStatus)), None, Idle), old(pendingBulk))
      ensures selection == old(selection) && pendingDate == old(pendingDate) && testMode == old(testMode)
    {
      Perform(dialog.rowId, Outcome(Some(TransferCancelPatch(dialog.previousStatus)), None, Idle), pendingBulk);
    }

    /** `handleHoldWarehouseSelect`: Keruing commits at once, other warehouses ask for a type. */
    method HoldWarehouseSelect(warehouseId: Id, today: string)
      requires dialog.SelectHoldWarehouse?
      modifies this
      ensures Performed(old(dialog).rowId,
                        HoldWarehouseChoice(warehouses, old(dialog).rowId, warehouseId, old(dialog).previousStatus, today),
                        old(pendingBulk))
      ensures selection == old(selection) && pendingDate == old(pendingDate) && testMode == old(testMode)
    {
      Perform(dialog.rowId, HoldWarehouseChoice(warehouses, dialog.rowId, warehouseId, dialog.previousStatus, today), pendingBulk);
    }

    method HoldWarehouseCancel()
      requires dialog.SelectHoldWarehouse?
      modifies this
      ensures Performed(old(dialog).rowId, Outcome(Some(DriverCancelPatch(old(dialog).previousStatus)), None, Idle), old(pendingBulk))
      ensures selection == old(selection) && pendingDate == old(pendingDate) && testMode == old(testMode)
    {
      Perform(dialog.rowId, Outcome(Some(DriverCancelPatch(dialog.previousStatus)), None, Idle), pendingBulk);
    }

    /** `handleHoldWarehouseTypeSelect`: the typed hold, its type appended to the remark, offered to the selection. */
    method HoldTypeSelect(holdType: string, today: string)
      requires dialog.SelectHoldType?
      modifies this
      ensures var rowId := old(dialog).rowId;
              Performed(rowId, Bulkable(HoldTypePatch(old(dialog).warehouseId, holdType, today, RemarkOf(FindRow(old(rows), rowId))), Idle),
                        old(pendingBulk))
      ensures selection == old(selection) && pendingDate == old(pendingDate) && testMode == old(testMode)
    {
      var rowId := dialog.rowId;
      Perform(rowId, Bulkable(HoldTypePatch(dialog.warehouseId, holdType, today, RemarkOf(FindRow(rows, rowId))), Idle), pendingBulk);
    }

    method HoldTypeCancel()
      requires dialog.SelectHoldType?
      modifies this
      ensures Performed(old(dialog).rowId, Outcome(Some(DriverCancelPatch(old(dialog).previousStatus)), None, Idle), old(pendingBulk))
      ensures selection == old(selection) && pendingDate == old(pendingDate) && testMode == old(testMode)
    {
      Perform(dialog.rowId, Outcome(Some(DriverCancelPatch(dialog.previousStatus)), None, Idle), pendingBulk);
    }

    /** `handleChopSignNoWarehouseSelect`: the warehouse is remembered for the assign-date step. */
    method ChopSignNoWarehouseSelect(warehouseId: Id, today: string)
      requires dialog.SelectChopSignWarehouse?
      modifies this
      ensures var rowId := old(dialog).rowId;
              dialog == AssignDate(rowId, StartDate(FindRow(old(rows), rowId), today), false)
              && pendingDate == PendingDate(None, false, false, Some(ChopSignNo(rowId, warehouseId)))
      ensures rows == old(rows) && outbox == old(outbox) && selection == old(selection)
      ensures pendingBulk == old(pendingBulk) && testMode == old(testMode)
    {
      var rowId := dialog.rowId;
      pendingDate := PendingDate(None, false, false, Some(ChopSignNo(rowId, warehouseId)));
      dialog := AssignDate(rowId, StartDate(FindRow(rows, rowId), today), false);
    }

    method ChopSignNoWarehouseCancel()
      requires dialog.SelectChopSignWarehouse?
      modifies this
      ensures dialog == Idle
      ensures rows == old(rows) && outbox == old(outbox) && selection == old(selection)
      ensures pendingBulk == old(pendingBulk) && pendingDate == old(pendingDate) && testMode == old(testMode)
    {
      dialog := Idle;
    }

    /** "Yes, start over" on the same-status prompt. */
    method SameStatusStartOver()
      requires dialog.SameStatusPrompt?
      modifies this
      ensures Performed(old(dialog).rowId, Workflow.StartOver(old(dialog).rowId, old(dialog).status, true), old(pendingBulk))
      ensures selection == old(selection) && pendingDate == old(pendingDate) && testMode == old(testMode)
    {
      Perform(dialog.rowId, Workflow.StartOver(dialog.rowId, dialog.status, true), pendingBulk);
    }

    /** "No" on a confirmation, or the close of a notice or prompt that writes nothing. */
    method Dismiss()
      requires dialog.SameStatusPrompt? || dialog.RedeliverPrompt? || dialog.BacktrackToBilledPrompt?
               || dialog.ChangeStatusPrompt? || dialog.DeliveredBacktrackPrompt? || dialog.CompletedPrompt?
               || dialog.ShowNotice? || dialog.AttachmentPrompt? || dialog.InvoiceSearchDialog?
               || dialog.AddConfirmPrompt?
      modifies this
      ensures dialog == Idle
      ensures rows == old(rows) && outbox == old(outbox) && selection == old(selection)
      ensures pendingBulk == old(pendingBulk) && pendingDate == old(pendingDate) && testMode == old(testMode)
    {
      dialog := Idle;
    }

    /** `handleRearrangeDeliveryYes`: back to Preparing Delivery, offered to the selection. */
    method RedeliverYes()
      requires dialog.RedeliverPrompt?
      modifies this
      ensures var rowId := old(dialog).rowId;
              Performed(rowId, Outcome(if rowId != "" then Some(RedeliverPatch) else None,
                                       Some(if rowId != "" then RedeliverPatch else EmptyPatch), Idle),
                        old(pendingBulk))
      ensures selection == old(selection) && pendingDate == old(pendingDate) && testMode == old(testMode)
    {
      var rowId := dialog.rowId;
      Perform(rowId, Outcome(if rowId != "" then Some(RedeliverPatch) else None,
                             Some(if rowId != "" then RedeliverPatch else EmptyPatch), Idle), pendingBulk);
    }

    /** `handleBacktrackPhase2To1Yes`: back to Billed with the remembered remark. */
    method BacktrackToBilledYes()
      requires dialog.BacktrackToBilledPrompt?
      modifies this
      ensures var rowId := old(dialog).rowId;
              var row := FindRow(old(rows), rowId);
              Performed(rowId, if rowId != "" && row.Some? then Bulkable(BacktrackToBilledPatch(row.value.remarkAtBilled), Idle)
                               else Prompt(Idle),
                        old(pendingBulk))
      ensures selection == old(selection) && pendingDate == old(pendingDate) && testMode == old(testMode)
    {
      var rowId := dialog.rowId;
      var row := FindRow(rows, rowId);
      Perform(rowId, if rowId != "" && row.Some? then Bulkable(BacktrackToBilledPatch(row.value.remarkAtBilled), Idle)
                     else Prompt(Idle), pendingBulk);
    }

    /** `handlePhase3ToOtherPhase2Yes`: the re-entry reset, then the new status's own step. */
    method ChangeStatusYes()
      requires dialog.ChangeStatusPrompt?
      modifies this
      ensures var d := old(dialog);
              Performed(d.rowId, if d.rowId == "" then Prompt(Idle)
                                 else Bulkable(ReentryPatch(d.newStatus), ReentryDialog(d.rowId, d.newStatus, d.previousStatus, false)),
                        old(pendingBulk))
      ensures selection == old(selection) && pendingDate == old(pendingDate) && testMode == old(testMode)
    {
      var d := dialog;
      Perform(d.rowId, if d.rowId == "" then Prompt(Idle)
                       else Bulkable(ReentryPatch(d.newStatus), ReentryDialog(d.rowId, d.newStatus, d.previousStatus, false)),
              pendingBulk);
    }

    /** `handlePhase4BacktrackYes`: the re-entry reset with the remembered remark, then the new status's own step. */
    method DeliveredBacktrackYes()
      requires dialog.DeliveredBacktrackPrompt?
      modifies this
      ensures var d := old(dialog);
              var row := FindRow(old(rows), d.rowId);
              var remark := if row.Some? then row.value.remarkAtBilled else "";
              Performed(d.rowId, if d.rowId == "" then Prompt(Idle)
                                 else Bulkable(DeliveredBacktrackPatch(d.newStatus, remark),
                                               ReentryDialog(d.rowId, d.newStatus, d.previousStatus, true)),
                        old(pendingBulk))
      ensures selection == old(selection) && pendingDate == old(pendingDate) && testMode == old(testMode)
    {
      var d := dialog;
      var row := FindRow(rows, d.rowId);
      var remark := if row.Some? then row.value.remarkAtBilled else "";
      Perform(d.rowId, if d.rowId == "" then Prompt(Idle)
                       else Bulkable(DeliveredBacktrackPatch(d.newStatus, remark),
                                     ReentryDialog(d.rowId, d.newStatus, d.previousStatus, true)),
              pendingBulk);
    }

    /** `handleCompletedConfirmYes` */
    method CompletedYes()
      requires dialog.CompletedPrompt?
      modifies this
      ensures var rowId := old(dialog).rowId;
              Performed(rowId, Outcome(if rowId != "" then Some(CompletedPatch) else None, Some(CompletedPatch), Idle),
                        old(pendingBulk))
      ensures selection == old(selection) && pendingDate == old(pendingDate) && testMode == old(testMode)
    {
      var rowId := dialog.rowId;
      Perform(rowId, Outcome(if rowId != "" then Some(CompletedPatch) else None, Some(CompletedPatch), Idle), pendingBulk);
    }

    /** `handleChopSignWarehouseNo`: choose the warehouse that holds the document. */
    method ChopSignWarehouseNo()
      requires dialog.ChopSignWarehousePrompt?
      modifies this
      ensures dialog == SelectChopSignWarehouse(old(dialog).rowId, old(dialog).previousStatus)
      ensures rows == old(rows) && outbox == old(outbox) && selection == old(selection)
      ensures pendingBulk == old(pendingBulk) && pendingDate == old(pendingDate) && testMode == old(testMode)
    {
      dialog := SelectChopSignWarehouse(dialog.rowId, dialog.previousStatus);
    }

    /** `handleChopSignWarehouseYes`: the status without a driver, then the driver dialog. */
    method ChopSignWarehouseYes()
      requires dialog.ChopSignWarehousePrompt?
      modifies this
      ensures var d := old(dialog);
              Performed(d.rowId, Outcome(if d.rowId != "" then Some(ChopSignStartPatch) else None, None,
                                         SelectDriver(d.rowId, d.previousStatus, true)),
                        old(pendingBulk))
      ensures selection == old(selection) && pendingDate == old(pendingDate) && testMode == old(testMode)
    {
      var d := dialog;
      Perform(d.rowId, Outcome(if d.rowId != "" then Some(ChopSignStartPatch) else None, None,
                               SelectDriver(d.rowId, d.previousStatus, true)), pendingBulk);
    }

    /** The date input of the assign-date step; clearing it means today. */
    method AssignDateInput(value: string, today: string)
      requires dialog.AssignDate?
      modifies this
      ensures dialog == old(dialog).(selectedDate := if value != "" then value else today)
      ensures rows == old(rows) && outbox == old(outbox) && selection == old(selection)
      ensures pendingBulk == old(pendingBulk) && pendingDate == old(pendingDate) && testMode == old(testMode)
    {
      dialog := dialog.(selectedDate := if value != "" then value else today);
    }

    /** The decision of `handleAssignDateConfirm` once the date is known. */
    function AssignDateOutcome(pending: PendingDate, rowId: Id, row: Option<Row>, date: string): (o: Outcome)
      reads this
      ensures o.write.Some? && o.write.value.deliveryDate == Set(date) && o.write.value.deliverySlot == Set("")
      ensures o.dialog == SelectSlot(rowId) <==> pending.chopSignNo.None? && !pending.fromChopSignWarehouse && pending.fromDriver
      ensures o.bulk.None? <==> o.dialog == SelectSlot(rowId)
    {
      if pending.chopSignNo.Some? then
        Bulkable(ChopSignNoPatch(pending.chopSignNo.value.warehouseId, date, RemarkOf(row)), Idle)
      else if pending.fromChopSignWarehouse then
        Bulkable(ChopSignYesPatch(date, RemarkOf(row)), Idle)
      else if pending.fromDriver then
        Outcome(Some(DatePatch(date)), None, SelectSlot(rowId))
      else
        Outcome(Some(DatePatch(date)), Some(LeadRowPatch(row, date)),
                if kind == DeliveryOrders then AttachmentPrompt(rowId, NoAttachment) else Idle)
    }

    /**
     * `handleAssignDateConfirm`: the acting row is the one remembered by the
     * step that opened the dialog, or else the dialog's; a date that does not
     * parse aborts the handler before anything changes.
     */
    method AssignDateConfirm(today: string)
      requires dialog.AssignDate?
      modifies this
      ensures SavedDate(old(dialog).selectedDate, today).None? ==> unchanged(this)
      ensures var rowId := if old(pendingDate).rowId.Some? then old(pendingDate).rowId.value else old(dialog).rowId;
              var saved := SavedDate(old(dialog).selectedDate, today);
              saved.Some? ==>
                && pendingDate == NoPendingDate
                && Performed(rowId, if rowId == "" then Prompt(Idle)
                                    else AssignDateOutcome(old(pendingDate), rowId, FindRow(old(rows), rowId), saved.value),
                             old(pendingBulk))
      ensures selection == old(selection) && testMode == old(testMode)
    {
      var rowId := if pendingDate.rowId.Some? then pendingDate.rowId.value else dialog.rowId;
      var saved := SavedDate(dialog.selectedDate, today);
      if saved.Some? {
        var o := if rowId == "" then Prompt(Idle) else AssignDateOutcome(pendingDate, rowId, FindRow(rows, rowId), saved.value);
        pendingDate := NoPendingDate;
        Perform(rowId, o, pendingBulk);
      }
    }

    method AssignDateCancel()
      requires dialog.AssignDate?
      modifies this
      ensures dialog == Idle && pendingDate == NoPendingDate
      ensures rows == old(rows) && outbox == old(outbox) && selection == old(selection)
      ensures pendingBulk == old(pendingBulk) && testMode == old(testMode)
    {
      pendingDate := NoPendingDate;
      dialog := Idle;
    }

    /** `handlePreparingDeliveryTypeSelect`: salesman or driver. */
    method AssignToSelect(salesman: bool)
      requires dialog.AssignToPrompt?
      modifies this
      ensures dialog == if salesman then SelectSalesman(old(dialog).rowId, old(dialog).previousStatus)
                        else SelectDriver(old(dialog).rowId, old(dialog).previousStatus, false)
      ensures rows == old(rows) && outbox == old(outbox) && selection == old(selection)
      ensures pendingBulk == old(pendingBulk) && pendingDate == old(pendingDate) && testMode == old(testMode)
    {
      dialog := if salesman then SelectSalesman(dialog.rowId, dialog.previousStatus)
                else SelectDriver(dialog.rowId, dialog.previousStatus, false);
    }

    method AssignToCancel()
      requires dialog.AssignToPrompt?
      modifies this
      ensures Performed(old(dialog).rowId, Outcome(Some(AssignToCancelPatch(old(dialog).previousStatus)), None, Idle), old(pendingBulk))
      ensures selection == old(selection) && pendingDate == old(pendingDate) && testMode == old(testMode)
    {
      Perform(dialog.rowId, Outcome(Some(AssignToCancelPatch(dialog.previousStatus)), None, Idle), pendingBulk);
    }

    /** `handleDriverSelect`: the driver is written and the assign-date step opens, followed by the slot. */
    method DriverSelect(driverId: Id, today: string)
      requires dialog.SelectDriver?
      modifies this
      ensures var d := old(dialog);
              Performed(d.rowId, Outcome(Some(EmptyPatch.(assignedDriverId := Set(Some(driverId)))), None,
                                         AssignDate(d.rowId, StartDate(FindRow(old(rows), d.rowId), today), true)),
                        old(pendingBulk))
      ensures pendingDate == PendingDate(Some(old(dialog).rowId), true, old(dialog).fromChopSignWarehouse, None)
      ensures selection == old(selection) && testMode == old(testMode)
    {
      var d := dialog;
      var start := StartDate(FindRow(rows, d.rowId), today);
      Perform(d.rowId, Outcome(Some(EmptyPatch.(assignedDriverId := Set(Some(driverId)))), None, AssignDate(d.rowId, start, true)), pendingBulk);
      pendingDate := PendingDate(Some(d.rowId), true, d.fromChopSignWarehouse, None);
    }

    method DriverCancel()
      requires dialog.SelectDriver?
      modifies this
      ensures Performed(old(dialog).rowId, Outcome(Some(DriverCancelPatch(old(dialog).previousStatus)), None, Idle), old(pendingBulk))
      ensures selection == old(selection) && pendingDate == old(pendingDate) && testMode == old(testMode)
    {
      Perform(dialog.rowId, Outcome(Some(DriverCancelPatch(dialog.previousStatus)), None, Idle), pendingBulk);
    }

    /** `handleAdd…Proceed`: the confirmation opens only for a complete form. */
    method AddProceed(lines: seq<Entry>, applyDateToAll: bool)
      modifies this
      ensures ProceedAllowed(lines, applyDateToAll) ==> dialog == AddConfirmPrompt(Entries(lines, applyDateToAll))
      ensures !ProceedAllowed(lines, applyDateToAll) ==> dialog == old(dialog)
      ensures rows == old(rows) && outbox == old(outbox) && selection == old(selection)
      ensures pendingBulk == old(pendingBulk) && pendingDate == old(pendingDate) && testMode == old(testMode)
    {
      if ProceedAllowed(lines, applyDateToAll) {
        dialog := AddConfirmPrompt(Entries(lines, applyDateToAll));
      }
    }

    /** The storage inserts of new rows, appended in entry order; `ids` are the ids storage gives them. */
    method AppendRows(ids: seq<Id>, entries: seq<Entry>)
      requires |ids| >= |entries|
      modifies this
      ensures rows == old(rows) + NewRows(ids, entries)
      ensures outbox == old(outbox) + InsertCommands(NewRows(ids, entries))
      ensures dialog == old(dialog) && selection == old(selection)
      ensures pendingBulk == old(pendingBulk) && pendingDate == old(pendingDate) && testMode == old(testMode)
    {
      var i := 0;
      while i < |entries|
        invariant 0 <= i <= |entries|
        invariant rows == old(rows) + NewRows(ids, entries[..i])
        invariant outbox == old(outbox) + InsertCommands(NewRows(ids, entries[..i]))
        invariant dialog == old(dialog) && selection == old(selection)
        invariant pendingBulk == old(pendingBulk) && pendingDate == old(pendingDate) && testMode == old(testMode)
      {
        var r := NewRow(ids[i], entries[i].no, entries[i].date);
        assert NewRows(ids, entries[..i + 1]) == NewRows(ids, entries[..i]) + [r];
        assert InsertCommands(NewRows(ids, entries[..i + 1])) == InsertCommands(NewRows(ids, entries[..i])) + [InsertRow(r)];
        rows := rows + [r];
        outbox := outbox + [InsertRow(r)];
        i := i + 1;
      }
      assert entries[..i] == entries;
    }

    /**
     * `handleAdd…ConfirmYes`: entries whose number is already in the table
     * go through the overwrite prompt one by one; with none, the new rows
     * are inserted at once.
     */
    method AddConfirmYes(ids: seq<Id>)
      requires dialog.AddConfirmPrompt?
      requires |ids| >= |dialog.entries|
      modifies this
      ensures var c := Conflicts(old(rows), old(dialog).entries);
              var n := NonConflicting(old(rows), old(dialog).entries);
              if c != [] then dialog == OverwritePrompt(c, n, 0) && rows == old(rows) && outbox == old(outbox)
              else dialog == Idle && rows == old(rows) + NewRows(ids, n) && outbox == old(outbox) + InsertCommands(NewRows(ids, n))
      ensures selection == old(selection) && pendingBulk == old(pendingBulk)
      ensures pendingDate == old(pendingDate) && testMode == old(testMode)
    {
      var entries := dialog.entries;
      var conflicts, nonConflicting := Partition(rows, entries);
      if conflicts != [] {
        dialog := OverwritePrompt(conflicts, nonConflicting, 0);
      } else {
        PartitionSizes(rows, entries);
        AppendRows(ids, nonConflicting);
        dialog := Idle;
      }
    }

    /** Past the last conflict the non-conflicting entries are inserted and the add flow closes. */
    method NextConflict(ids: seq<Id>)
      requires dialog.OverwritePrompt?
      requires |ids| >= |dialog.nonConflicting|
      modifies this
      ensures var d := old(dialog);
              if d.index + 1 < |d.conflicts| then dialog == d.(index := d.index + 1) && rows == old(rows) && outbox == old(outbox)
              else dialog == Idle && rows == old(rows) + NewRows(ids, d.nonConflicting)
                   && outbox == old(outbox) + InsertCommands(NewRows(ids, d.nonConflicting))
      ensures selection == old(selection) && pendingBulk == old(pendingBulk)
      ensures pendingDate == old(pendingDate) && testMode == old(testMode)
    {
      var d := dialog;
      if d.index + 1 < |d.conflicts| {
        dialog := d.(index := d.index + 1);
      } else {
        AppendRows(ids, d.nonConflicting);
        dialog := Idle;
      }
    }

    /** `handleOverwrite…Yes`: the matched row is reset to Billed with the new number and date. */
    method OverwriteYes(ids: seq<Id>)
      requires dialog.OverwritePrompt? && dialog.index < |dialog.conflicts|
      requires |ids| >= |dialog.nonConflicting|
      modifies this
      ensures var d := old(dialog);
              var c := d.conflicts[d.index];
              var reset := UpdateRows(old(rows), c.existingRow.id, OverwritePatch(c.newEntry));
              var persisted := old(outbox) + PersistMerged(reset, c.existingRow.id);
              if d.index + 1 < |d.conflicts| then dialog == d.(index := d.index + 1) && rows == reset && outbox == persisted
              else dialog == Idle && rows == reset + NewRows(ids, d.nonConflicting)
                   && outbox == persisted + InsertCommands(NewRows(ids, d.nonConflicting))
      ensures selection == old(selection) && pendingBulk == old(pendingBulk)
      ensures pendingDate == old(pendingDate) && testMode == old(testMode)
    {
      var c := dialog.conflicts[dialog.index];
      UpdateRow(c.existingRow.id, OverwritePatch(c.newEntry));
      NextConflict(ids);
    }

    /** `handleOverwrite…No`: the matched row is left alone. */
    method OverwriteNo(ids: seq<Id>)
      requires dialog.OverwritePrompt?
      requires |ids| >= |dialog.nonConflicting|
      modifies this
      ensures var d := old(dialog);
              if d.index + 1 < |d.conflicts| then dialog == d.(index := d.index + 1) && rows == old(rows) && outbox == old(outbox)
              else dialog == Idle && rows == old(rows) + NewRows(ids, d.nonConflicting)
                   && outbox == old(outbox) + InsertCommands(NewRows(ids, d.nonConflicting))
      ensures selection == old(selection) && pendingBulk == old(pendingBulk)
      ensures pendingDate == old(pendingDate) && testMode == old(testMode)
    {
      NextConflict(ids);
    }

    /** Closing the add form also closes its confirmation and overwrite prompts. */
    method AddFormClose()
      modifies this
      ensures dialog == if old(dialog).AddConfirmPrompt? || old(dialog).OverwritePrompt? then Idle else old(dialog)
      ensures rows == old(rows) && outbox == old(outbox) && selection == old(selection)
      ensures pendingBulk == old(pendingBulk) && pendingDate == old(pendingDate) && testMode == old(testMode)
    {
      if dialog.AddConfirmPrompt? || dialog.OverwritePrompt? {
        dialog := Idle;
      }
    }

    /** The attachment prompt's radio buttons. */
    method AttachmentChoose(choice: AttachmentChoice)
      requires kind == DeliveryOrders && dialog.AttachmentPrompt?
      modifies this
      ensures dialog == old(dialog).(choice := choice)
      ensures rows == old(rows) && outbox == old(outbox) && selection == old(selection)
      ensures pendingBulk == old(pendingBulk) && pendingDate == old(pendingDate) && testMode == old(testMode)
    {
      dialog := dialog.(choice := choice);
    }

    /**
     * `handleAttachmentOk`: with an invoice chosen, the search dialog opens
     * over `invoices` (the list storage returns) with the order row as it is
     * now.
     */
    method AttachmentOk(invoices: seq<InvoiceRef>)
      requires kind == DeliveryOrders && dialog.AttachmentPrompt?
      modifies this
      ensures var d := old(dialog);
              dialog == if d.rowId == "" || d.choice == NoAttachment then Idle
                        else InvoiceSearchDialog(d.rowId, d.choice, FindRow(old(rows), d.rowId), invoices, "", None)
      ensures rows == old(rows) && outbox == old(outbox) && selection == old(selection)
      ensures pendingBulk == old(pendingBulk) && pendingDate == old(pendingDate) && testMode == old(testMode)
    {
      var d := dialog;
      dialog := if d.rowId == "" || d.choice == NoAttachment then Idle
                else InvoiceSearchDialog(d.rowId, d.choice, FindRow(rows, d.rowId), invoices, "", None);
    }

    /** Typing in the search box drops an explicit pick. */
    method InvoiceQuery(query: string)
      requires dialog.InvoiceSearchDialog?
      modifies this
      ensures dialog == old(dialog).(query := query, selectedId := None)
      ensures rows == old(rows) && outbox == old(outbox) && selection == old(selection)
      ensures pendingBulk == old(pendingBulk) && pendingDate == old(pendingDate) && testMode == old(testMode)
    {
      dialog := dialog.(query := query, selectedId := None);
    }

    method InvoicePick(invoiceId: Id)
      requires dialog.InvoiceSearchDialog?
      modifies this
      ensures dialog == old(dialog).(selectedId := Some(invoiceId))
      ensures rows == old(rows) && outbox == old(outbox) && selection == old(selection)
      ensures pendingBulk == old(pendingBulk) && pendingDate == old(pendingDate) && testMode == old(testMode)
    {
      dialog := dialog.(selectedId := Some(invoiceId));
    }

    /**
     * `handleInvoiceSearchConfirm`: an original invoice takes the order's
     * status, assignees, date and slot in storage and a notice confirms it;
     * a copy is referred to in the order's remark. With no invoice chosen
     * for an original or a copy the dialog stays open; without an
     * attachment type it closes whatever is chosen.
     */
    method InvoiceSearchConfirm()
      requires dialog.InvoiceSearchDialog?
      modifies this
      ensures var d := old(dialog);
              d.forRowId == "" || d.orderRow.None? ==> rows == old(rows) && outbox == old(outbox) && dialog == Idle
      ensures var d := old(dialog);
              var chosen := ChosenInvoice(d.list, d.query, d.selectedId);
              d.forRowId != "" && d.orderRow.Some? && d.attachment != NoAttachment && chosen.None? ==> unchanged(this)
      ensures var d := old(dialog);
              d.forRowId != "" && d.orderRow.Some? && d.attachment == NoAttachment ==>
                rows == old(rows) && outbox == old(outbox) && dialog == Idle
      ensures var d := old(dialog);
              var chosen := ChosenInvoice(d.list, d.query, d.selectedId);
              d.forRowId != "" && d.orderRow.Some? && chosen.Some? ==>
                var inv := chosen.value;
                var no := if inv.invoiceNo != "" then inv.invoiceNo else inv.id;
                var order := d.orderRow.value;
                && (d.attachment == OriginalInvoice ==>
                      rows == old(rows)
                      && outbox == old(outbox) + [UpdateInvoice(inv.id, order.status, order.assignedDriverId, order.assignedSalesmanId,
                                                                order.deliveryDate, order.deliverySlot)]
                      && dialog == ShowNotice(InvoiceAttached(no, if order.docNo != "" then order.docNo else d.forRowId)))
                && (d.attachment == CopyInvoice ==>
                      Performed(d.forRowId,
                                Outcome(Some(EmptyPatch.(remark := Set(AppendRemark(RemarkOf(FindRow(old(rows), d.forRowId)), "Refer Invoice " + no)))),
                                        None, Idle),
                                old(pendingBulk)))
      ensures selection == old(selection) && pendingBulk == old(pendingBulk)
      ensures pendingDate == old(pendingDate) && testMode == old(testMode)
    {
      var d := dialog;
      if d.forRowId == "" || d.orderRow.None? {
        dialog := Idle;
        return;
      }
      var chosen := ChosenInvoice(d.list, d.query, d.selectedId);
      if d.attachment == NoAttachment {
        dialog := Idle;
        return;
      }
      if chosen.None? {
        return;
      }
      var inv := chosen.value;
      var no := if inv.invoiceNo != "" then inv.invoiceNo else inv.id;
      var order := d.orderRow.value;
      if d.attachment == OriginalInvoice {
        outbox := outbox + [UpdateInvoice(inv.id, order.status, order.assignedDriverId, order.assignedSalesmanId,
                                          order.deliveryDate, order.deliverySlot)];
        dialog := ShowNotice(InvoiceAttached(no, if order.docNo != "" then order.docNo else d.forRowId));
      } else {
        var remark := AppendRemark(RemarkOf(FindRow(rows, d.forRowId)), "Refer Invoice " + no);
        Perform(d.forRowId, Outcome(Some(EmptyPatch.(remark := Set(remark))), None, Idle), pendingBulk);
      }
    }
  }
}
