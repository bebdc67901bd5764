/**
 * The decisions of the invoice page, the older variant of the workflow: no
 * phases, no bulk apply, no remembered remark, and a Delivered gate that
 * wants a driver, a date and a slot.
 */
module InvoiceWorkflow {
  import opened Options
  import opened Text
  import opened Statuses
  import opened Rows
  import opened Dialogs
  import opened Workflow

  /**
   * The invoice page's Delivered prerequisites: a driver, a delivery date
   * and a slot. It is stricter than the phase-aware pages' gate.
   */
  predicate InvoiceDeliveredReady(row: Row)
    ensures InvoiceDeliveredReady(row) ==> DeliveredReady(row)
  {
    Assigned(row.assignedDriverId) && row.deliveryDate != "" && row.deliverySlot != ""
  }

  /** `handleStatusChange` of the invoice page on the row the event names. */
  function InvoiceStatusChange(row: Row, newStatus: Status, previousStatus: Status): (o: Outcome)
    ensures o.bulk.None?
    ensures o.write.Some? ==> o.write.value.remarkAtBilled.Keep?
  {
    if newStatus == row.status then Prompt(SameStatusPrompt(row.id, newStatus))
    else if newStatus == Delivered && !InvoiceDeliveredReady(row) then Prompt(ShowNotice(DeliveredPrerequisitesMissing))
    else if newStatus == PreparingDelivery && row.status == DeliveryInProgress then Prompt(RedeliverPrompt(row.id))
    else if newStatus == Completed then Prompt(CompletedPrompt(row.id))
    else
      var base := EmptyPatch.(status := Set(newStatus));
      if newStatus == DeliveryInProgress then
        Outcome(Some(base.(assignedSalesmanId := Set(None), assignedDriverId := Set(None))), None,
                AssignToPrompt(row.id, previousStatus))
      else if RequiresSalesman(newStatus) then
        Outcome(Some(base.(assignedDriverId := Set(None))), None, SelectSalesman(row.id, previousStatus))
      else if RequiresClerk(newStatus) then
        Outcome(Some(base.(assignedDriverId := Set(None))), None, SelectClerk(row.id, previousStatus))
      else if newStatus == Transfer then
        Outcome(Some(base), None, SelectTransferWarehouse(row.id, previousStatus))
      else if newStatus == HoldWarehouse then
        Outcome(Some(base.(assignedDriverId := Set(None))), None, SelectHoldWarehouse(row.id, previousStatus))
      else
        Outcome(Some(DefaultPatch(newStatus, Keep)), None, Idle)
  }

  /** Choosing the row's current status writes nothing and only opens the same-status prompt. */
  lemma InvoiceSameStatusOnlyPrompts(row: Row, previousStatus: Status)
    ensures InvoiceStatusChange(row, row.status, previousStatus) == Prompt(SameStatusPrompt(row.id, row.status))
  {
  }

  /**
   * Delivered is written exactly when the row is not already Delivered and
   * has a driver, a date and a slot; a salesman does not stand in for the
   * driver here.
   */
  lemma InvoiceDeliveredGate(row: Row, previousStatus: Status)
    ensures InvoiceStatusChange(row, Delivered, previousStatus).write.Some? <==>
              row.status != Delivered && InvoiceDeliveredReady(row)
    ensures InvoiceStatusChange(row, Delivered, previousStatus).write.Some? ==>
              Apply(row, InvoiceStatusChange(row, Delivered, previousStatus).write.value) ==
              row.(status := Delivered, assignedSalesmanId := None, assignedClerkId := None, transferWarehouseId := None)
  {
    HoldOrChopTable(Delivered);
  }

  /** A row with a salesman and a date but no driver passes the phase-aware gate and fails the invoice gate. */
  lemma {:induction false} SalesmanAloneNotEnoughForInvoices()
    ensures var row := NewRow("1", "INV-001", "2025-02-20").(
                         status := PreparingDelivery, assignedSalesmanId := Some("s"),
                         deliveryDate := "2025-03-01", deliverySlot := "Morning");
            DeliveredReady(row) && !InvoiceDeliveredReady(row)
            && InvoiceStatusChange(row, Delivered, PreparingDelivery).write.None?
            && StatusChange(row, Delivered, PreparingDelivery, false).write.Some?
  {
    var row := NewRow("1", "INV-001", "2025-02-20").(
                 status := PreparingDelivery, assignedSalesmanId := Some("s"),
                 deliveryDate := "2025-03-01", deliverySlot := "Morning");
    assert Phase(row.status) == 2 && Phase(Delivered) == 4;
  }

  /**
   * The invoice page has no phase guards: a Completed row can be set back
   * to Billed (its dropdown is only hidden outside test mode), and Delivered
   * can be left for any phase-2 status without a confirmation.
   */
  lemma InvoiceHasNoPhaseGuards(row: Row, newStatus: Status, previousStatus: Status)
    ensures row.status == Completed && newStatus == Billed ==>
              InvoiceStatusChange(row, newStatus, previousStatus).write.Some?
    ensures row.status == Delivered && Phase(newStatus) == 2 && newStatus != ChopSignWarehouse ==>
              InvoiceStatusChange(row, newStatus, previousStatus).write.Some?
              && Apply(row, InvoiceStatusChange(row, newStatus, previousStatus).write.value).status == newStatus
  {
    PhaseTable(newStatus);
  }

  /**
   * The only confirmation on the way back is Delivery In Progress to
   * Preparing Delivery; other phase-2 targets are written directly.
   */
  lemma InvoiceRedeliverOnly(row: Row, newStatus: Status, previousStatus: Status)
    ensures InvoiceStatusChange(row, newStatus, previousStatus).dialog.RedeliverPrompt? <==>
              row.status == DeliveryInProgress && newStatus == PreparingDelivery
    ensures !InvoiceStatusChange(row, newStatus, previousStatus).dialog.ChangeStatusPrompt?
  {
    var d := InvoiceStatusChange(row, newStatus, previousStatus).dialog;
    if newStatus == row.status {
      assert d.SameStatusPrompt?;
    } else if newStatus == Delivered && !InvoiceDeliveredReady(row) {
      assert d.ShowNotice?;
    } else if newStatus == PreparingDelivery && row.status == DeliveryInProgress {
      assert d.RedeliverPrompt?;
    } else if newStatus == Completed {
      assert d.CompletedPrompt?;
    } else {
      assert !d.RedeliverPrompt? && !d.ChangeStatusPrompt?;
    }
  }

  /**
   * Chop & Sign - Warehouse has no prompt on the invoice page: it takes the
   * final branch, which clears salesman, clerk, transfer warehouse and driver.
   */
  lemma InvoiceChopSignWarehouseDirect(row: Row, previousStatus: Status)
    requires row.status != ChopSignWarehouse
    ensures var o := InvoiceStatusChange(row, ChopSignWarehouse, previousStatus);
            o.write.Some? && o.dialog == Idle
            && Apply(row, o.write.value) ==
               row.(status := ChopSignWarehouse, assignedSalesmanId := None, assignedClerkId := None,
                    transferWarehouseId := None, assignedDriverId := None)
  {
    HoldOrChopTable(ChopSignWarehouse);
  }

  /** `handleHoldWarehouseTypeSelect` of the invoice page: the remark is left alone. */
  function InvoiceHoldTypePatch(warehouseId: Id, holdType: string, today: string): (p: Patch)
    ensures p.remark.Keep? && p.remarkAtBilled.Keep?
  {
    EmptyPatch.(
      status := Set(HoldWarehouse), holdWarehouseId := Set(Some(warehouseId)), holdWarehouseType := Set(Some(holdType)),
      assignedDriverId := Set(None), deliveryDate := Set(today), deliverySlot := Set(""))
  }

  /** The invoice hold type differs from the phase-aware one only in not touching the remark. */
  lemma InvoiceHoldTypeKeepsRemark(row: Row, warehouseId: Id, holdType: string, today: string)
    ensures Apply(row, InvoiceHoldTypePatch(warehouseId, holdType, today)) ==
            Apply(row, HoldTypePatch(warehouseId, holdType, today, row.remark)).(remark := row.remark)
  {
  }

  predicate IsHexDigit(c: char)
  {
    '0' <= c <= '9' || 'a' <= c <= 'f' || 'A' <= c <= 'F'
  }

  /** The positions of the four dashes in a UUID. */
  predicate IsDashPosition(i: int)
  {
    i == 8 || i == 13 || i == 18 || i == 23
  }

  /** `isSupabaseId`: a UUID in 8-4-4-4-12 hexadecimal groups, either letter case. */
  predicate IsSupabaseId(id: string)
  {
    |id| == 36 && forall i :: 0 <= i < 36 ==> if IsDashPosition(i) then id[i] == '-' else IsHexDigit(id[i])
  }

  /** Ids the page makes up itself (a timestamp, or a `local_` id) are never taken for stored ids. */
  lemma LocalIdsAreNotStored(id: string)
    ensures HasPrefix(id, "local_") ==> !IsSupabaseId(id)
    ensures '-' !in id ==> !IsSupabaseId(id)
  {
    if HasPrefix(id, "local_") && |id| == 36 {
      assert id[0] == 'l' && !IsDashPosition(0);
    }
    if '-' !in id && |id| == 36 {
      assert IsDashPosition(8) && id[8] != '-';
    }
  }

  /** Stored ids are recognised in either letter case: lower-casing an id does not change the verdict. */
  lemma {:induction false} UuidIgnoresCase(id: string)
    ensures IsSupabaseId(ToLower(id)) <==> IsSupabaseId(id)
  {
    var low := ToLower(id);
    if |id| == 36 {
      forall i | 0 <= i < 36
        ensures (if IsDashPosition(i) then low[i] == '-' else IsHexDigit(low[i])) <==>
                (if IsDashPosition(i) then id[i] == '-' else IsHexDigit(id[i]))
      {
        assert low[i] == LowerChar(id[i]);
      }
    }
  }
}
