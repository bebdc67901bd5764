/**
 * The modal state of a tracking page. The pages keep one record per modal
 * (`salesmanModal`, `assignDateModal`, `bulkApplyConfirmModal`, …); at most
 * one of them is in use at a time, so they are folded here into a single
 * tagged union whose payload is the data the modal resumes with.
 */
module Dialogs {
  import opened Options
  import opened Statuses
  import opened Rows
  import opened AddDocuments
  import opened InvoiceSearch
  import opened Lookup

  /** The notices a page can show. */
  datatype Notice =
    | DeliveredPrerequisitesMissing
    | CompletedLocked
    | InvoiceAttached(invoiceNo: string, orderNo: string)

  /** The three choices of the delivery-order attachment prompt. */
  datatype AttachmentChoice = NoAttachment | OriginalInvoice | CopyInvoice

  datatype Dialog =
    | Idle
    | ShowNotice(notice: Notice)
    | SameStatusPrompt(rowId: Id, status: Status)
    | BacktrackToBilledPrompt(rowId: Id)
    | DeliveredBacktrackPrompt(rowId: Id, newStatus: Status, previousStatus: Status)
    | ChangeStatusPrompt(rowId: Id, newStatus: Status, previousStatus: Status)
    | RedeliverPrompt(rowId: Id)
    | CompletedPrompt(rowId: Id)
    | ChopSignWarehousePrompt(rowId: Id, previousStatus: Status)
    | AssignToPrompt(rowId: Id, previousStatus: Status)
    | SelectSalesman(rowId: Id, previousStatus: Status)
    | SelectClerk(rowId: Id, previousStatus: Status)
    | SelectDriver(rowId: Id, previousStatus: Status, fromChopSignWarehouse: bool)
    | SelectTransferWarehouse(rowId: Id, previousStatus: Status)
    | SelectHoldWarehouse(rowId: Id, previousStatus: Status)
    | SelectChopSignWarehouse(rowId: Id, previousStatus: Status)
    | SelectHoldType(rowId: Id, warehouseId: Id, warehouseName: string, previousStatus: Status)
    | AssignDate(rowId: Id, selectedDate: string, fromDriver: bool)
    | SelectSlot(rowId: Id)
    | EditDiscrepancy(rowId: Id, title: string, description: string)
      /** The bulk prompt, and the dialog its `onApplied` continuation opens. */
    | BulkApplyPrompt(rowIds: seq<Id>, payload: Patch, next: Dialog)
    | AddConfirmPrompt(entries: seq<Entry>)
    | OverwritePrompt(conflicts: seq<Conflict>, nonConflicting: seq<Entry>, index: nat)
    | AttachmentPrompt(rowId: Id, choice: AttachmentChoice)
    | InvoiceSearchDialog(forRowId: Id, attachment: AttachmentChoice, orderRow: Option<Row>,
                          list: seq<InvoiceRef>, query: string, selectedId: Option<Id>)

  /** The warehouse a Chop & Sign "no" answer chose, for the assign-date step. */
  datatype ChopSignNo = ChopSignNo(rowId: Id, warehouseId: Id)

  /** `assignDatePendingRef`: how the open assign-date step was reached. */
  datatype PendingDate = PendingDate(
    rowId: Option<Id>,
    fromDriver: bool,
    fromChopSignWarehouse: bool,
    chopSignNo: Option<ChopSignNo>)

  const NoPendingDate := PendingDate(None, false, false, None)

  /** An entry of the warehouse list the pages read from their context. */
  datatype Warehouse = Warehouse(id: Id, name: Option<string>)

  /** `warehouses.find((w) => w.id === id)` */
  function FindWarehouse(ws: seq<Warehouse>, id: Id): (w: Option<Warehouse>)
    ensures w.Some? ==> w.value in ws && w.value.id == id
    ensures w.None? <==> forall x :: x in ws ==> x.id != id
  {
    FindFirst(ws, (x: Warehouse) => x.id, id)
  }
}
