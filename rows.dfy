/**
 * Tracking rows (credit notes, delivery orders, invoices) and the partial
 * updates the pages merge into them.
 *
 * A page keeps its rows in a list; `updateRow(id, updates)` replaces every
 * row whose id matches by `{ ...row, ...updates }` and hands the merged row
 * to the storage adapter. A `Patch` is such an `updates` object: each field
 * is either absent (`Keep`) or present with a value (`Set`).
 */
module Rows {
  import opened Options
  import opened Text
  import opened Statuses

  type Id = string

  /** A field of an `updates` object: absent, or present with a value (`null` is `Set(None)`). */
  datatype Upd<T> = Keep | Set(value: T)

  function Merge<T>(u: Upd<T>, current: T): T
  {
    match u
    case Keep => current
    case Set(v) => v
  }

  datatype Discrepancy = Discrepancy(checked: bool, title: string, description: string)

  /** `defaultDiscrepancy()` */
  const NoDiscrepancy := Discrepancy(false, "", "")

  /**
   * One tracked document. The optional ids are `null` when unassigned;
   * `holdWarehouseType` is `''` on a new row, `null` after a Keruing hold
   * and "KIV" or "Self Collect" after a typed hold.
   */
  datatype Row = Row(
    id: Id,
    docNo: string,
    docDate: string,
    numberAndDateLocked: bool,
    status: Status,
    assignedDriverId: Option<Id>,
    assignedSalesmanId: Option<Id>,
    assignedClerkId: Option<Id>,
    transferWarehouseId: Option<Id>,
    holdWarehouseId: Option<Id>,
    holdWarehouseType: Option<string>,
    deliveryDate: string,
    deliverySlot: string,
    remark: string,
    remarkAtBilled: string,
    discrepancy: Discrepancy)

  /** The fields an `updates` object may carry (the id is never updated). */
  datatype Patch = Patch(
    docNo: Upd<string>,
    docDate: Upd<string>,
    status: Upd<Status>,
    assignedDriverId: Upd<Option<Id>>,
    assignedSalesmanId: Upd<Option<Id>>,
    assignedClerkId: Upd<Option<Id>>,
    transferWarehouseId: Upd<Option<Id>>,
    holdWarehouseId: Upd<Option<Id>>,
    holdWarehouseType: Upd<Option<string>>,
    deliveryDate: Upd<string>,
    deliverySlot: Upd<string>,
    remark: Upd<string>,
    remarkAtBilled: Upd<string>,
    discrepancy: Upd<Discrepancy>)

  /** `{}` */
  const EmptyPatch := Patch(Keep, Keep, Keep, Keep, Keep, Keep, Keep, Keep, Keep, Keep, Keep, Keep, Keep, Keep)

  /** A JavaScript truthiness test on an optional id: present and not the empty string. */
  predicate Assigned(o: Option<Id>)
  {
    o.Some? && o.value != ""
  }

  /** `{ ...row, ...updates }` */
  function Apply(r: Row, p: Patch): (r': Row)
    ensures r'.id == r.id && r'.numberAndDateLocked == r.numberAndDateLocked
  {
    Row(r.id,
        Merge(p.docNo, r.docNo),
        Merge(p.docDate, r.docDate),
        r.numberAndDateLocked,
        Merge(p.status, r.status),
        Merge(p.assignedDriverId, r.assignedDriverId),
        Merge(p.assignedSalesmanId, r.assignedSalesmanId),
        Merge(p.assignedClerkId, r.assignedClerkId),
        Merge(p.transferWarehouseId, r.transferWarehouseId),
        Merge(p.holdWarehouseId, r.holdWarehouseId),
        Merge(p.holdWarehouseType, r.holdWarehouseType),
        Merge(p.deliveryDate, r.deliveryDate),
        Merge(p.deliverySlot, r.deliverySlot),
        Merge(p.remark, r.remark),
        Merge(p.remarkAtBilled, r.remarkAtBilled),
        Merge(p.discrepancy, r.discrepancy))
  }

  /** Merging an empty update changes nothing. */
  lemma ApplyEmpty(r: Row)
    ensures Apply(r, EmptyPatch) == r
  {
  }

  /** Merging the same update twice is merging it once. */
  lemma ApplyIdempotent(r: Row, p: Patch)
    ensures Apply(Apply(r, p), p) == Apply(r, p)
  {
  }

  /** `prev.map((row) => (row.id === id ? { ...row, ...updates } : row))` */
  function UpdateRows(rows: seq<Row>, id: Id, p: Patch): (next: seq<Row>)
    ensures |next| == |rows|
    ensures forall i :: 0 <= i < |rows| ==> next[i].id == rows[i].id
  {
    seq(|rows|, i requires 0 <= i < |rows| => if rows[i].id == id then Apply(rows[i], p) else rows[i])
  }

  /** The ids of a list of rows, in order. */
  function Ids(rows: seq<Row>): (ids: seq<Id>)
    ensures |ids| == |rows| && forall i :: 0 <= i < |rows| ==> ids[i] == rows[i].id
  {
    seq(|rows|, i requires 0 <= i < |rows| => rows[i].id)
  }

  /** The rows after a handler's `updateRow` on `id`, if it makes one. */
  function Written(rows: seq<Row>, id: Id, write: Option<Patch>): (next: seq<Row>)
    ensures Ids(next) == Ids(rows)
  {
    if write.Some? then UpdateRows(rows, id, write.value) else rows
  }

  /** `rows.find((r) => r.id === id)`: the first row with that id. */
  function FindRow(rows: seq<Row>, id: Id): (r: Option<Row>)
    ensures r.Some? ==> r.value in rows && r.value.id == id
    ensures r.None? <==> id !in Ids(rows)
    decreases |rows|
  {
    if rows == [] then None
    else if rows[0].id == id then Some(rows[0])
    else FindRow(rows[1..], id)
  }

  /** After `updateRow`, looking the row up finds the old row with the update merged in. */
  lemma {:induction false} FindAfterUpdate(rows: seq<Row>, id: Id, p: Patch)
    requires id in Ids(rows)
    ensures FindRow(UpdateRows(rows, id, p), id) == Some(Apply(FindRow(rows, id).value, p))
    decreases |rows|
  {
    if rows[0].id != id {
      assert Ids(rows[1..]) == Ids(rows)[1..];
      assert UpdateRows(rows, id, p)[1..] == UpdateRows(rows[1..], id, p);
      FindAfterUpdate(rows[1..], id, p);
    }
  }

  /** `rows.filter((row) => row.id !== id)` */
  function RemoveRows(rows: seq<Row>, id: Id): (rest: seq<Row>)
    ensures id !in Ids(rest)
    ensures forall r :: r in rest <==> r in rows && r.id != id
    decreases |rows|
  {
    if rows == [] then []
    else if rows[0].id == id then RemoveRows(rows[1..], id)
    else [rows[0]] + RemoveRows(rows[1..], id)
  }

  /**
   * `rowIds.forEach((id) => updateRow(id, payload))`: the bulk update, each
   * id merged into the result of the previous ones.
   */
  function UpdateEach(rows: seq<Row>, ids: seq<Id>, p: Patch): (next: seq<Row>)
    ensures |next| == |rows|
    ensures forall i :: 0 <= i < |rows| ==> next[i].id == rows[i].id
    decreases |ids|
  {
    if ids == [] then rows
    else UpdateRows(UpdateEach(rows, ids[..|ids| - 1], p), ids[|ids| - 1], p)
  }

  /**
   * A bulk update merges the payload into exactly the rows whose id was
   * selected, once, and leaves every other row as it was.
   */
  lemma {:induction false} UpdateEachPointwise(rows: seq<Row>, ids: seq<Id>, p: Patch)
    ensures |UpdateEach(rows, ids, p)| == |rows|
    ensures forall i :: 0 <= i < |rows| ==>
              UpdateEach(rows, ids, p)[i] == if rows[i].id in ids then Apply(rows[i], p) else rows[i]
    decreases |ids|
  {
    if ids != [] {
      var front := ids[..|ids| - 1];
      var last := ids[|ids| - 1];
      UpdateEachPointwise(rows, front, p);
      assert ids == front + [last];
      forall i | 0 <= i < |rows|
        ensures UpdateEach(rows, ids, p)[i] == if rows[i].id in ids then Apply(rows[i], p) else rows[i]
      {
        if rows[i].id in front && rows[i].id == last {
          ApplyIdempotent(rows[i], p);
        }
      }
    }
  }

  /** `createCreditNote({ creditNoteNo, creditNoteDate })` / `createDeliveryOrder(...)` / `createInvoice(...)`. */
  function NewRow(id: Id, no: string, date: string): (r: Row)
    ensures r.status == Billed && Phase(r.status) == 1
    ensures r.id == id && r.docNo == no && r.docDate == date
    ensures r.assignedDriverId.None? && r.assignedSalesmanId.None? && r.assignedClerkId.None?
    ensures r.transferWarehouseId.None? && r.holdWarehouseId.None?
    ensures r.deliveryDate == "" && r.deliverySlot == "" && r.remark == "" && r.remarkAtBilled == ""
  {
    Row(id, no, date, false, Billed, None, None, None, None, None, Some(""), "", "", "", "", NoDiscrepancy)
  }

  /** A storage-adapter call a handler makes; the adapters themselves are not part of this model. */
  datatype Command =
    | InsertRow(row: Row)
    | UpdateStored(id: Id, row: Row)
    | DeleteStored(id: Id)
    | UpdateInvoice(invoiceId: Id, status: Status, assignedDriverId: Option<Id>,
                    assignedSalesmanId: Option<Id>, deliveryDate: string, deliverySlot: string)

  /**
   * The persistence step of the credit-note and delivery-order `updateRow`:
   * the merged row is written when found, as an update if it already has a
   * `local_` storage id and as an insert otherwise.
   */
  function PersistMerged(next: seq<Row>, id: Id): (cmds: seq<Command>)
    ensures |cmds| <= 1
    ensures cmds != [] <==> id in Ids(next)
    ensures forall c :: c in cmds ==> (c.UpdateStored? && HasPrefix(id, "local_")) || (c.InsertRow? && !HasPrefix(id, "local_"))
  {
    match FindRow(next, id)
    case None => []
    case Some(row) => if HasPrefix(id, "local_") then [UpdateStored(id, row)] else [InsertRow(row)]
  }

  /** The commands a bulk update emits, one `updateRow` after another. */
  function PersistEach(rows: seq<Row>, ids: seq<Id>, p: Patch): (cmds: seq<Command>)
    ensures |cmds| <= |ids|
    decreases |ids|
  {
    if ids == [] then []
    else
      var front := ids[..|ids| - 1];
      var last := ids[|ids| - 1];
      PersistEach(rows, front, p) + PersistMerged(UpdateRows(UpdateEach(rows, front, p), last, p), last)
  }
}
