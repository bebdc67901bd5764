/**
 * Adding documents on the credit-note and delivery-order pages: the lines
 * of the add form become entries, entries whose number is already in the
 * table become overwrite conflicts, and an overwrite resets the matched row.
 */
module AddDocuments {
  import opened Options
  import opened Text
  import opened Statuses
  import opened Rows

  /** One line of the add form, and one normalised entry: a document number and its date. */
  datatype Entry = Entry(no: string, date: string)

  /** `addRows[0]?.date || ''` */
  function FirstDate(lines: seq<Entry>): string
  {
    if lines == [] then "" else lines[0].date
  }

  /** The form lines whose number is not blank, in form order. */
  function Numbered(lines: seq<Entry>): (kept: seq<Entry>)
    ensures |kept| <= |lines|
    ensures forall l :: l in kept <==> l in lines && Trim(l.no) != ""
    decreases |lines|
  {
    if lines == [] then []
    else if Trim(lines[0].no) != "" then [lines[0]] + Numbered(lines[1..])
    else Numbered(lines[1..])
  }

  /** One form line is kept exactly when its number is not blank. */
  lemma NumberedOne(l: Entry)
    ensures Numbered([l]) == if Trim(l.no) != "" then [l] else []
  {
    assert [l][1..] == [];
  }

  /**
   * `.filter` keeps the form order and repeated lines: filtering a
   * concatenation filters each part. With `NumberedOne` this pins the
   * filter down exactly.
   */
  lemma {:induction false} NumberedConcat(a: seq<Entry>, b: seq<Entry>)
    ensures Numbered(a + b) == Numbered(a) + Numbered(b)
    decreases |a|
  {
    if a == [] {
      assert a + b == b;
    } else {
      var h, t := a[0], a[1..];
      assert (a + b)[0] == h;
      assert (a + b)[1..] == t + b;
      NumberedConcat(t, b);
      if Trim(h.no) != "" {
        calc {
          Numbered(a + b);
          [h] + Numbered(t + b);
          [h] + (Numbered(t) + Numbered(b));
          ([h] + Numbered(t)) + Numbered(b);
          Numbered(a) + Numbered(b);
        }
      }
    }
  }

  /**
   * `getAddCreditNoteEntries` / `getAddDeliveryOrderEntries`: each line with
   * a non-blank number, its number trimmed, dated by the first line's date
   * when the date applies to all and by its own date otherwise.
   */
  function Entries(lines: seq<Entry>, applyDateToAll: bool): (es: seq<Entry>)
    ensures |es| == |Numbered(lines)|
    ensures forall i :: 0 <= i < |es| ==>
              es[i].no == Trim(Numbered(lines)[i].no)
              && es[i].date == if applyDateToAll then FirstDate(lines) else Numbered(lines)[i].date
  {
    var kept := Numbered(lines);
    seq(|kept|, i requires 0 <= i < |kept| =>
      Entry(Trim(kept[i].no), if applyDateToAll then FirstDate(lines) else kept[i].date))
  }

  /** Every entry has a non-blank number with nothing left to trim. */
  lemma EntriesTrimmed(lines: seq<Entry>, applyDateToAll: bool)
    ensures forall e :: e in Entries(lines, applyDateToAll) ==> e.no != "" && Trim(e.no) == e.no
  {
    var es := Entries(lines, applyDateToAll);
    var kept := Numbered(lines);
    forall i | 0 <= i < |es|
      ensures es[i].no != "" && Trim(es[i].no) == es[i].no
    {
      assert kept[i] in kept;
      TrimIdempotent(kept[i].no);
    }
  }

  /**
   * `handleAdd…Proceed`: the confirmation opens only when there is an entry,
   * and either apply-to-all is on with a first date, or every entry has its
   * own date.
   */
  predicate ProceedAllowed(lines: seq<Entry>, applyDateToAll: bool)
    ensures ProceedAllowed(lines, applyDateToAll) ==> Numbered(lines) != []
  {
    var es := Entries(lines, applyDateToAll);
    && es != []
    && !(applyDateToAll && FirstDate(lines) == "")
    && (applyDateToAll || forall e :: e in es ==> e.date != "")
  }

  /** Once the confirmation may open, every entry carries a date. */
  lemma ProceedMeansDated(lines: seq<Entry>, applyDateToAll: bool)
    requires ProceedAllowed(lines, applyDateToAll)
    ensures forall e :: e in Entries(lines, applyDateToAll) ==> e.date != "" && e.no != ""
  {
    EntriesTrimmed(lines, applyDateToAll);
  }

  /** An entry whose trimmed number equals an existing row's trimmed number. */
  datatype Conflict = Conflict(existingRow: Row, newEntry: Entry)

  /** `rows.find((r) => (r.no || '').trim() === (e.no || '').trim())` */
  function FindByNumber(rows: seq<Row>, no: string): (r: Option<Row>)
    ensures r.Some? ==> r.value in rows && Trim(r.value.docNo) == Trim(no)
    ensures r.None? ==> forall x :: x in rows ==> Trim(x.docNo) != Trim(no)
    decreases |rows|
  {
    if rows == [] then None
    else if Trim(rows[0].docNo) == Trim(no) then Some(rows[0])
    else FindByNumber(rows[1..], no)
  }

  /**
   * Numbers can repeat (one batch may add the same number twice), and the
   * row an overwrite acts on is then the first one in table order.
   */
  lemma {:induction false} FindByNumberIsFirst(rows: seq<Row>, no: string)
    ensures var r := FindByNumber(rows, no);
            r.Some? ==> exists i :: 0 <= i < |rows| && rows[i] == r.value
                                    && forall j :: 0 <= j < i ==> Trim(rows[j].docNo) != Trim(no)
    decreases |rows|
  {
    var r := FindByNumber(rows, no);
    if rows != [] && Trim(rows[0].docNo) == Trim(no) {
      assert rows[0] == r.value;
    } else if rows != [] && r.Some? {
      var tail := rows[1..];
      FindByNumberIsFirst(tail, no);
      var i :| 0 <= i < |tail| && tail[i] == r.value && forall j :: 0 <= j < i ==> Trim(tail[j].docNo) != Trim(no);
      assert rows[i + 1] == r.value;
      forall j | 0 <= j < i + 1
        ensures Trim(rows[j].docNo) != Trim(no)
      {
        if j > 0 {
          assert rows[j] == tail[j - 1];
        }
      }
    }
  }

  /** The conflicts among `entries`, in entry order. */
  function Conflicts(rows: seq<Row>, entries: seq<Entry>): (cs: seq<Conflict>)
    ensures |cs| <= |entries|
    decreases |entries|
  {
    if entries == [] then []
    else
      var e := entries[|entries| - 1];
      var front := Conflicts(rows, entries[..|entries| - 1]);
      var found := FindByNumber(rows, e.no);
      if found.Some? then front + [Conflict(found.value, e)] else front
  }

  /** The entries that match no existing row, in entry order. */
  function NonConflicting(rows: seq<Row>, entries: seq<Entry>): (nc: seq<Entry>)
    ensures |nc| <= |entries|
    decreases |entries|
  {
    if entries == [] then []
    else
      var e := entries[|entries| - 1];
      var front := NonConflicting(rows, entries[..|entries| - 1]);
      if FindByNumber(rows, e.no).Some? then front else front + [e]
  }

  /** Every entry lands on exactly one side of the partition. */
  lemma {:induction false} PartitionSizes(rows: seq<Row>, entries: seq<Entry>)
    ensures |Conflicts(rows, entries)| + |NonConflicting(rows, entries)| == |entries|
    decreases |entries|
  {
    if entries != [] {
      PartitionSizes(rows, entries[..|entries| - 1]);
    }
  }

  /** A conflict pairs an entry with a table row of the same trimmed number. */
  lemma {:induction false} ConflictsSound(rows: seq<Row>, entries: seq<Entry>)
    ensures forall c :: c in Conflicts(rows, entries) ==>
              c.newEntry in entries && c.existingRow in rows && Trim(c.existingRow.docNo) == Trim(c.newEntry.no)
    decreases |entries|
  {
    if entries != [] {
      var front := entries[..|entries| - 1];
      ConflictsSound(rows, front);
      assert forall e :: e in front ==> e in entries;
    }
  }

  /** A non-conflicting entry matches no row of the table. */
  lemma {:induction false} NonConflictingSound(rows: seq<Row>, entries: seq<Entry>)
    ensures forall e :: e in NonConflicting(rows, entries) ==>
              e in entries && forall x :: x in rows ==> Trim(x.docNo) != Trim(e.no)
    decreases |entries|
  {
    if entries != [] {
      var front := entries[..|entries| - 1];
      NonConflictingSound(rows, front);
      assert forall e :: e in front ==> e in entries;
    }
  }

  /** No entry is dropped: each one is either in a conflict or non-conflicting. */
  lemma {:induction false} PartitionComplete(rows: seq<Row>, entries: seq<Entry>, e: Entry)
    requires e in entries
    ensures FindByNumber(rows, e.no).Some? ==> Conflict(FindByNumber(rows, e.no).value, e) in Conflicts(rows, entries)
    ensures FindByNumber(rows, e.no).None? ==> e in NonConflicting(rows, entries)
    decreases |entries|
  {
    var front := entries[..|entries| - 1];
    assert entries == front + [entries[|entries| - 1]];
    if e != entries[|entries| - 1] {
      PartitionComplete(rows, front, e);
    }
  }

  /** The loop of `handleAdd…ConfirmYes` that sorts entries into conflicts and non-conflicting ones. */
  method Partition(rows: seq<Row>, entries: seq<Entry>) returns (conflicts: seq<Conflict>, nonConflicting: seq<Entry>)
    ensures conflicts == Conflicts(rows, entries)
    ensures nonConflicting == NonConflicting(rows, entries)
  {
    conflicts, nonConflicting := [], [];
    var i := 0;
    while i < |entries|
      invariant 0 <= i <= |entries|
      invariant conflicts == Conflicts(rows, entries[..i])
      invariant nonConflicting == NonConflicting(rows, entries[..i])
    {
      var e := entries[i];
      assert entries[..i + 1][..i] == entries[..i];
      var existing := FindByNumber(rows, e.no);
      if existing.Some? {
        conflicts := conflicts + [Conflict(existing.value, e)];
      } else {
        nonConflicting := nonConflicting + [e];
      }
      i := i + 1;
    }
    assert entries[..i] == entries;
  }

  /** The reset an overwrite merges into the matched row (`resetPayload`). */
  function OverwritePatch(e: Entry): (p: Patch)
    ensures p.docNo == Set(e.no) && p.docDate == Set(e.date) && p.status == Set(Billed)
    ensures p.remark.Keep? && p.remarkAtBilled.Keep? && p.discrepancy.Keep?
  {
    EmptyPatch.(
      docNo := Set(e.no), docDate := Set(e.date), status := Set(Billed),
      assignedDriverId := Set(None), assignedSalesmanId := Set(None), assignedClerkId := Set(None),
      deliveryDate := Set(""), deliverySlot := Set(""),
      transferWarehouseId := Set(None), holdWarehouseId := Set(None), holdWarehouseType := Set(Some("")))
  }

  /**
   * An overwrite puts the row back to Billed with the new number and date,
   * clears every assignment, warehouse, date and slot field, and keeps its
   * remark, its `remarkAtBilled` and its discrepancy.
   */
  lemma OverwriteResets(row: Row, e: Entry)
    ensures Apply(row, OverwritePatch(e)) ==
            row.(docNo := e.no, docDate := e.date, status := Billed,
                 assignedDriverId := None, assignedSalesmanId := None, assignedClerkId := None,
                 deliveryDate := "", deliverySlot := "",
                 transferWarehouseId := None, holdWarehouseId := None, holdWarehouseType := Some(""))
    ensures Phase(Apply(row, OverwritePatch(e)).status) == 1
  {
  }

  /** The rows `createCreditNote` / `createDeliveryOrder` builds for the non-conflicting entries. */
  function NewRows(ids: seq<Id>, entries: seq<Entry>): (rs: seq<Row>)
    requires |ids| >= |entries|
    ensures |rs| == |entries|
    ensures forall i :: 0 <= i < |entries| ==>
              rs[i].id == ids[i] && rs[i].docNo == entries[i].no && rs[i].docDate == entries[i].date && rs[i].status == Billed
  {
    seq(|entries|, i requires 0 <= i < |entries| => NewRow(ids[i], entries[i].no, entries[i].date))
  }

  function InsertCommands(rs: seq<Row>): (cmds: seq<Command>)
    ensures |cmds| == |rs| && forall i :: 0 <= i < |rs| ==> cmds[i] == InsertRow(rs[i])
  {
    seq(|rs|, i requires 0 <= i < |rs| => InsertRow(rs[i]))
  }
}
