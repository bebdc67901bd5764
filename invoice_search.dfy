/**
 * The invoice-search step of the delivery-order attachment flow: filtering
 * the fetched invoice list by the typed query and picking the invoice the
 * confirm button acts on.
 */
module InvoiceSearch {
  import opened Text
  import opened Options
  import opened Lookup

  /** An invoice as the search dialog lists it (`invoiceNo || ''`). */
  datatype InvoiceRef = InvoiceRef(id: string, invoiceNo: string)

  /** `(query || '').trim().toLowerCase()` */
  function SearchKey(query: string): (key: string)
    ensures |key| <= |query|
    ensures ToLower(key) == key
  {
    ToLowerIdempotent(Trim(query));
    ToLower(Trim(query))
  }

  predicate Matches(inv: InvoiceRef, key: string)
  {
    Contains(ToLower(inv.invoiceNo), key)
  }

  /** The invoices whose lower-cased number contains `key`, in list order. */
  function Matching(list: seq<InvoiceRef>, key: string): (r: seq<InvoiceRef>)
    ensures |r| <= |list|
    ensures forall x :: x in r <==> x in list && Matches(x, key)
    decreases |list|
  {
    if list == [] then []
    else if Matches(list[0], key) then [list[0]] + Matching(list[1..], key)
    else Matching(list[1..], key)
  }

  /** `getFilteredInvoicesForSearch` */
  function FilterInvoices(list: seq<InvoiceRef>, query: string): (r: seq<InvoiceRef>)
    ensures |r| <= |list|
    ensures forall x :: x in r ==> x in list
  {
    var key := SearchKey(query);
    if key == "" then list else Matching(list, key)
  }

  lemma {:induction false} EveryStringContainsEmpty(s: string)
    ensures Contains(s, "")
  {
  }

  /**
   * The filter keeps exactly the invoices whose number contains the trimmed,
   * lower-cased query; a blank query keeps the whole list.
   */
  lemma {:induction false} FilterInvoicesExact(list: seq<InvoiceRef>, query: string)
    ensures forall x :: x in FilterInvoices(list, query) <==> x in list && Matches(x, SearchKey(query))
    ensures SearchKey(query) == "" ==> FilterInvoices(list, query) == list
  {
    if SearchKey(query) == "" {
      forall x | x in list
        ensures Matches(x, "")
      {
        EveryStringContainsEmpty(ToLower(x.invoiceNo));
      }
    }
  }

  /** Case is ignored: the number and the query are compared lower-cased. */
  lemma {:induction false} MatchingIgnoresQueryCase(list: seq<InvoiceRef>, query: string)
    ensures FilterInvoices(list, ToLower(query)) == FilterInvoices(list, query)
  {
    var t := Trim(query);
    var lt := Trim(ToLower(query));
    assert lt == ToLower(t) by { TrimCommutesWithLower(query); }
    ToLowerIdempotent(t);
  }

  lemma LowerKeepsWhitespace(c: char)
    ensures IsWhitespace(LowerChar(c)) <==> IsWhitespace(c)
  {
  }

  lemma {:induction false} TrimStartCommutesWithLower(s: string)
    ensures TrimStart(ToLower(s)) == ToLower(TrimStart(s))
    decreases |s|
  {
    if s != [] {
      var l := ToLower(s);
      assert l[0] == LowerChar(s[0]);
      LowerKeepsWhitespace(s[0]);
      if IsWhitespace(s[0]) {
        assert l[1..] == ToLower(s[1..]);
        calc {
          TrimStart(l);
          TrimStart(ToLower(s[1..]));
          { TrimStartCommutesWithLower(s[1..]); }
          ToLower(TrimStart(s[1..]));
        }
      } else {
        assert TrimStart(l) == l;
        assert TrimStart(s) == s;
      }
    }
  }

  lemma {:induction false} TrimEndCommutesWithLower(s: string)
    ensures TrimEnd(ToLower(s)) == ToLower(TrimEnd(s))
    decreases |s|
  {
    if s != [] {
      var l := ToLower(s);
      var n := |s| - 1;
      assert l[n] == LowerChar(s[n]);
      LowerKeepsWhitespace(s[n]);
      if IsWhitespace(s[n]) {
        assert l[..n] == ToLower(s[..n]);
        calc {
          TrimEnd(l);
          TrimEnd(ToLower(s[..n]));
          { TrimEndCommutesWithLower(s[..n]); }
          ToLower(TrimEnd(s[..n]));
        }
      } else {
        assert TrimEnd(l) == l;
        assert TrimEnd(s) == s;
      }
    }
  }

  /** Trimming and lower-casing commute: none of the folded capitals is whitespace, nor any lower-case result. */
  lemma TrimCommutesWithLower(s: string)
    ensures Trim(ToLower(s)) == ToLower(Trim(s))
  {
    TrimStartCommutesWithLower(s);
    TrimEndCommutesWithLower(TrimStart(s));
  }

  /** `invoices.find((inv) => inv.id === id)` */
  function FindInvoice(list: seq<InvoiceRef>, id: string): (r: Option<InvoiceRef>)
    ensures r.Some? ==> r.value in list && r.value.id == id
    ensures r.None? <==> forall x :: x in list ==> x.id != id
  {
    FindFirst(list, (x: InvoiceRef) => x.id, id)
  }

  /** The invoice at index `i` is the only one in the list that matches `key`. */
  predicate OnlyMatch(list: seq<InvoiceRef>, key: string, i: int)
  {
    0 <= i < |list| && Matches(list[i], key)
    && forall j :: 0 <= j < |list| && j != i ==> !Matches(list[j], key)
  }

  /** One invoice is left by the filter exactly when one position of the list matches, and it is that one. */
  lemma {:induction false} MatchingSingleton(list: seq<InvoiceRef>, key: string)
    ensures |Matching(list, key)| == 1 <==> exists i :: OnlyMatch(list, key, i)
    ensures forall i :: OnlyMatch(list, key, i) ==> Matching(list, key) == [list[i]]
    decreases |list|
  {
    if list != [] {
      var tail := list[1..];
      MatchingSingleton(tail, key);
      if Matches(list[0], key) {
        if Matching(tail, key) == [] {
          forall j | 0 < j < |list|
            ensures !Matches(list[j], key)
          {
            assert list[j] == tail[j - 1];
            assert list[j] in tail;
          }
          assert OnlyMatch(list, key, 0);
        } else {
          var x := Matching(tail, key)[0];
          assert x in Matching(tail, key);
          var k :| 0 <= k < |tail| && tail[k] == x;
          assert list[k + 1] == x;
          assert !OnlyMatch(list, key, 0);
        }
      } else {
        forall i | 1 <= i < |list|
          ensures OnlyMatch(list, key, i) <==> OnlyMatch(tail, key, i - 1)
        {
          if OnlyMatch(tail, key, i - 1) {
            forall j | 0 < j < |list| && j != i
              ensures !Matches(list[j], key)
            {
              assert list[j] == tail[j - 1];
            }
          }
          if OnlyMatch(list, key, i) {
            forall j | 0 <= j < |tail| && j != i - 1
              ensures !Matches(tail[j], key)
            {
              assert tail[j] == list[j + 1];
            }
          }
        }
        if exists i :: OnlyMatch(tail, key, i) {
          var i :| OnlyMatch(tail, key, i);
          assert OnlyMatch(list, key, i + 1);
        }
      }
    }
  }

  /** With a blank key every invoice matches, so the filter is `Matching` in every case. */
  lemma {:induction false} FilterIsMatching(list: seq<InvoiceRef>, query: string)
    ensures FilterInvoices(list, query) == Matching(list, SearchKey(query))
    decreases |list|
  {
    if SearchKey(query) == "" && list != [] {
      EveryStringContainsEmpty(ToLower(list[0].invoiceNo));
      FilterIsMatching(list[1..], query);
      assert list == [list[0]] + list[1..];
    }
  }

  /**
   * The invoice the confirm button acts on: the explicitly selected one,
   * looked up by id, or else the single invoice the filter leaves, or none.
   */
  function ChosenInvoice(list: seq<InvoiceRef>, query: string, selectedId: Option<string>): (r: Option<InvoiceRef>)
    ensures r.Some? ==> r.value in list
    ensures selectedId.Some? && selectedId.value != "" ==>
              && (r.Some? ==> r.value.id == selectedId.value)
              && (r.None? ==> forall inv :: inv in list ==> inv.id != selectedId.value)
    ensures selectedId.None? || selectedId.value == "" ==>
              && (r.Some? <==> exists i :: OnlyMatch(list, SearchKey(query), i))
              && forall i :: OnlyMatch(list, SearchKey(query), i) ==> r == Some(list[i])
  {
    if selectedId.Some? && selectedId.value != "" then FindInvoice(list, selectedId.value)
    else
      var filtered := FilterInvoices(list, query);
      FilterInvoicesExact(list, query);
      FilterIsMatching(list, query);
      MatchingSingleton(list, SearchKey(query));
      if |filtered| == 1 then Some(filtered[0]) else None
  }
}
