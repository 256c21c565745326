/** The orders screen: the month's orders newest first, a search box over
    buyer name and phone, the displayed order total, and the edit dialog
    that rewrites an order's contact fields. */
module Orders {
  import opened Seqs
  import opened Records

  // ---------------------------------------------------------------------
  // Text matching.
  // ---------------------------------------------------------------------

  /** Lower-casing of one character (the ASCII letters). */
  function LowerChar(c: char): char
  {
    if 'A' <= c <= 'Z' then (c as int + 32) as char else c
  }

  /** `s.toLowerCase()`. */
  function Lower(s: string): (r: string)
    ensures |r| == |s|
    ensures forall i :: 0 <= i < |s| ==> r[i] == LowerChar(s[i])
  {
    if s == [] then [] else [LowerChar(s[0])] + Lower(s[1..])
  }

  /** Lower-casing twice is lower-casing once. */
  lemma LowerIdempotent(s: string)
    ensures Lower(Lower(s)) == Lower(s)
  {
    assert forall i :: 0 <= i < |s| ==> Lower(Lower(s))[i] == Lower(s)[i];
  }

  /** `s.includes(k)`. */
  function Includes(s: string, k: string): bool
  {
    k <= s || (s != [] && Includes(s[1..], k))
  }

  /** `k` occurs in `s` starting at position `i`. */
  predicate OccursAt(s: string, k: string, i: nat)
  {
    i + |k| <= |s| && s[i..i + |k|] == k
  }

  /** `Includes` holds exactly when `k` occurs in `s` at some position. */
  lemma {:induction false} IncludesIff(s: string, k: string)
    ensures Includes(s, k) <==> exists i: nat :: OccursAt(s, k, i)
  {
    if k <= s {
      assert OccursAt(s, k, 0);
    }
    if s != [] {
      IncludesIff(s[1..], k);
      if j: nat :| OccursAt(s[1..], k, j) {
        assert s[j + 1..j + 1 + |k|] == s[1..][j..j + |k|];
        assert OccursAt(s, k, j + 1);
      }
      if i: nat :| OccursAt(s, k, i) {
        if i > 0 {
          assert s[1..][i - 1..i - 1 + |k|] == s[i..i + |k|];
          assert OccursAt(s[1..], k, i - 1);
        } else {
          assert s[..|k|] == k;
        }
      }
    } else if i: nat :| OccursAt(s, k, i) {
      assert k == [];
    }
  }

  /** Every text includes the empty keyword. */
  lemma IncludesEmpty(s: string)
    ensures Includes(s, "")
  {
  }

  /** The search predicate: the lower-cased buyer name or the lower-cased
      phone contains the lower-cased keyword. A missing field matches
      nothing. */
  predicate Matches(o: Order, keyword: string)
  {
    var k := Lower(keyword);
    (o.buyerName.Some? && Includes(Lower(o.buyerName.value), k))
    || (o.phone.Some? && Includes(Lower(o.phone.value), k))
  }

  /** `filteredOrders`. */
  function FilterOrders(orders: seq<Order>, keyword: string): (r: seq<Order>)
    ensures forall o :: o in r ==> o in orders && Matches(o, keyword)
    ensures forall o :: o in orders && Matches(o, keyword) ==> o in r
  {
    FilterMembers(orders, o => Matches(o, keyword));
    Filter(orders, o => Matches(o, keyword))
  }

  /** The filtered list keeps the listing's order. */
  lemma FilterOrdersKeepsOrder(orders: seq<Order>, keyword: string)
    ensures IsSubsequence(FilterOrders(orders, keyword), orders)
  {
    FilterIsSubsequence(orders, o => Matches(o, keyword));
  }

  /** An empty search keeps exactly the orders that have a buyer name or a
      phone; an order with neither is never listed. */
  lemma EmptyKeyword(orders: seq<Order>, o: Order)
    requires o in orders
    ensures o in FilterOrders(orders, "") <==> o.buyerName.Some? || o.phone.Some?
  {
    if o.buyerName.Some? {
      IncludesEmpty(Lower(o.buyerName.value));
    }
    if o.phone.Some? {
      IncludesEmpty(Lower(o.phone.value));
    }
  }

  /** The search ignores the case of the keyword. */
  lemma MatchIgnoresKeywordCase(o: Order, keyword: string)
    ensures Matches(o, keyword) <==> Matches(o, Lower(keyword))
  {
    LowerIdempotent(keyword);
  }

  /** A keyword found in the buyer name, in any case, keeps the order. */
  lemma NameMatchKeeps(orders: seq<Order>, o: Order, keyword: string, i: nat)
    requires o in orders && o.buyerName.Some?
    requires OccursAt(Lower(o.buyerName.value), Lower(keyword), i)
    ensures o in FilterOrders(orders, keyword)
  {
    IncludesIff(Lower(o.buyerName.value), Lower(keyword));
  }

  // ---------------------------------------------------------------------
  // The month's listing.
  // ---------------------------------------------------------------------

  /** Sort key of `orderBy("createdAt", "desc")`: newest first. */
  function NewestFirst(o: Order): int
  {
    0 - o.createdAt.GetOr(0)
  }

  /** Every order is dated, and a later creation time comes first. */
  predicate DatedNewestFirst(r: seq<Order>)
  {
    forall i, j :: 0 <= i < j < |r| ==>
      r[i].createdAt.Some? && r[j].createdAt.Some? && r[i].createdAt.value >= r[j].createdAt.value
  }

  /** `fetchOrders`: the orders created since the start of the month, newest
      first. */
  function ListedOrders(orders: seq<Order>, startOfMonth: Timestamp): (r: seq<Order>)
    ensures multiset(r) == multiset(OrdersSince(orders, startOfMonth))
    ensures forall o :: o in r <==> o in orders && OrderCreatedSince(o, startOfMonth)
    ensures DatedNewestFirst(r)
  {
    var month := OrdersSince(orders, startOfMonth);
    var sorted := SortBy(month, NewestFirst);
    NewestFirstOrder(month, sorted, startOfMonth);
    sorted
  }

  /** Sorting dated orders by `NewestFirst` keeps them and puts the later
      creation time first. */
  lemma NewestFirstOrder(month: seq<Order>, r: seq<Order>, start: Timestamp)
    requires forall o :: o in month ==> OrderCreatedSince(o, start)
    requires r == SortBy(month, NewestFirst)
    ensures forall o :: o in r <==> o in month
    ensures DatedNewestFirst(r)
  {
    SortBySorted(month, NewestFirst);
    assert forall o :: o in r <==> o in multiset(month);
    forall i | 0 <= i < |r| ensures r[i] in month {
      assert r[i] in multiset(r);
    }
    forall i, j | 0 <= i < j < |r|
      ensures r[i].createdAt.Some? && r[j].createdAt.Some? && r[i].createdAt.value >= r[j].createdAt.value
    {
      assert NewestFirst(r[i]) <= NewestFirst(r[j]);
    }
  }

  // ---------------------------------------------------------------------
  // The edit dialog.
  // ---------------------------------------------------------------------

  /** The dialog's editable fields. */
  datatype EditValues = EditValues(buyerName: string, phone: string, address: string, note: string)

  /** `handleOpenDialog`: the stored contact fields, a missing one as "". */
  function OpenEdit(o: Order): (v: EditValues)
    ensures v.buyerName == o.buyerName.GetOr("")
    ensures v.phone == o.phone.GetOr("")
    ensures v.address == o.address.GetOr("")
    ensures v.note == o.note.GetOr("")
  {
    EditValues(Or(o.buyerName, ""), Or(o.phone, ""), Or(o.address, ""), Or(o.note, ""))
  }

  /** `handleUpdateOrder`: the merge of the four edited fields into the
      stored order. */
  function ApplyUpdate(o: Order, v: EditValues): (r: Order)
    ensures r.buyerName == Some(v.buyerName) && r.phone == Some(v.phone)
    ensures r.address == Some(v.address) && r.note == Some(v.note)
    ensures r.id == o.id && r.createdAt == o.createdAt && r.staffName == o.staffName
    ensures r.paymentMethod == o.paymentMethod && r.products == o.products
  {
    o.(buyerName := Some(v.buyerName), phone := Some(v.phone), address := Some(v.address), note := Some(v.note))
  }

  /** The collection after a successful `updateDoc` on document `id`: that
      document takes the four edited fields, every other one is untouched. */
  function Saved(store: seq<Order>, id: string, v: EditValues): (r: seq<Order>)
    ensures |r| == |store|
    ensures forall i :: 0 <= i < |store| && store[i].id != id ==> r[i] == store[i]
    ensures forall i :: 0 <= i < |store| && store[i].id == id ==> r[i] == ApplyUpdate(store[i], v)
  {
    if store == [] then []
    else
      var n := |store| - 1;
      Saved(store[..n], id, v) + [if store[n].id == id then ApplyUpdate(store[n], v) else store[n]]
  }

  /** `handleUpdateOrder` as a whole: the collection afterwards and the
      order the dialog shows, `None` once it has closed. When the write
      throws, only the error is logged: nothing is written and the dialog
      stays open on the same order. */
  function SaveEdit(store: seq<Order>, selected: Order, v: EditValues, writeSucceeds: bool): (r: (seq<Order>, Option<Order>))
    ensures !writeSucceeds ==> r.0 == store && r.1 == Some(selected)
    ensures writeSucceeds ==> r.1 == None && r.0 == Saved(store, selected.id, v)
  {
    if writeSucceeds then (Saved(store, selected.id, v), None) else (store, Some(selected))
  }

  /** Saving an edit never changes the worth of the collection. */
  lemma {:induction false} SaveEditKeepsRevenue(store: seq<Order>, selected: Order, v: EditValues, writeSucceeds: bool)
    ensures SumOf(SaveEdit(store, selected, v, writeSucceeds).0, OrderTotal) == SumOf(store, OrderTotal)
  {
    if writeSucceeds {
      SavedKeepsRevenue(store, selected.id, v);
    }
  }

  lemma {:induction false} SavedKeepsRevenue(store: seq<Order>, id: string, v: EditValues)
    ensures SumOf(Saved(store, id, v), OrderTotal) == SumOf(store, OrderTotal)
  {
    if store != [] {
      var n := |store| - 1;
      SavedKeepsRevenue(store[..n], id, v);
      var r := Saved(store, id, v);
      assert r[..n] == Saved(store[..n], id, v);
      UpdateKeepsTotal(store[n], v);
    }
  }

  /** After a successful save, reopening any stored copy of the edited order
      shows the values saved. */
  lemma SavedReopens(store: seq<Order>, selected: Order, v: EditValues, i: nat)
    requires i < |store| && store[i].id == selected.id
    ensures OpenEdit(SaveEdit(store, selected, v, true).0[i]) == v
  {
    ReopenShowsSaved(store[i], v);
  }

  /** Reopening a saved order shows exactly what was saved. */
  lemma ReopenShowsSaved(o: Order, v: EditValues)
    ensures OpenEdit(ApplyUpdate(o, v)) == v
  {
  }

  /** Saving without editing changes nothing when all four fields were
      stored; a missing field is stored as "". */
  lemma SaveUnedited(o: Order)
    ensures o.buyerName.Some? && o.phone.Some? && o.address.Some? && o.note.Some? ==> ApplyUpdate(o, OpenEdit(o)) == o
    ensures o.buyerName.None? ==> ApplyUpdate(o, OpenEdit(o)).buyerName == Some("")
  {
  }

  /** An update does not change what the order is worth. */
  lemma UpdateKeepsTotal(o: Order, v: EditValues)
    ensures OrderTotal(ApplyUpdate(o, v)) == OrderTotal(o)
  {
  }
}
