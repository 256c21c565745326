/** The categories screen: the live list of categories sorted by their
    `order` field, drag-and-drop reordering that renumbers them, the form
    that adds a category, and the dialog that lists a category's unsold
    products. */
module Categories {
  import opened Seqs
  import opened Records

  // ---------------------------------------------------------------------
  // Sorting by `order`.
  // ---------------------------------------------------------------------

  /** `a.order ?? 0`. */
  function OrderKey(c: Category): int
  {
    c.order.GetOr(0)
  }

  /** The snapshot handler's `catList.sort((a, b) => (a.order ?? 0) - (b.order ?? 0))`:
      a stable in-place sort by `OrderKey`. */
  method SortByOrder(a: array<Category>)
    modifies a
    ensures a[..] == SortBy(old(a[..]), OrderKey)
  {
    ghost var s := a[..];
    for i := 0 to a.Length
      invariant a[..i] == SortBy(s[..i], OrderKey)
      invariant forall k :: i <= k < a.Length ==> a[k] == s[k]
    {
      InsertAt(a, i);
      SortByStep(s, i, OrderKey);
    }
    assert s[..a.Length] == s;
  }

  /** One pass of the insertion sort: `a[i]` moves left past every element
      of `a[..i]` with a larger `order`, as `Insert` places it. */
  method InsertAt(a: array<Category>, i: nat)
    requires i < a.Length
    modifies a
    ensures a[..i + 1] == Insert(old(a[..i]), old(a[i]), OrderKey)
    ensures forall k :: i < k < a.Length ==> a[k] == old(a[k])
  {
    ghost var sorted := a[..i];
    var x := a[i];
    var j := ShiftLarger(a, i, x);
    a[j] := x;
    InsertPlace(sorted, x, j, OrderKey);
    ghost var r := sorted[..j] + [x] + sorted[j..];
    forall k | 0 <= k <= i ensures a[k] == r[k] {
      if k < j {
        assert r[k] == sorted[..j][k];
      } else if k > j {
        assert r[k] == sorted[j..][k - j - 1];
      }
    }
  }

  /** The inner loop: shifts right by one place the run of elements just
      before `a[i]` whose `order` is larger than `x`'s, and returns the slot
      it frees. */
  method ShiftLarger(a: array<Category>, i: nat, x: Category) returns (j: nat)
    requires i < a.Length
    modifies a
    ensures j <= i
    ensures j == 0 || OrderKey(a[j - 1]) <= OrderKey(x)
    ensures forall k :: j <= k < i ==> OrderKey(old(a[k])) > OrderKey(x)
    ensures forall k :: 0 <= k < j ==> a[k] == old(a[k])
    ensures forall k :: j < k <= i ==> a[k] == old(a[k - 1])
    ensures forall k :: i < k < a.Length ==> a[k] == old(a[k])
  {
    j := i;
    while j > 0 && OrderKey(a[j - 1]) > OrderKey(x)
      invariant j <= i
      invariant forall k :: j <= k < i ==> OrderKey(old(a[k])) > OrderKey(x)
      invariant forall k :: 0 <= k < j ==> a[k] == old(a[k])
      invariant forall k :: j < k <= i ==> a[k] == old(a[k - 1])
      invariant forall k :: i < k < a.Length ==> a[k] == old(a[k])
    {
      a[j] := a[j - 1];
      j := j - 1;
    }
  }

  // ---------------------------------------------------------------------
  // Drag-and-drop reordering.
  // ---------------------------------------------------------------------

  /** Among the first `end` entries of `list`, none after position `i` has
      the id of the entry at `i`. */
  predicate LastUpTo(list: seq<Category>, i: nat, end: nat)
    requires i < end <= |list|
  {
    forall j :: i < j < end ==> list[j].id != list[i].id
  }

  /** The documents of a reordered list after `setList` has written
      `order: index` into each. */
  function Renumbered(list: seq<Category>): (r: seq<Category>)
    ensures |r| == |list|
    ensures forall i :: 0 <= i < |r| ==> r[i] == list[i].(order := Some(i))
  {
    seq(|list|, i requires 0 <= i < |list| => list[i].(order := Some(i)))
  }

  /** The renumbered list is in strictly increasing `order`, from 0 up to
      its length less one, so it is already sorted. */
  lemma RenumberedIsSorted(list: seq<Category>)
    ensures forall i, j :: 0 <= i < j < |list| ==> OrderKey(Renumbered(list)[i]) < OrderKey(Renumbered(list)[j])
    ensures forall i :: 0 <= i < |list| ==> 0 <= OrderKey(Renumbered(list)[i]) < |list|
    ensures SortedBy(Renumbered(list), OrderKey)
  {
  }

  /** Whatever order the store hands back the renumbered documents in,
      sorting them by `order` gives back the list as dropped. */
  lemma {:induction false} ReorderRoundTrip(list: seq<Category>, docs: seq<Category>)
    requires multiset(docs) == multiset(Renumbered(list))
    ensures SortBy(docs, OrderKey) == Renumbered(list)
  {
    SortBySorted(docs, OrderKey);
    RenumberedIsSorted(list);
    SortedUnique(SortBy(docs, OrderKey), Renumbered(list), OrderKey);
  }

  /** A list already sorted by `order` is left as it is by a re-sort. */
  lemma ResortIsIdentity(list: seq<Category>)
    requires SortedBy(list, OrderKey)
    ensures SortBy(list, OrderKey) == list
  {
    SortByIdentity(list, OrderKey);
  }

  /** The store after the writes of `setList` for the first `end` entries
      of `list`, starting from `before`: a written document has the index of
      its last write as `order`; a document not written is unchanged. */
  predicate OrdersWritten(store: map<string, Category>, before: map<string, Category>, list: seq<Category>, end: nat)
    requires end <= |list|
  {
    && store.Keys == before.Keys
    && (forall i :: 0 <= i < end && list[i].id in before && LastUpTo(list, i, end) ==>
          store[list[i].id] == before[list[i].id].(order := Some(i)))
    && (forall id :: id in before && (forall i :: 0 <= i < end ==> list[i].id != id) ==> store[id] == before[id])
  }

  /** The write for entry `index` extends `OrdersWritten` by one entry. */
  lemma WriteStep(store: map<string, Category>, store': map<string, Category>, before: map<string, Category>,
                  list: seq<Category>, index: nat)
    requires index < |list| && OrdersWritten(store, before, list, index)
    requires var id := list[index].id;
      store' == if id in store then store[id := store[id].(order := Some(index))] else store
    ensures OrdersWritten(store', before, list, index + 1)
  {
    var id := list[index].id;
    forall i | 0 <= i < index + 1 && list[i].id in before && LastUpTo(list, i, index + 1)
      ensures store'[list[i].id] == before[list[i].id].(order := Some(i))
    {
      var k := list[i].id;
      if i < index {
        assert k != id;
        assert LastUpTo(list, i, index);
        assert store'[k] == store[k];
      } else {
        assert k == id && id in store;
        assert store'[k] == store[k].(order := Some(index));
        assert store[k] == before[k] || store[k].(order := Some(index)) == before[k].(order := Some(index)) by {
          WrittenEarlier(store, before, list, index, k);
        }
      }
    }
  }

  /** Before the write for entry `index`, its document holds either its
      original value or that value with some earlier `order` written in. */
  lemma WrittenEarlier(store: map<string, Category>, before: map<string, Category>, list: seq<Category>,
                       index: nat, k: string)
    requires index < |list| && OrdersWritten(store, before, list, index) && k in before
    ensures store[k] == before[k] || store[k].(order := Some(index)) == before[k].(order := Some(index))
  {
    if i :| 0 <= i < index && list[i].id == k {
      var last := LastWrite(list, i, index);
      assert store[k] == before[k].(order := Some(last));
    }
  }

  /** The last position below `end` holding the id of the entry at `i`. */
  function LastWrite(list: seq<Category>, i: nat, end: nat): (last: nat)
    requires i < end <= |list|
    ensures i <= last < end && list[last].id == list[i].id && LastUpTo(list, last, end)
    decreases end - i
  {
    if exists j :: i < j < end && list[j].id == list[i].id then
      var j :| i < j < end && list[j].id == list[i].id;
      LastWrite(list, j, end)
    else i
  }

  /** The screen's state: the categories it shows and the categories
      collection of the store, by document id. */
  class CategoryScreen {
    var categories: seq<Category>
    var store: map<string, Category>

    constructor (store: map<string, Category>)
      ensures this.categories == [] && this.store == store
    {
      this.categories := [];
      this.store := store;
    }

    /** `setList`: show the dropped list and write `order: index` to each
        of its documents, in list order. A document no longer in the store
        is not written; an id listed twice keeps the index of its last
        occurrence, the later write landing on top. */
    method SetList(newList: seq<Category>)
      modifies this
      ensures categories == newList
      ensures store.Keys == old(store).Keys
      ensures forall i :: 0 <= i < |newList| && newList[i].id in old(store) && LastUpTo(newList, i, |newList|) ==>
        store[newList[i].id] == old(store)[newList[i].id].(order := Some(i))
      ensures forall id :: id in old(store) && (forall i :: 0 <= i < |newList| ==> newList[i].id != id) ==>
        store[id] == old(store)[id]
    {
      categories := newList;
      for index := 0 to |newList|
        invariant categories == newList
        invariant OrdersWritten(store, old(store), newList, index)
      {
        ghost var before := store;
        var id := newList[index].id;
        if id in store {
          store := store[id := store[id].(order := Some(index))];
        }
        WriteStep(before, store, old(store), newList, index);
      }
    }

    /** The snapshot listener: the documents as delivered, sorted in place
        by `order`, become the shown list. */
    method OnSnapshot(docs: seq<Category>)
      modifies this
      ensures categories == SortBy(docs, OrderKey)
      ensures store == old(store)
    {
      var catList := new Category[|docs|](i requires 0 <= i < |docs| => docs[i]);
      assert catList[..] == docs;
      SortByOrder(catList);
      categories := catList[..];
    }
  }

  /** The document ids of a list, in order. */
  function Ids(list: seq<Category>): (ids: seq<string>)
    ensures |ids| == |list|
    ensures forall i :: 0 <= i < |list| ==> ids[i] == list[i].id
  {
    seq(|list|, i requires 0 <= i < |list| => list[i].id)
  }

  /** `ids` names every document of `store` exactly once. */
  predicate ListsKeys(ids: seq<string>, store: map<string, Category>)
  {
    && (forall i, j :: 0 <= i < j < |ids| ==> ids[i] != ids[j])
    && Stored(ids, store)
    && (forall id :: id in store ==> id in ids)
  }

  /** Every id of `ids` names a document of `store`. */
  predicate Stored(ids: seq<string>, store: map<string, Category>)
  {
    forall i :: 0 <= i < |ids| ==> ids[i] in store
  }

  /** The store's documents under `ids`, in that order: what the snapshot
      listener receives when the store delivers them in the order `ids`. */
  function Listed(store: map<string, Category>, ids: seq<string>): (r: seq<Category>)
    requires Stored(ids, store)
    ensures |r| == |ids|
    ensures forall i :: 0 <= i < |ids| ==> r[i] == store[ids[i]]
  {
    seq(|ids|, i requires 0 <= i < |ids| => store[ids[i]])
  }

  /** Two lists that each name every document once are permutations of
      each other. */
  lemma {:induction false} ListsKeysPermutation(a: seq<string>, b: seq<string>, store: map<string, Category>)
    requires ListsKeys(a, store) && ListsKeys(b, store)
    ensures multiset(a) == multiset(b)
  {
    DistinctCounts(a);
    DistinctCounts(b);
    forall x ensures multiset(a)[x] == multiset(b)[x] {
      assert x in a <==> x in b;
    }
  }

  /** In a sequence without repetitions every element occurs once. */
  lemma {:induction false} DistinctCounts(s: seq<string>)
    requires forall i, j :: 0 <= i < j < |s| ==> s[i] != s[j]
    ensures forall x :: multiset(s)[x] == if x in s then 1 else 0
  {
    if s != [] {
      var n := |s| - 1;
      DistinctCounts(s[..n]);
      assert s == s[..n] + [s[n]];
      assert s[n] !in s[..n];
    }
  }

  /** Listing the store under a permutation of the ids permutes the
      documents listed. */
  lemma {:induction false} ListedPermutation(store: map<string, Category>, a: seq<string>, b: seq<string>)
    requires Stored(a, store) && Stored(b, store)
    requires multiset(a) == multiset(b)
    ensures multiset(Listed(store, a)) == multiset(Listed(store, b))
    decreases |a|
  {
    if a == [] {
      assert |b| == |multiset(b)| == 0;
    } else {
      var n := |a| - 1;
      var x := a[n];
      assert x in multiset(b);
      var j :| 0 <= j < |b| && b[j] == x;
      RemoveMatching(a, b, j);
      ListedRemove(store, a, n);
      ListedRemove(store, b, j);
      assert a[..n] + a[n + 1..] == a[..n];
      ListedPermutation(store, a[..n], b[..j] + b[j + 1..]);
    }
  }

  /** Listing with the id at `j` left out lists every document but that one. */
  lemma ListedRemove(store: map<string, Category>, b: seq<string>, j: nat)
    requires Stored(b, store) && j < |b|
    ensures Stored(b[..j] + b[j + 1..], store)
    ensures multiset(Listed(store, b)) == multiset(Listed(store, b[..j] + b[j + 1..])) + multiset{store[b[j]]}
  {
    var u, v, x := b[..j], b[j + 1..], b[j];
    assert b == u + [x] + v;
    var lu, lv := Listed(store, u), Listed(store, v);
    assert Stored(u, store) && Stored([x], store) && Stored(v, store);
    assert Listed(store, [x]) == [store[x]];
    ListedAppend(store, u, [x]);
    ListedAppend(store, u + [x], v);
    ListedAppend(store, u, v);
    calc {
      multiset(Listed(store, b));
      multiset(Listed(store, u + [x]) + lv);
      multiset(lu + [store[x]] + lv);
      multiset(lu) + multiset{store[x]} + multiset(lv);
      multiset(lu + lv) + multiset{store[x]};
    }
  }

  /** Removing the last element of `a` and an equal element of `b` keeps
      the two permutations of each other. */
  lemma RemoveMatching(a: seq<string>, b: seq<string>, j: nat)
    requires a != [] && j < |b| && b[j] == a[|a| - 1]
    requires multiset(a) == multiset(b)
    ensures multiset(a[..|a| - 1]) == multiset(b[..j] + b[j + 1..])
  {
    var n, x := |a| - 1, a[|a| - 1];
    assert a == a[..n] + [x];
    assert b == b[..j] + [x] + b[j + 1..];
    calc {
      multiset(a[..n]) + multiset{x};
      multiset(a);
      multiset(b);
      multiset(b[..j]) + multiset{x} + multiset(b[j + 1..]);
      multiset(b[..j] + b[j + 1..]) + multiset{x};
    }
    forall y ensures multiset(a[..n])[y] == multiset(b[..j] + b[j + 1..])[y] {
      assert (multiset(a[..n]) + multiset{x})[y] == (multiset(b[..j] + b[j + 1..]) + multiset{x})[y];
    }
  }

  lemma ListedAppend(store: map<string, Category>, u: seq<string>, v: seq<string>)
    requires Stored(u, store) && Stored(v, store)
    ensures Stored(u + v, store)
    ensures Listed(store, u + v) == Listed(store, u) + Listed(store, v)
  {
  }

  /** In a list whose ids are distinct every entry is its id's last one. */
  lemma DistinctIsLast(list: seq<Category>, i: nat)
    requires forall k, j :: 0 <= k < j < |list| ==> Ids(list)[k] != Ids(list)[j]
    requires i < |list|
    ensures LastUpTo(list, i, |list|)
  {
    forall j | i < j < |list| ensures list[j].id != list[i].id {
      assert Ids(list)[j] == list[j].id && Ids(list)[i] == list[i].id;
    }
  }

  /** After `SetList` of a list naming every document once, each as stored
      up to its `order`, the store listed in the list's order is the list
      renumbered. */
  lemma WrittenListRenumbered(before: map<string, Category>, after: map<string, Category>, newList: seq<Category>)
    requires ListsKeys(Ids(newList), before)
    requires forall i :: 0 <= i < |newList| ==>
      before[newList[i].id] == newList[i].(order := before[newList[i].id].order)
    requires after.Keys == before.Keys
    requires forall i :: 0 <= i < |newList| && newList[i].id in before && LastUpTo(newList, i, |newList|) ==>
      after[newList[i].id] == before[newList[i].id].(order := Some(i))
    ensures ListsKeys(Ids(newList), after)
    ensures forall i :: 0 <= i < |newList| ==> newList[i].id in after && after[newList[i].id] == Renumbered(newList)[i]
    ensures Listed(after, Ids(newList)) == Renumbered(newList)
  {
    forall i | 0 <= i < |newList| ensures newList[i].id in after && after[newList[i].id] == Renumbered(newList)[i] {
      assert Ids(newList)[i] == newList[i].id;
      DistinctIsLast(newList, i);
    }
  }

  /** Dropping a list of the store's documents, then receiving the store's
      documents in any order `delivery`, shows the list as dropped,
      renumbered, and leaves each document with its new index as `order`.
      Before the drop the list names every document once, each as stored up
      to its `order`. */
  method Reorder(screen: CategoryScreen, newList: seq<Category>, delivery: seq<string>)
    requires ListsKeys(Ids(newList), screen.store)
    requires forall i :: 0 <= i < |newList| ==>
      screen.store[newList[i].id] == newList[i].(order := screen.store[newList[i].id].order)
    requires ListsKeys(delivery, screen.store)
    modifies screen
    ensures screen.categories == Renumbered(newList)
    ensures forall i :: 0 <= i < |newList| ==>
      newList[i].id in screen.store && screen.store[newList[i].id] == Renumbered(newList)[i]
  {
    screen.SetList(newList);
    WrittenListRenumbered(old(screen.store), screen.store, newList);
    var docs := Listed(screen.store, delivery);
    assert multiset(docs) == multiset(Renumbered(newList)) by {
      ListsKeysPermutation(delivery, Ids(newList), screen.store);
      ListedPermutation(screen.store, delivery, Ids(newList));
    }
    screen.OnSnapshot(docs);
    ReorderRoundTrip(newList, docs);
  }

  // ---------------------------------------------------------------------
  // Adding a category.
  // ---------------------------------------------------------------------

  /** The add form: the typed name and the chosen image file's name. */
  datatype CategoryForm = CategoryForm(name: string, imageFile: Option<string>)

  /** The document `addDoc` stores for a new category. */
  datatype NewCategory = NewCategory(name: string, imageUrl: string, sold: int)

  datatype AddOutcome =
    | Refused            // name empty or no image chosen: an alert, nothing stored
    | Failed             // the upload or the write failed: an alert, nothing stored
    | Added(doc: NewCategory)

  /** `handleUpload`. `publicUrl` is the upload's outcome: the image's public
      address, or `None` when the upload or the write fails. Returns the
      outcome and the form afterwards, cleared only on success. */
  function AddCategory(form: CategoryForm, publicUrl: Option<string>): (r: (AddOutcome, CategoryForm))
    ensures r.0 == Refused <==> form.name == "" || form.imageFile == None
    ensures r.0.Added? ==> publicUrl.Some? && r.0.doc == NewCategory(form.name, publicUrl.value, 0)
    ensures r.0.Added? <==> form.name != "" && form.imageFile.Some? && publicUrl.Some?
    ensures r.1 == if r.0.Added? then CategoryForm("", None) else form
  {
    if form.name == "" || form.imageFile == None then (Refused, form)
    else match publicUrl
      case None => (Failed, form)
      case Some(url) => (Added(NewCategory(form.name, url, 0)), CategoryForm("", None))
  }

  // ---------------------------------------------------------------------
  // The category dialog.
  // ---------------------------------------------------------------------

  predicate InCategory(p: Product, categoryId: string)
  {
    p.categoryId == Some(categoryId)
  }

  predicate Unsold(p: Product)
  {
    !p.isSelling
  }

  /** `handleOpenDialog` and the dialog body: the category's products, then
      those not sold. */
  function DialogProducts(products: seq<Product>, categoryId: string): (r: seq<Product>)
    ensures forall p :: p in r ==> p in products && p.categoryId == Some(categoryId) && !p.isSelling
    ensures forall p :: p in products && p.categoryId == Some(categoryId) && !p.isSelling ==> p in r
  {
    var q := Filter(products, p => InCategory(p, categoryId));
    FilterMembers(products, p => InCategory(p, categoryId));
    FilterMembers(q, Unsold);
    Filter(q, Unsold)
  }

  /** The dialog keeps the query's order. */
  lemma DialogKeepsOrder(products: seq<Product>, categoryId: string)
    ensures IsSubsequence(DialogProducts(products, categoryId), Filter(products, p => InCategory(p, categoryId)))
  {
    FilterIsSubsequence(Filter(products, p => InCategory(p, categoryId)), Unsold);
  }

  /** The "no unsold products" message shows exactly when the category has
      no unsold product. */
  lemma EmptyDialogIff(products: seq<Product>, categoryId: string)
    ensures |DialogProducts(products, categoryId)| == 0 <==>
      forall p :: p in products && p.categoryId == Some(categoryId) ==> p.isSelling
  {
    var r := DialogProducts(products, categoryId);
    if |r| > 0 {
      assert r[0] in r;
    }
  }
}
