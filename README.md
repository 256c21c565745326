# Phone-shop admin console: a Dafny model of its screens' logic

The console is a React application over a Firestore store. It has three
collections: "orders", "products" and "categories". This project models
the logic its screens run on those documents:

- **Dashboard statistics** (`fetchStats`). A monthly pass over the orders
  created since the start of the month counts units per staff member, the
  month's revenue and units sold per category. A yearly pass counts orders
  and units per calendar month, the year's revenue and units sold per
  category. Both passes are `for` loops, modelled as methods whose
  `ensures` tie every figure to a specification function of the orders.
  The top-five list of each per-category map is a stable sort, most sold
  first, cut to five.
- **Inventory list**. The products are split into sold and in stock, with
  the buying value of the stock and the selling value of what was sold.
  The "sold" section shows only when something was sold.
- **Orders screen**. It lists the month's orders newest first and offers a
  case-insensitive search over buyer name and phone. It shows each order's
  total. An edit dialog rewrites an order's four contact fields.
- **Categories screen**. The live list is sorted in place by `order`.
  Drag-and-drop reordering writes each entry's new index back to the
  store. There is a form that adds a category and a dialog that lists a
  category's unsold products. The screen is a class holding the shown list
  and the store's category documents. The sort is an insertion sort on an
  array, proved equal to a stable sort specification.
- **Product dialog**. It covers the form's starting values, the validation
  schema, and the record a submit adds or merges.

Files:

- `seqs.dfy` (module `Seqs`): the sequence operations the screens use.
  These are `filter`, `reduce` and a stable sort, with their laws.
- `records.dfy` (module `Records`): the documents, and JavaScript's `||`
  and `??` defaulting rules. It also holds the order total and the
  `createdAt >= start` queries.
- `dashboard.dfy`, `product_list.dfy`, `orders.dfy`, `categories.dfy` and
  `product_dialog.dfy`: one module per screen.

Store reads are inputs:

- A query result is the collection filtered by the query's test, in store
  order.
- The category read of the dashboard is a function `lookup` from an id to
  the document, if one exists. The reads a pass performs are returned as a
  trace.
- The calendar is a function `monthOf` from an instant to its month, and
  the clock is a parameter `now`.
- An image upload is its outcome: the stored path or URL, or `None` when
  the upload fails.
- Whether a store write succeeds is a boolean parameter of the product
  dialog's submit and of the order edit's save. The category form's
  upload-and-write outcome is an optional URL.

## Model

| member | source | states |
|---|---|---|
| Records.Or | src/pages/Dashboard.jsx:70 | the or-default of an optional string gives the fallback exactly for a missing or empty value (or one equal to the fallback), and the string itself otherwise |
| Records.OrderTotalNonNegative | src/pages/Orders.jsx:171-172 | with no negative prices an order's total (the sum of its prices, a missing one as 0) is not negative |
| Records.OrdersSince | src/pages/Dashboard.jsx:60-62 | the query keeps exactly the orders whose `createdAt` is present and at least the bound |
| Records.ProductsSince | src/pages/Dashboard.jsx:53-58 | the query keeps exactly the products whose `createdAt` is present and at least the bound |
| Records.WindowIsInclusive | src/pages/Dashboard.jsx:56 | a document created exactly at the bound is included; one created just before, or one without `createdAt`, is not |
| Records.LaterWindowIsSmaller | src/pages/Dashboard.jsx:98-100 | the month's orders are a sub-multiset of the year's, so there are no more of them |
| Seqs.FilterMembers | src/components/ProductList.jsx:14-15 | `filter` keeps an element exactly when it occurs in the input and passes the test |
| Seqs.FilterIsSubsequence | src/components/ProductList.jsx:14-15 | `filter` keeps the input's relative order |
| Seqs.FilterPartition | src/components/ProductList.jsx:14-15 | filtering by a test and by its negation splits the input into two parts whose multisets add up to it |
| Seqs.SumOfFilter | src/components/ProductList.jsx:16-23 | reducing the filtered list equals reducing the whole list with the excluded elements counted as 0 |
| Seqs.SortBySorted | src/pages/Category.jsx:102 | the sort's result is ordered by its key |
| Seqs.SortByStable | src/pages/Dashboard.jsx:197 | the sort keeps the input order among elements with the same key |
| Seqs.SortedUnique | src/pages/Category.jsx:102 | two sorted arrangements of the same elements coincide when the keys are distinct |
| Seqs.InsertPlace | src/pages/Category.jsx:102 | one insertion step puts the new element after the last element whose key is not larger |
| Dashboard.FetchStats | src/pages/Dashboard.jsx:48-149 | every field of the stored snapshot: the month's product and order counts, units per staff member, monthly and yearly revenue, the per-month order and unit histograms, and both per-category tallies with their category-read traces |
| Dashboard.MonthlyPass | src/pages/Dashboard.jsx:64-96 | after the monthly loop, units per staff equal `StaffTally`, revenue equals the sum of order totals, and the category map is `Tallied` |
| Dashboard.CountMonthlyOrder | src/pages/Dashboard.jsx:68-95 | one order of the monthly loop extends all three figures from the first `i` orders to the first `i + 1` |
| Dashboard.YearlyPass | src/pages/Dashboard.jsx:102-136 | after the yearly loop, slot `m` of each 12-slot array counts the orders and units of month `m`, revenue is the sum of totals, and the category map is `Tallied` |
| Dashboard.CountYearlyOrder | src/pages/Dashboard.jsx:107-135 | one order of the yearly loop bumps only its own month's slots and extends revenue and tally |
| Dashboard.TallyItems | src/pages/Dashboard.jsx:79-95 | the line-item loop turns a tally of the keys seen so far into a tally of those keys followed by this order's category keys |
| Dashboard.TallyItem | src/pages/Dashboard.jsx:80-94 | one line item keeps `Tallied`: a stored category's `sold` grows by one with no read, and an unstored one is read and stored with `sold` 1 if it exists; the map's keys stay in order of first occurrence |
| Dashboard.TallyNewFound | src/pages/Dashboard.jsx:81-91 | the first occurrence of an existing category adds it with its name, image and `sold` 1, and records one read |
| Dashboard.TallyNewMissing | src/pages/Dashboard.jsx:81-84 | a missing category stores nothing and is read again on every occurrence |
| Dashboard.TallyKnown | src/pages/Dashboard.jsx:92-94 | a stored category's `sold` goes up by one and nothing is read |
| Dashboard.StaffTallyStep | src/pages/Dashboard.jsx:70-71 | an order adds its item count to its staff key's entry, creating the entry at 0 if needed, and changes no other entry |
| Dashboard.StaffTallyTotal | src/pages/Dashboard.jsx:68-71 | the per-staff figures add up to the number of line items of the month |
| Dashboard.HistogramStep | src/pages/Dashboard.jsx:116-117 | an order adds 1 to its month's order slot and its item count to its month's unit slot, and nothing to other slots |
| Dashboard.OrderHistogramTotal | src/pages/Dashboard.jsx:102-117 | the order histogram sums to the number of orders and the unit histogram to the number of line items |
| Dashboard.CurrentMonthSlot | src/pages/Dashboard.jsx:60-117 | when the calendar puts an order of the year's window in the current month exactly when it falls on or after the start of the month, the current month's slot of the order histogram is the month's order count and that of the unit histogram is the month's line-item count |
| Dashboard.YearRevenueCoversMonth | src/pages/Dashboard.jsx:104-114 | with non-negative prices the year's revenue is at least the month's |
| Dashboard.ItemKeysMonotone | src/pages/Dashboard.jsx:119-135 | a category occurs among the year's line items at least as often as among the month's |
| Dashboard.MonthTallyWithinYear | src/pages/Dashboard.jsx:79-95 | every category in the month's map is in the year's map, with at least the month's `sold` |
| Dashboard.TopFive | src/pages/Dashboard.jsx:196-198 | the list has min(5, entries) elements, non-increasing `sold`, drawn from the entries, and no omitted entry sold more than one shown |
| Dashboard.PrefixOfSorted | src/pages/Dashboard.jsx:197-198 | a prefix of the sorted entries is ordered, drawn from them, and sells at least as much as any entry left out |
| Dashboard.TopFiveKeepsTies | src/pages/Dashboard.jsx:197 | entries with equal `sold` appear in map insertion order |
| ProductList.Inventory | src/components/ProductList.jsx:14-23 | the two lists partition the products (length and multiset), each holds exactly the sold or unsold ones, the totals are the buying price over the stock and the selling price over the sold, and the sold section shows iff some product is sold |
| ProductList.ShowSoldIffAnySold | src/components/ProductList.jsx:49 | `selling.length > 0` exactly when some product is sold |
| ProductList.InventoryKeepsOrder | src/components/ProductList.jsx:14-15 | both lists keep the products' order |
| ProductList.TotalsNonNegative | src/components/ProductList.jsx:16-23 | with non-negative prices both totals are non-negative |
| Orders.Lower | src/pages/Orders.jsx:126 | lower-casing keeps the length and maps each character |
| Orders.LowerIdempotent | src/pages/Orders.jsx:126 | lower-casing twice is lower-casing once |
| Orders.IncludesIff | src/pages/Orders.jsx:128-129 | `includes` holds exactly when the keyword occurs at some position |
| Orders.FilterOrders | src/pages/Orders.jsx:125-131 | an order is kept exactly when its lower-cased buyer name or phone, where present, contains the lower-cased keyword |
| Orders.FilterOrdersKeepsOrder | src/pages/Orders.jsx:125 | the search keeps the listing's order |
| Orders.EmptyKeyword | src/pages/Orders.jsx:125-131 | the empty search keeps exactly the orders that have a buyer name or a phone |
| Orders.MatchIgnoresKeywordCase | src/pages/Orders.jsx:126 | the keyword's case does not matter |
| Orders.NameMatchKeeps | src/pages/Orders.jsx:128 | a keyword occurring in the lower-cased buyer name keeps the order |
| Orders.ListedOrders | src/pages/Orders.jsx:62-69 | the listing is a permutation of the orders created since the start of the month, all dated, newest first |
| Orders.NewestFirstOrder | src/pages/Orders.jsx:68 | sorting dated orders by descending `createdAt` keeps them and orders them newest first |
| Orders.OpenEdit | src/pages/Orders.jsx:100-108 | the dialog shows each contact field as stored, or "" when it is missing |
| Orders.ApplyUpdate | src/pages/Orders.jsx:110-117 | the update sets the four contact fields and leaves id, date, staff, payment and items unchanged |
| Orders.Saved | src/pages/Orders.jsx:112-117 | after a successful write the edited document takes the four edited fields and every other document is unchanged |
| Orders.SaveEdit | src/pages/Orders.jsx:110-122 | a failed write leaves the collection as it was and the dialog open on the same order; a successful one applies the edit and closes the dialog |
| Orders.SaveEditKeepsRevenue | src/pages/Orders.jsx:110-122 | saving an edit, whether it succeeds or fails, leaves the sum of the collection's order totals unchanged |
| Orders.SavedKeepsRevenue | src/pages/Orders.jsx:112-117 | the successful write leaves the sum of the collection's order totals unchanged |
| Orders.SavedReopens | src/pages/Orders.jsx:100-119 | after a successful save, reopening the edited document shows the values saved |
| Orders.ReopenShowsSaved | src/pages/Orders.jsx:100-117 | reopening a saved order shows exactly the values saved |
| Orders.SaveUnedited | src/pages/Orders.jsx:102-116 | saving unedited values changes nothing when all four fields were stored, and stores "" for a missing one |
| Orders.UpdateKeepsTotal | src/pages/Orders.jsx:112-117 | an edit leaves the order's total unchanged |
| Categories.SortByOrder | src/pages/Category.jsx:102 | the in-place sort leaves the array equal to the stable sort by `order ?? 0` of its old contents |
| Categories.InsertAt | src/pages/Category.jsx:102 | one pass inserts `a[i]` into the sorted prefix as `Insert` does, leaving the rest alone |
| Categories.ShiftLarger | src/pages/Category.jsx:102 | the inner loop shifts right the run of larger keys before `i` and returns the freed slot |
| Categories.Renumbered | src/pages/Category.jsx:159-162 | entry `i` of the renumbered list is entry `i` with `order` set to `i` |
| Categories.RenumberedIsSorted | src/pages/Category.jsx:159-162 | the renumbered list has strictly increasing `order` from 0 and is sorted |
| Categories.ReorderRoundTrip | src/pages/Category.jsx:96-103 | whatever order the store returns the renumbered documents in, sorting them by `order` gives back the dropped list |
| Categories.ResortIsIdentity | src/pages/Category.jsx:102 | re-sorting an already sorted list changes nothing |
| Categories.WriteStep | src/pages/Category.jsx:159-162 | the write for one more entry extends `OrdersWritten` by that entry |
| Categories.WrittenEarlier | src/pages/Category.jsx:159-162 | before an entry's write, its document is as it was or differs only in an `order` written earlier |
| Categories.CategoryScreen.constructor | src/pages/Category.jsx:37-41 | the screen starts with an empty list over the given store |
| Categories.CategoryScreen.SetList | src/pages/Category.jsx:157-162 | the screen shows the dropped list; each listed document still in the store gets the index of its last occurrence as `order`; all other documents are unchanged and no document is added or removed |
| Categories.CategoryScreen.OnSnapshot | src/pages/Category.jsx:96-104 | the shown list becomes the delivered documents sorted by `order ?? 0`, stably |
| Categories.WrittenListRenumbered | src/pages/Category.jsx:157-162 | when the dropped list names every stored category once, each as stored up to its `order`, the store after the writes, listed in the list's order, is the list renumbered |
| Categories.ListsKeysPermutation | src/pages/Category.jsx:96-100 | two listings that each name every stored category once are permutations of each other |
| Categories.ListedPermutation | src/pages/Category.jsx:96-100 | listing the store's documents under a permutation of the ids permutes the documents |
| Categories.Reorder | src/pages/Category.jsx:157-162 | for a dropped list naming every stored category once, each as stored up to its `order`: after the writes, the snapshot of the store in any delivery order shows the dropped list renumbered, and each listed document's stored `order` is its new index |
| Categories.AddCategory | src/pages/Category.jsx:43-75 | an empty name or no image is refused; otherwise a successful upload stores `{name, imageUrl, sold: 0}` and clears the form, and a failure keeps the form |
| Categories.DialogProducts | src/pages/Category.jsx:82-85 | the dialog lists exactly the category's products that are not sold |
| Categories.DialogKeepsOrder | src/pages/Category.jsx:207-208 | the dialog keeps the query's order |
| Categories.EmptyDialogIff | src/pages/Category.jsx:204-208 | the "no unsold products" message shows exactly when every product of the category is sold |
| ProductDialog.NumberField | src/components/ProductDialog.jsx:45-47 | the or-default to "" of a stored number empties the field exactly for a missing value or 0 |
| ProductDialog.InitialValues | src/components/ProductDialog.jsx:40-53 | a new product starts blank with status "Mới" and the current time; an edited one shows its fields (falsy ones as ""), status "Mới" when it has none, its own creation time; never a file, never sold |
| ProductDialog.Errors | src/components/ProductDialog.jsx:19-27 | each field is in error exactly when it is empty, or, for the battery, outside 0..100 |
| ProductDialog.ValidIff | src/components/ProductDialog.jsx:19-27 | a form passes exactly when the four texts are non-empty, the battery is in 0..100 and both prices are present |
| ProductDialog.BlankFormInvalid | src/components/ProductDialog.jsx:40-53 | a blank new form fails on all seven fields |
| ProductDialog.ZeroReopensInvalid | src/components/ProductDialog.jsx:45-47 | a product stored with battery or a price 0 reopens as a form that fails validation |
| ProductDialog.Payload | src/components/ProductDialog.jsx:65-73 | the written record is the form without `imageFile`, with `imagePath` |
| ProductDialog.Submit | src/components/ProductDialog.jsx:55-80 | an invalid form is rejected with its errors; a failed upload or write writes nothing; otherwise the payload is added for a new product or merged into the edited one, with the uploaded path or else the product's old path or "" |
| ProductDialog.Stored | src/components/ProductDialog.jsx:70-79 | the stored document carries the given id, the sold flag and the creation time written |
| ProductDialog.ReopenShowsSaved | src/components/ProductDialog.jsx:40-80 | reopening a saved, unsold product shows the saved form without its file, when no number was 0 and the status was not empty |
| ProductDialog.SaveUnmarksSold | src/components/ProductDialog.jsx:51 | saving the edit form of a sold product stores it as not sold |
| ProductDialog.NoFileKeepsImage | src/components/ProductDialog.jsx:57-62 | without a new file the product keeps its image path, or gets "" when new |
| ProductDialog.NewProductInMonth | src/components/ProductDialog.jsx:52 | a product created now counts among the month's products once the month has begun |

## Left out

- Asynchrony, loading flags, alerts, console output and the concurrent,
  unawaited `updateDoc` calls of `setList`. The writes are modelled as
  applied in list order.
- Orders.Lower: lower-cases the ASCII letters only. JavaScript's
  `toLowerCase` follows Unicode case mapping, for example on Vietnamese
  capitals, which this model does not include.
- Numbers are unbounded integers. Prices, battery and `sold` are never
  floating point, `NaN` or strings, so `Number(...)` coercion and string
  concatenation through `+` are not modelled.
- Documents are records, so a key of the plain JavaScript objects used as
  maps cannot collide with a prototype property (such as "constructor").
- Dashboard.FetchStats: an order always has a `products` list. The source
  reads `data.products.length` before its `|| []` fallback
  (src/pages/Dashboard.jsx:71) and would throw on an order without one.
- Dashboard.TopFive and Categories.CategoryScreen.OnSnapshot: the store's
  delivery order is an input, and ties keep it. `Array.prototype.sort` is
  stable, so this is what the source does.
- Orders.ListedOrders: orders with equal `createdAt` keep collection order.
  Firestore breaks such ties by document id, which the model does not
  represent.
- The dashboard's calendar (`dayjs`, `startOf`, `month()`) is the input
  function `monthOf`, together with the bounds `startOfMonth` and
  `startOfYear`. The model does not derive these from the clock.
- Upload details are not modelled: the `Date.now()` file name, the
  Supabase bucket, `getPublicUrl`, and the cache and upsert options.
- Formik's own behaviour is not modelled: reinitialisation, `resetForm`,
  touched and blur state, and `onClose`. Yup's coercion is also left out.
  A number field is either a number or empty, and a whitespace-only
  string counts as filled, as `required` does.
- Categories.CategoryScreen.SetList: every `updateDoc` of the reorder
  succeeds; a failed write is not modelled.
- Dashboard.FetchStats: `salesByStaff` is a map, so the insertion order of
  its keys, in which the staff list is displayed
  (src/pages/Dashboard.jsx:254), is not modelled. The per-category maps do
  keep their keys in first-occurrence order.
- Dashboard.FetchStats: the month's and the year's order queries are two
  reads with awaits between them (src/pages/Dashboard.jsx:60-62, 98-100).
  The model reads one `orders` collection for both, so orders written
  between the reads are not modelled. YearRevenueCoversMonth,
  MonthTallyWithinYear, CurrentMonthSlot and LaterWindowIsSmaller rest on
  that single collection.
- Deleting an order (`handleDeleteOrder`) or a category (`handleDelete`)
  is a plain store delete of one document and is not modelled.
- The other pages (`Home`, `Login`, `Products`, `Users`), the cloud
  functions and the routing shell are not part of this model.
