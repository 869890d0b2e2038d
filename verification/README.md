# Legal bookstore core, modelled in Dafny

This project models the core of a single-page bookstore for legal books and
journals. The store has a customer side and an administration side:

- **Customer pages.** Customers browse three catalogue pages: Shop, Books and
  Journals. They open a journal's detail page, subscribe to the Orissa
  Criminal Reports, sign in on the Login page and fill in the Checkout form.
- **Admin pages.** Administrators see a dashboard and an overview. They
  manage products through a form with validation, and they list, filter and
  export orders and payment transactions.
- **Hooks.** Three data hooks sit between the pages and the hosted database.
  `useProducts`, `useOrders` and `useTransactions` guard the admin-only
  writes, shape the requests and compute the revenue figures.

The model keeps the decisions the code makes as pure functions over immutable
data. Those decisions are:

- which rows a search and filter keep, and in what order;
- how each sort key orders a catalogue;
- which errors a form shows;
- which requests a guard lets through;
- what each button does to the page state;
- what is sent to the cart;
- the text of the CSV export.

The network, the database, the cart store and the clock are not modelled
inside the pages. Their answers are parameters. A request is a value of a
`StoreRequest`, `SaveRequest`, `AuthRequest` or `TransactionWrite` datatype,
and a cart call is an entry of a log.

Modules follow the source files:

| Dafny module | Source |
|---|---|
| `Database` | `src/types/database.ts` (the status enumerations and records) |
| `Products` | `src/hooks/useProducts.ts` |
| `Orders` | `src/hooks/useOrders.ts` |
| `Revenue` | `src/hooks/useTransactions.ts` |
| `AdminDashboard` | `src/pages/AdminDashboard.tsx` |
| `AdminOverview`, `OrderManager`, `ProductManager`, `ProductForm`, `TransactionManager` | the admin components |
| `Shop`, `Books`, `Journals`, `Login`, `Checkout`, `JournalDetails`, `Orissa` | the pages |

The shared modules are:

- `Text`: JavaScript white space, `trim`, `toLowerCase`, `includes`, `split`/`join`, `String(n)` and `parseInt`.
- `Seqs`: `filter`, `reduce`-sums and order-preserving selections.
- `Sorting`: a stable insertion sort, which stands for `Array.prototype.sort`.
- `Listings`: the catalogue card and the comparators shared by Shop and Books.
- `Csv`: the quoted CSV writer and reader used for the corrected export.
- `Cart`, `Auth`, `AdminUi` and `Wrappers`.

Two behaviours of the code are easy to misread:

- The dashboard shows only the pending and the delivered counts, not one per
  status. `AdminDashboard.CountStatus` is stated for any status, and the six
  counts are proved to partition the orders.
- The week window is the rolling seven times 24 hours before `now`, while the
  month window starts at the first of the calendar month.

Money is a whole number of rupees. Ratings are in tenths, so 4.9 becomes 49.
Instants are integers in milliseconds.

## Model

| member | source | states |
|---|---|---|
| Database.ParseOrderStatus | src/types/database.ts:25 | a stored text is an order status exactly when it is one of the six names, and the parsed status prints back as that text |
| Database.OrderStatusRoundTrip | src/types/database.ts:25 | every order status reads back as itself from its stored name |
| Database.ParsePaymentStatus | src/types/database.ts:33 | a text is a payment status exactly when it is one of the four names, and it reads back as that name |
| Database.PaymentStatusRoundTrip | src/types/database.ts:33 | every payment status reads back as itself from its stored name |
| Database.ParseTransactionStatus | src/types/database.ts:57 | a text is a transaction status exactly when it is one of the four names, and it reads back as that name |
| Database.TransactionStatusRoundTrip | src/types/database.ts:57 | every transaction status reads back as itself from its stored name |
| Database.ParseAdminLevel | src/types/database.ts:15 | only `admin` and `super_admin` are admin levels, and each prints back as the text read |
| Products.ParseCategory | src/hooks/useProducts.ts:12 | only `books`, `journals` and `catalogs` are categories, and each prints back as the text read |
| Products.CategoryRoundTrip | src/hooks/useProducts.ts:12 | every category reads back as itself |
| Products.ApplyPatch | src/hooks/useProducts.ts:89-105 | a partial update writes exactly the present fields: each of title, author, description, price, category, stock, image and visibility takes the patch's value when the patch carries it and keeps the product's otherwise; the id and the timestamps stay |
| Products.EmptyPatchIsIdentity | src/hooks/useProducts.ts:102 | an update with no fields leaves the product as it was |
| Products.VisibleProducts | src/hooks/useProducts.ts:29-34 | an admin receives the whole list; anyone else receives every active product and nothing else, in the store's newest-first order, as an order-preserving selection of the whole list |
| Products.CreateProduct | src/hooks/useProducts.ts:52-67 | the insert is issued exactly when a signed-in admin asks, and it carries the given data; any other session gets "Access denied" |
| Products.UpdateProductRequest | src/hooks/useProducts.ts:89-105 | the update of that id with that patch is issued exactly for a signed-in admin; otherwise "Access denied" |
| Products.DeleteProductRequest | src/hooks/useProducts.ts:127-141 | the delete of that id is issued exactly for a signed-in admin; otherwise "Access denied" |
| Products.FileExtension | src/hooks/useProducts.ts:174 | the extension is the text after the last dot, or the whole name when there is no dot; it never holds a dot |
| Products.ImagePathShape | src/hooks/useProducts.ts:174-176 | the stored path lies under `products/` and keeps the uploaded file's extension; its stem is a non-empty product id, or else (no id, or an empty one) the clock reading |
| Products.UploadProductImage | src/hooks/useProducts.ts:163-180 | the upload to that path is issued exactly for a signed-in admin; otherwise "Access denied" |
| Orders.FetchOrders | src/hooks/useOrders.ts:11-33 | without a user nothing is fetched; an admin gets every order, and a customer gets exactly their own orders in store order |
| Orders.CustomerSeesOwnOrdersInOrder | src/hooks/useOrders.ts:26-28 | a customer's list is an order-preserving selection of the store's list, and it holds no other user's order |
| Orders.CreateOrder | src/hooks/useOrders.ts:41-67 | without a user the call fails with "User not authenticated"; otherwise the procedure call carries the user's id and the given items, total, address and payment method |
| Orders.UpdateOrderStatus | src/hooks/useOrders.ts:77-86 | the update is refused with "Admin access required" exactly when the admin flag is not set; otherwise it writes the new status and the current instant |
| Orders.ApplyStatusUpdate | src/hooks/useOrders.ts:80-86 | the order takes the new status and update instant, and nothing else changes |
| Orders.PaymentStatusFor | src/hooks/useOrders.ts:114 | an order becomes `paid` exactly for a successful attempt; every other attempt marks it `failed` |
| Orders.CreateTransaction | src/hooks/useOrders.ts:94-117 | the insert always comes first; the order's payment status is updated, as the only other write, exactly when the insert succeeded, with the status for that attempt; a failed insert writes nothing more |
| Orders.PendingAttemptMarksFailed | src/hooks/useOrders.ts:114 | recording a still-pending attempt already marks its order `failed` |
| Orders.PaymentStatusNeverPendingOrRefunded | src/hooks/useOrders.ts:114 | recording an attempt never leaves an order `pending` or `refunded` |
| Revenue.GetRevenueStats | src/hooks/useTransactions.ts:99-121 | an empty list gives three zeros |
| Revenue.ComputeRevenueStats | src/hooks/useTransactions.ts:99-121 | a single pass that keeps three running sums computes the same figures as the three filter-and-reduce chains |
| Revenue.SumsSnoc | src/hooks/useTransactions.ts:106-114 | appending a transaction steps each of the three sums by what it contributes |
| Revenue.SuccessfulSnoc | src/hooks/useTransactions.ts:106-108 | an appended transaction adds its amount to the total exactly when it succeeded |
| Revenue.SuccessfulSinceSnoc | src/hooks/useTransactions.ts:109-114 | an appended transaction adds its amount to a window exactly when it succeeded and falls inside the window |
| Revenue.UnsuccessfulIgnored | src/hooks/useTransactions.ts:106 | inserting a pending, failed or cancelled transaction anywhere in a non-empty list changes none of the three figures |
| Revenue.WindowsWithinTotal | src/hooks/useTransactions.ts:106-114 | with non-negative amounts, each window sums a sub-multiset of the successful transactions and lies between zero and the total |
| Revenue.WeekAgainstMonth | src/hooks/useTransactions.ts:103-104 | when the rolling week lies inside the calendar month its figure is at most the month's, and during the month's first week it is at least the month's |
| Revenue.TotalSplitsAtMonthStart | src/hooks/useTransactions.ts:108-111 | the total is this month's figure plus the successful amounts from before the month started |
| Revenue.MonthBoundaryInclusive | src/hooks/useTransactions.ts:110 | a payment made exactly at the start of the month counts for the month; one a millisecond earlier counts only for the total |
| AdminDashboard.CountStatus | src/pages/AdminDashboard.tsx:52-53 | a status count never exceeds the number of orders |
| AdminDashboard.GetOrderStats | src/pages/AdminDashboard.tsx:50-53 | every order is counted, pending plus completed never exceed the total, and with no orders the revenue and both counts are zero |
| AdminDashboard.StatsSnoc | src/pages/AdminDashboard.tsx:50-53 | an appended order adds its amount to the revenue whatever its status, and one to the pending or completed count only when it has that status |
| AdminDashboard.StatusCountsPartition | src/types/database.ts:25 | the six status counts add up to the number of orders |
| AdminDashboard.StatusColorsDistinct | src/pages/AdminDashboard.tsx:55-65 | the six statuses get six different colours, none of them the gray fallback; any other text gets gray |
| AdminDashboard.RecentActivity | src/pages/AdminDashboard.tsx:187 | the card shows the first five orders, or all of them when there are fewer |
| AdminDashboard.AverageOrderValue | src/pages/AdminDashboard.tsx:217 | with orders, the average times the count is the revenue; without orders it is zero |
| AdminDashboard.Rate | src/pages/AdminDashboard.tsx:221-225 | a rate lies between 0 and 100, is the count's share of the total in per cent, and is zero without orders |
| AdminDashboard.RatesWithinWhole | src/pages/AdminDashboard.tsx:219-225 | the completion rate and the pending rate together never exceed 100 |
| AdminDashboard.DashboardGuard | src/pages/AdminDashboard.tsx:28-32 | the page renders exactly for a signed-in admin; every other session is sent to `/login` |
| AdminOverview.GetOverviewStats | src/components/admin/AdminOverview.tsx:14-19 | the cards count every product and order, low-stock and pending are sub-counts that are zero for empty lists, and the revenue is the hook's figures |
| AdminOverview.OverviewSnoc | src/components/admin/AdminOverview.tsx:16-17 | one more product raises the low-stock count by one exactly when it has fewer than ten units; one more order raises the pending count by one exactly when it is pending |
| AdminOverview.LowStockBoundary | src/components/admin/AdminOverview.tsx:17 | a product with ten units is not low on stock, and one with nine is |
| AdminOverview.PendingAgreesWithDashboard | src/components/admin/AdminOverview.tsx:16 | the overview counts pending orders exactly as the dashboard does |
| AdminOverview.RecentOrders | src/components/admin/AdminOverview.tsx:21 | the first five orders are shown; the "No recent orders" case happens exactly when there are no orders |
| AdminOverview.OverviewBadge | src/components/admin/AdminOverview.tsx:110-114 | pending is secondary, confirmed and delivered are default, and every other status is destructive |
| AdminOverview.Alerts | src/components/admin/AdminOverview.tsx:136-166 | the low-stock alert shows exactly when some product is low, and the pending alert exactly when some order is pending; "No active alerts" shows exactly when neither does. Nothing else is shown, and when both alerts show, low stock is above pending |
| OrderManager.FilteredOrders | src/components/admin/OrderManager.tsx:19-25 | the list is never longer than the input |
| OrderManager.FilteredOrdersContents | src/components/admin/OrderManager.tsx:19-25 | an order is listed exactly when its number or shipping name holds the search and its status passes the filter; the list keeps the input order |
| OrderManager.UnfilteredListsAll | src/components/admin/OrderManager.tsx:19-25 | an empty search with `all` lists every order, in order |
| OrderManager.StatusFilterExact | src/components/admin/OrderManager.tsx:23 | filtering by a status keeps only orders with that status, and a filter that names no status lists nothing |
| OrderManager.OrderBadge | src/components/admin/OrderManager.tsx:36-46 | only cancelled is destructive; pending and unknown texts are secondary |
| OrderManager.BadgesDisagreeInTransit | src/components/admin/OrderManager.tsx:40-41 | this list and the overview badge agree on every status except processing and shipped |
| OrderManager.EmptyOrdersText | src/components/admin/OrderManager.tsx:175-178 | the hint to adjust the filters shows exactly when a search or status filter is set; otherwise the idle text shows |
| ProductManager.FilteredProducts | src/components/admin/ProductManager.tsx:20-25 | the list is never longer than the input |
| ProductManager.FilteredProductsContents | src/components/admin/ProductManager.tsx:20-25 | a product is listed exactly when its title or author holds the search and its category passes the filter; the list keeps the input order |
| ProductManager.UnfilteredListsAll | src/components/admin/ProductManager.tsx:20-25 | an empty search with `all` lists every product |
| ProductManager.TogglePatch | src/components/admin/ProductManager.tsx:36-38 | the toggle's update writes only visibility, negated |
| ProductManager.ToggleInvolution | src/components/admin/ProductManager.tsx:36-38 | the toggle is issued exactly for a signed-in admin; it flips visibility and nothing else, and toggling twice restores the product |
| ProductManager.StockText | src/components/admin/ProductManager.tsx:208-209 | the stock cell starts with the count and " units" |
| ProductManager.StockTextFlagsLow | src/components/admin/ProductManager.tsx:207-209 | " (Low)" is appended exactly when the stock is below ten |
| ProductManager.EmptyProductsText | src/components/admin/ProductManager.tsx:223-226 | the hint to adjust the filters shows exactly when a search or category filter is set |
| ProductManager.HandleEdit | src/components/admin/ProductManager.tsx:27-30 | editing selects that product and opens the form |
| ProductManager.AddProduct | src/components/admin/ProductManager.tsx:68-70 | adding opens the form with no product selected |
| ProductManager.FormSuccess | src/components/admin/ProductManager.tsx:40-43 | a successful save closes the form and clears the selection |
| ProductManager.FormCancel | src/components/admin/ProductManager.tsx:45-48 | cancelling closes the form and clears the selection |
| ProductManager.SuccessAndCancelAgree | src/components/admin/ProductManager.tsx:40-48 | saving and cancelling end in the same closed state, whether editing or creating |
| ProductForm.InitialForm | src/components/admin/ProductForm.tsx:25-33 | a new form starts blank and active; an existing product's form keeps its visibility, including inactive |
| ProductForm.HandleInputChange | src/components/admin/ProductForm.tsx:40-45 | the edited field takes the new value and its error is blanked; every other field and error is unchanged |
| ProductForm.Validate | src/components/admin/ProductForm.tsx:64-77 | the title error is recorded exactly for a blank title, and the price and stock errors exactly for negative values, each with its message and nothing else |
| ProductForm.ValidateForm | src/components/admin/ProductForm.tsx:79-80 | the form is valid exactly when its trimmed title is non-empty and neither price nor stock is negative |
| ProductForm.ValidIff | src/components/admin/ProductForm.tsx:64-81 | no error is recorded exactly when the trimmed title is non-empty and neither price nor stock is negative; zero is accepted |
| ProductForm.EditClearsOnlyItsError | src/components/admin/ProductForm.tsx:40-45 | after a failed validation, editing a field hides that field's message and no other |
| ProductForm.NumberInputRoundTrip | src/components/admin/ProductForm.tsx:214 | a typed whole number reads back as itself |
| ProductForm.NumberInputFallback | src/components/admin/ProductForm.tsx:214 | an empty box, or text that does not start with a blank, sign or digit, reads as zero |
| ProductForm.Submit | src/components/admin/ProductForm.tsx:83-118 | an invalid form sends nothing. A chosen image is uploaded first, under the product's id, and a failed upload stops there. Otherwise exactly one save follows the upload, if any: an update of the product or a create, and success is reported exactly when the save succeeded |
| ProductForm.SubmitSavesFormAndImage | src/components/admin/ProductForm.tsx:91-113 | the save writes every form field, and as image the uploaded URL, else the product's current image, else none |
| ProductForm.UnchangedSaveIsIdentity | src/components/admin/ProductForm.tsx:104-111 | saving an opened product unchanged, without a new image, writes back exactly what was stored when it had an author and a description |
| ProductForm.UnchangedSaveFillsAuthor | src/components/admin/ProductForm.tsx:27 | saving unchanged writes an absent author back as the empty string |
| TransactionManager.FilteredTransactions | src/components/admin/TransactionManager.tsx:15-22 | the list is never longer than the input |
| TransactionManager.FilteredTransactionsContents | src/components/admin/TransactionManager.tsx:15-22 | a transaction is listed exactly when its reference, order number or customer name holds the search and its status passes the filter; the list keeps the input order |
| TransactionManager.EmptySearchNeedsAField | src/components/admin/TransactionManager.tsx:16-19 | the empty search matches exactly the transactions with a reference or a joined order; one with neither stays hidden |
| TransactionManager.StatusFilterExact | src/components/admin/TransactionManager.tsx:20 | filtering by a status keeps only that status |
| TransactionManager.TransactionBadge | src/components/admin/TransactionManager.tsx:26-34 | success is default; failed and cancelled are destructive; pending and unknown texts are secondary |
| TransactionManager.DisplayId | src/components/admin/TransactionManager.tsx:164 | a non-empty reference is shown as is; otherwise `TXN-` and the first eight characters of the row id, at most twelve characters |
| TransactionManager.FallbackIdsDistinguishPrefixes | src/components/admin/TransactionManager.tsx:164 | without references, rows whose ids differ in the first eight characters are shown differently |
| TransactionManager.CsvLines | src/components/admin/TransactionManager.tsx:37-48 | when no value holds a line break, the export splits into the header line followed by one line per listed transaction, in list order |
| TransactionManager.CsvRowFields | src/components/admin/TransactionManager.tsx:39-47 | when no value holds a comma, a row splits back into its seven values |
| TransactionManager.CommaInDateShiftsColumns | src/components/admin/TransactionManager.tsx:46-47 | a date text with one comma makes the row split into eight values under the seven-column header |
| TransactionManager.QuotedCsvReadsBack | src/components/admin/TransactionManager.tsx:37-48 | the quoted export always reads back as the header and one seven-value record per listed transaction, whatever the values hold |
| Csv.ReadWritten | src/components/admin/TransactionManager.tsx:37-48 | any non-empty document of non-empty records, written with every field quoted, reads back as exactly those records |
| Csv.ReadRecord | src/components/admin/TransactionManager.tsx:47 | a quoted record reads back as its fields when the text after it starts with neither a comma nor a quote |
| Csv.ReadEscaped | src/components/admin/TransactionManager.tsx:40-46 | an escaped value followed by the closing quote reads back as the value |
| Listings.LexCompare | src/pages/Shop.tsx:141 | the comparison is -1, 0 or 1, and 0 exactly for equal titles |
| Listings.LexAntisymmetric | src/pages/Books.tsx:103 | swapping the titles flips the sign |
| Listings.LexTransitive | src/pages/Books.tsx:103 | "not after" is transitive |
| Listings.FeaturedCompareByRank | src/pages/Shop.tsx:132-139 | the featured comparator orders by promotion rank: featured, then bestseller, then new arrival |
| Listings.ComparatorPreorder | src/pages/Shop.tsx:130-151 | every comparator of either page, under any sort key, is a consistent total preorder |
| Listings.PriceLowOrder | src/pages/Shop.tsx:142-143 | `price-low` lists prices in non-decreasing order |
| Listings.PriceHighOrder | src/pages/Shop.tsx:144-145 | `price-high` lists prices in non-increasing order |
| Listings.RatingOrder | src/pages/Shop.tsx:146-147 | `rating` lists ratings in non-increasing order |
| Listings.NameOrder | src/pages/Shop.tsx:140-141 | `name` lists titles in character-code order |
| Listings.UnknownKeyKeepsOrder | src/pages/Books.tsx:110-111 | a sort key the page does not know keeps the filtered order |
| Listings.FeaturedFirst | src/pages/Shop.tsx:132-139 | under `featured` every featured listing comes before every other, and ranks never decrease |
| Listings.TiesKeepOrder | src/pages/Shop.tsx:130 | listings the comparator ties keep their catalogue order |
| Listings.ViewContents | src/pages/Shop.tsx:121-151 | the rendered list shows exactly the passing listings, each as often as in the filtered list |
| Listings.CardButton | src/pages/Shop.tsx:153-161 | the card's button is disabled exactly when the listing is out of stock, and its cart call carries the listing's id, title, price, image and category |
| Sorting.SortSorted | src/pages/Shop.tsx:130 | for a consistent comparator the sorted list is ordered by it |
| Sorting.SortStable | src/pages/Shop.tsx:130 | elements the comparator ties keep their input order |
| Sorting.Sort | src/pages/Shop.tsx:130 | the sort returns a permutation of its input |
| Shop.ShopViewContents | src/pages/Shop.tsx:121-127 | a product is listed exactly when it passes search, category and the in-stock toggle; the list is a permutation of the passing products |
| Shop.InitialViewShowsAll | src/pages/Shop.tsx:106-109 | on first load, under any sort key, every product is shown |
| Shop.InStockToggleHidesSoldOut | src/pages/Shop.tsx:125 | with the toggle on only in-stock products are shown, and the out-of-stock tax guide is hidden |
| Shop.EveryProductDiscounted | src/pages/Shop.tsx:269 | every shop product's original price exceeds its price, so every card shows a discount |
| Books.BooksViewContents | src/pages/Books.tsx:92-97 | a book is listed exactly when it passes search and category; stock plays no part |
| Books.OutOfStockStillListed | src/pages/Books.tsx:197 | the out-of-stock family-law title is still listed, only with a disabled button |
| Books.DefaultSortByTitle | src/pages/Books.tsx:81 | the initial `name` key lists titles in character-code order |
| Books.FeaturedKeyKeepsOrder | src/pages/Books.tsx:100-113 | the Books page has no `featured` key: that key keeps the filtered catalogue order |
| Journals.ClearFilters | src/pages/Journals.tsx:128-132 | Clear Filters empties the search and selects `All` for type and year |
| Journals.JournalsViewContents | src/pages/Journals.tsx:67-72 | a journal is listed exactly when its title holds the search and its type and year pass; the list keeps catalogue order |
| Journals.ClearedShowsAll | src/pages/Journals.tsx:128-132 | after Clear Filters all six journals are listed, in catalogue order |
| Journals.Year2022IsEmpty | src/pages/Journals.tsx:65 | the year selector offers 2022, but that choice lists nothing |
| Login.LooksLikeEmailMatchesPattern | src/pages/Login.tsx:41 | the executable check agrees with the unanchored pattern `\S+@\S+\.\S+` on every text |
| Login.Validate | src/pages/Login.tsx:39-63 | each field's error is recorded under exactly the condition the page tests, with the message for that case, for every one of the five fields |
| Login.HandleSubmit | src/pages/Login.tsx:65-88 | a request is sent exactly when there is no error; it is a sign-up exactly in sign-up mode, a sign-up carries exactly the typed email, password and full name, and a sign-in carries the email and password and, exactly for the admin login, the typed security code |
| Login.PasswordLengthCountsCodeUnits | src/pages/Login.tsx:47 | the length rule counts UTF-16 code units: three emoji pass it and three letters do not |
| Login.RequestIffValid | src/pages/Login.tsx:39-67 | a request is made exactly for a well-formed email, a password of six or more UTF-16 code units, a non-blank name and matching passwords when signing up, and a code for the admin login |
| Login.UserLoginIgnoresCode | src/pages/Login.tsx:61 | for a user login, whatever is in the security code box does not decide whether a request is made |
| Login.ToggleLoginType | src/pages/Login.tsx:115-119 | switching the login type clears every error and the security code and leaves the other fields alone |
| Login.ToggleBackLosesOnlyCode | src/pages/Login.tsx:115-119 | switching to admin and back returns the form with only the security code emptied |
| Login.UserName | src/pages/Login.tsx:127 | no name for an empty email; otherwise the email up to its first `@`, or the whole email when there is none |
| Checkout.HandleInputChange | src/pages/Checkout.tsx:25-30 | the named field takes the typed value and the other four keep theirs |
| Checkout.ValidIffNoBlankField | src/pages/Checkout.tsx:38 | the form is valid exactly when no field is made only of white space |
| Checkout.NonBlankEditKeepsValid | src/pages/Checkout.tsx:25-38 | typing a non-blank value into a valid form keeps it valid |
| Checkout.BlankEditInvalidates | src/pages/Checkout.tsx:25-38 | a blank value in any field makes the form invalid |
| Checkout.SummaryLines | src/pages/Checkout.tsx:105 | one summary line per cart item, with the line total equal to price times quantity |
| Checkout.View | src/pages/Checkout.tsx:40 | the empty-cart view shows exactly for an empty cart; otherwise the continue button is disabled exactly when the form is invalid |
| Checkout.FreshFormDisabled | src/pages/Checkout.tsx:198 | before anything is typed the continue button is disabled |
| JournalDetails.Lookup | src/pages/JournalDetails.tsx:12-96 | an entry is found exactly for the ids "1" to "4"; it carries that id and a positive price |
| JournalDetails.PaddedIdNotFound | src/pages/JournalDetails.tsx:94 | ids are matched as text, so "01" and " 1" find nothing |
| JournalDetails.Decrement | src/pages/JournalDetails.tsx:180 | the minus button lowers the quantity by one but never below one |
| JournalDetails.Increment | src/pages/JournalDetails.tsx:188 | the plus button raises the quantity by exactly one |
| JournalDetails.QuantityStaysPositive | src/pages/JournalDetails.tsx:180-188 | from one, no series of presses brings the quantity below one or above one more per press |
| JournalDetails.MinusUndoesPlus | src/pages/JournalDetails.tsx:180-188 | minus after plus restores the quantity |
| JournalDetails.HandleAddToCart | src/pages/JournalDetails.tsx:109-122 | the cart receives one call per unit, each with the journal's id, title, price, image and category, and then the toast names the quantity |
| JournalDetails.CallsSumToButtonTotal | src/pages/JournalDetails.tsx:201 | the prices of the calls made sum to the amount on the button |
| Orissa.Total | src/pages/OrissaCriminalReports.tsx:252-253 | the total is 3200 times the yearly counter, or 450 times the part counter, by the selected option |
| Orissa.Select | src/pages/OrissaCriminalReports.tsx:180-195 | choosing an option keeps both counters |
| Orissa.Decrement | src/pages/OrissaCriminalReports.tsx:217-223 | minus lowers only the selected counter, never below one |
| Orissa.Increment | src/pages/OrissaCriminalReports.tsx:234-240 | plus raises only the selected counter, by one |
| Orissa.ButtonsKeepCountersPositive | src/pages/OrissaCriminalReports.tsx:15-16 | from positive counters, every button keeps both counters positive, and the total is at least one unit's price |
| Orissa.UnitIdEndsWithIndex | src/pages/OrissaCriminalReports.tsx:39 | what follows the last `-` of a unit's id is its loop index |
| Orissa.UnitIdsDistinct | src/pages/OrissaCriminalReports.tsx:39 | units added at different loop indices get different ids, whatever the clock reads |
| Orissa.HandleAddToCart | src/pages/OrissaCriminalReports.tsx:31-50 | one call per unit of the selected counter, each with that option's title and price and a distinct id, then both counters reset to one |
| Orissa.AddedPricesMatchTotal | src/pages/OrissaCriminalReports.tsx:34-45 | the calls' prices sum to the unit price times the number of calls |
| Orissa.ProceedToCheckout | src/pages/OrissaCriminalReports.tsx:52-55 | proceeding makes the same calls and reset as the add button, then goes to `/checkout` |
| Text.TrimStart | src/pages/Checkout.tsx:38 | the result is the suffix left after dropping only white space, and it does not start with white space |
| Text.TrimEnd | src/pages/Checkout.tsx:38 | the result is the prefix left after dropping only white space, and it does not end with white space |
| Text.TrimEmptyIff | src/components/admin/ProductForm.tsx:67 | a text trims to empty exactly when it is all white space |
| Text.Lower | src/components/admin/ProductManager.tsx:21 | lower-casing keeps the length and maps each character on its own |
| Text.EmptyTermMatches | src/components/admin/ProductManager.tsx:21 | every text holds the empty search |
| Text.Split | src/pages/Login.tsx:127 | the pieces are at least one, free of the separator, and join back to the text |
| Text.SplitJoin | src/hooks/useProducts.ts:174 | splitting a join of separator-free pieces gives the pieces back |
| Text.LastPiece | src/hooks/useProducts.ts:174 | the last piece holds no separator and is the text after the last separator, or the whole text |
| Text.FirstPiece | src/pages/Login.tsx:127 | the first piece is the prefix before the first separator |
| Text.LastPieceAfterSeparator | src/hooks/useProducts.ts:174-175 | the last piece of a text ending in a separator and a separator-free tail is that tail |
| Text.NatToStringValue | src/hooks/useProducts.ts:175 | a printed natural number denotes that number |
| Text.ParseIntRoundTrip | src/components/admin/ProductForm.tsx:214 | parsing a printed integer gives it back |
| Text.IntToStringInjective | src/pages/OrissaCriminalReports.tsx:39 | distinct integers print differently |
| Seqs.FilterIsSubseq | src/components/admin/ProductManager.tsx:20 | a filter keeps an order-preserving selection of its input |
| Seqs.SumPartition | src/hooks/useTransactions.ts:108-111 | the passing sum plus the failing sum is the whole sum |
| Text.Utf16Length | src/pages/Login.tsx:47 | a string's `length` lies between its number of characters and twice that, and equals it exactly when no character lies outside the Basic Multilingual Plane |
| Cart.Repeat | src/pages/JournalDetails.tsx:110-118 | `n` identical cart calls |

## Left out

- Network, database and storage: every query, insert, update, delete and
  upload is a request value. Store errors appear only as boolean or `Result`
  inputs, such as `saveOk` and `uploaded` in `ProductForm.Submit` and
  `inserted` in `Orders.CreateTransaction`. Refreshing lists after a write
  and the real-time subscriptions are not modelled.
- The cart store (`CartContext`) is not part of this model: `addToCart` is
  an entry appended to a log, and the cart's merging of equal ids is not
  modelled.
- Authentication is not modelled. `signIn` and `signUp` are the request
  values of `Login.HandleSubmit`, and the session is the pair of a user id and
  the `isAdmin` flag. What happens after the request is not modelled: the
  loader stages, the timers, the redirect and toggling the sign-up mode back.
- Toasts, `alert` and `console` output are not modelled. Only the cart toast's
  text (`JournalDetails.AddedMessage`) and the error texts are kept.
- Clocks are parameters: `now` and `monthStart` in `Revenue` and
  `Products.ImagePath`, and a clock function in `Orissa.HandleAddToCart`.
  Building the month start from a local calendar date is not modelled.
- Date and number formatting are not modelled: `toLocaleString`,
  `toLocaleDateString` and `toFixed`. In the CSV export the date text is a
  parameter function.
- The blob, object URL and download link of the CSV export are not modelled.
  Only the exported text is.
- Presentation-only parts are not modelled: layout, icons, the loading
  spinners, the dialogs' markup, the image preview (`FileReader`), the
  order-details dialog, the sidebar and the other pages.
- AdminDashboard.Rate: states the exact per-cent share as a real number;
  the one-decimal rounding of `toFixed(1)` is not modelled.
- AdminDashboard.AverageOrderValue: the two-decimal rounding of `toFixed(2)`
  is not modelled.
- Listings.LexCompare: `localeCompare` is approximated by character-code
  order, since locale collation tables are outside the model.
- Text.Lower: `toLowerCase` maps only the ASCII letters A to Z. The
  Unicode case tables are not modelled.
- Text.ParseInt: it parses base-ten integers only. The `0x` hexadecimal prefix
  that `parseInt` accepts without a radix is not modelled.
- ProductForm.NumberInput: the price box uses `parseFloat`, but the model
  keeps only the leading run of a sign and decimal digits, because prices are
  whole rupees here. So a fraction is dropped ("1.5" reads as 1, ".5" as 0),
  the exponent form is not read ("1e3" is 1000 in the source and 1 here), and
  `Infinity` reads as 0.
- Database: `AdminUser.permissions` (an untyped record) and
  `Transaction.gateway_response` (the payment provider's raw answer) are not
  part of the records. `Orders.NewTransaction` drops the gateway response that
  the insert passes through unread, since no rule of the core looks at it.
- TransactionManager.DisplayId: takes the first eight characters of the row
  id, while `slice(0, 8)` takes eight UTF-16 code units. The two agree for
  the ASCII UUIDs the database assigns; other ids are not covered.
- JournalDetails.Lookup: only the four catalogue keys are modelled. A route id
  naming an inherited object property, such as `constructor`, would find a
  non-journal value in the source; that case is left out.
- JournalDetails.ButtonTotal: the amount's `toLocaleString` formatting is
  not modelled, so there is no contract on its text.
- The percentage on the discount badge (`Math.round`) is not modelled.
  `Listings.ShowsDiscount` states only when the badge appears.
- Listings and journals carry only the fields the decisions use. Story,
  credits and long descriptions on the detail pages are not modelled.
- `src/integrations/supabase/types.ts`, `AuthContext` and the other
  components are not part of this model.

## Findings

| source | as written | input that shows it | evidently intended | confidence | as-written member | corrected member |
|---|---|---|---|---|---|---|
| src/components/admin/TransactionManager.tsx:37-48 | each row's values are joined with `,` and nothing is quoted or escaped | a transaction whose date prints as `10/11/2026, 3:00:00 PM` (as `toLocaleString` does in common locales), or a customer name holding a comma | each exported row reads back as its seven values under the seven-column header | high; not executed | TransactionManager.CommaInDateShiftsColumns | TransactionManager.QuotedCsvReadsBack |

`TransactionManager.CommaInDateShiftsColumns` proves the failure: a row
whose first six values hold no comma, and whose date text holds exactly one,
splits into eight values. The corrected export, `TransactionManager.QuotedCsvContent`,
quotes every value as section 2 of RFC 4180 describes.
`TransactionManager.QuotedCsvReadsBack` proves that it reads back as the header
and one seven-value record per listed transaction, with no condition on the
values. It relies on `Csv.ReadWritten`.
