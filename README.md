# swclabs core, modelled in Dafny

This project models the sequential core of the swclabs e-commerce backend, written in Go. It covers five pieces:

- **Cache decorators over repositories.** The orders decorator is cache-aside: `Get` and `GetProductByOrderID` hash a key built from the method name and arguments. They answer a hit from the cache. On a miss they ask the wrapped repository and store the result. The other orders methods pass straight through. The categories and addresses decorators hold a cache that they never touch.
- **The task decorator of the manager service.** `SignUp`, `UpdateUserInfo` and `OAuth2SaveUser` each enqueue one task on the critical queue instead of calling the service. The read operations delegate to the service.
- **The account and user repositories**, in three generations:
  - `internal/core/repos/accounts`
  - `internal/core/repository/accounts`
  - `internal/repo/users.go`

  Their `SaveInfo` rejects a missing email. It then issues one update per non-empty field, in a fixed order, and stops at the first failing update. The two older ones keep a shared `data` buffer that every `GetByEmail` overwrites and returns.
- **The product service.** It covers product views, the stock page with its status counters, inventory details, product and inventory creation, updates and deletes, search, and image uploads.
- **The order and coupon code generators** of `pkg/utils/code.go`.

Collaborators appear as values. The database, the cache reads, the message broker, the JSON and decimal codecs, the blob store, the clock and the random source are all given as functions or per-call parameters, and the model proves what each operation does *given* their answers:

- **Database writes** go to `Backend.WriteLog`, an append-only log whose `reply` oracle says what the n-th write answers. `Backend.Attempt` specifies "issue these writes in order and stop at the first failure".
- **Database reads** are oracle functions. They do not reflect the writes in the log.
- **Go's `strconv.FormatInt`/`ParseInt`/`Atoi`** are modelled in `Strconv`, and **`strings.Split`/`Join`** with a one-character separator in `Strings`. Both come with round-trip lemmas.

Modules:

| file | module | models |
|---|---|---|
| common.dfy | Common | `Error`, `Option`, `Result`, `Reply` |
| traverse.dfy | Traverse | the loop "convert each element, return at the first error"; counting |
| backend.dfy | Backend | the write log and the stop-at-first-failure specification |
| strconv.dfy, strings.dfy | Strconv, Strings | the Go standard-library functions the core calls |
| entities.dfy | Entities | accounts, users, and the records a lookup returns a pointer to |
| sql.dfy | Sql | the SQL statements, the connection, and the shared `SaveInfo` sequences |
| orders_cache.dfy | OrdersCache | internal/core/repos/orders/orders.cache.go |
| categories_cache.dfy | CategoriesCache | internal/core/repos/categories/categories.cache.go |
| addresses_cache.dfy | AddressesCache | internal/core/repos/addresses/addresses.cache.go |
| manager_task.dfy | ManagerTask | internal/core/service/manager/manager.task.go |
| repos_accounts.dfy | ReposAccounts | internal/core/repos/accounts/accounts.go |
| repository_accounts.dfy | RepositoryAccounts | internal/core/repository/accounts/accounts.go |
| repo_users.dfy | RepoUsers | internal/repo/users.go |
| products_model.dfy | ProductsModel | what each product-service operation answers, as functions, with lemmas |
| products_service.dfy | ProductsService | internal/core/service/products/products.go, as a class proved against ProductsModel |
| code.dfy | Code | pkg/utils/code.go |

## Model

| member | source | states |
|---|---|---|
| OrdersCache.Cache.constructor | internal/core/repos/orders/orders.cache.go:13-18 | the decorator holds the given cache contents and hash function and has not called the repository yet |
| OrdersCache.GetKeyTextInjective | internal/core/repos/orders/orders.cache.go:42 | two `Get` key texts are equal only for equal (userID, limit) pairs: the ':' separator makes the text unambiguous |
| OrdersCache.ProductsKeyTextInjective | internal/core/repos/orders/orders.cache.go:59 | two `GetProductByOrderID` key texts are equal only for equal order ids |
| OrdersCache.KeyTextsDisjoint | internal/core/repos/orders/orders.cache.go:42-59 | a `Get` key text never equals a `GetProductByOrderID` key text, whatever the arguments |
| OrdersCache.DistinctKeys | internal/core/repos/orders/orders.cache.go:42-59 | under an injective hash, distinct arguments give distinct cache keys, and the two methods' keys never collide |
| OrdersCache.Cache.Get | internal/core/repos/orders/orders.cache.go:41-55 | a hit returns the cached orders with no error, leaves the cache alone and does not call the repository. A read failure counts as a miss. A miss calls the repository once with the same arguments. A repository error is returned with nothing cached. A load is stored under the key and returned. A failed store still returns the load, paired with the store's error |
| OrdersCache.Cache.GetProductByOrderID | internal/core/repos/orders/orders.cache.go:58-72 | the same hit, miss, error and store behaviour for products under the order id's key |
| OrdersCache.Cache.Create | internal/core/repos/orders/orders.cache.go:36-38 | returns the repository's answer; the cache is unchanged and one call is logged |
| OrdersCache.Cache.GetByUUID | internal/core/repos/orders/orders.cache.go:31-33 | returns the repository's answer; the cache is unchanged |
| OrdersCache.Cache.GetItemByCode | internal/core/repos/orders/orders.cache.go:26-28 | returns the repository's answer; the cache is unchanged |
| OrdersCache.Cache.InsertProduct | internal/core/repos/orders/orders.cache.go:75-77 | returns the repository's error; the cache is unchanged |
| OrdersCache.Cache.GetTwice | internal/core/repos/orders/orders.cache.go:41-55 | after a successful miss, a second `Get` with the same arguments answers the same orders, even if the repository now answers differently, and the repository is called only once |
| OrdersCache.Cache.StaleAfterCreate | internal/core/repos/orders/orders.cache.go:36-55 | `Create` does not invalidate: a `Get` after a `Create` for the same user answers the orders cached before it |
| CategoriesCache.UseCache | internal/core/repos/categories/categories.cache.go:17-22 | the decorator holds the given cache and repository |
| CategoriesCache.Transparent | internal/core/repos/categories/categories.cache.go:25-46 | `GetByID`, `GetLimit`, `Insert`, `DeleteByID` and `Update` each answer exactly what the repository answers for the same argument, and the answer does not depend on the cache |
| AddressesCache.UseCache | internal/core/repos/addresses/addresses.cache.go:12-17 | the decorator holds the given cache and repository |
| AddressesCache.Transparent | internal/core/repos/addresses/addresses.cache.go:25-37 | `GetByID`, `GetByUserID` and `Insert` each answer exactly what the repository answers, and the answer does not depend on the cache |
| ManagerTask.Task.UseTask | internal/core/service/manager/manager.task.go:22-27 | the decorator wraps the given service, with an empty queue and nothing delegated |
| ManagerTask.Task.Exec | internal/core/service/manager/manager.task.go:30-51 | one enqueue: the task is appended exactly when the broker accepts it, the broker's error is returned, and the service is not called |
| ManagerTask.Task.SignUp | internal/core/service/manager/manager.task.go:30-35 | appends one critical-queue task named after the sign-up handler and carrying the request; returns the enqueue error; never calls the service; keeps every queued task critical |
| ManagerTask.Task.UpdateUserInfo | internal/core/service/manager/manager.task.go:38-43 | the same for the user-update request |
| ManagerTask.Task.OAuth2SaveUser | internal/core/service/manager/manager.task.go:46-51 | the same for the OAuth2 request |
| ManagerTask.Task.Login | internal/core/service/manager/manager.task.go:54-56 | returns the service's answer for the same request; the queue is unchanged |
| ManagerTask.Task.CheckLoginEmail | internal/core/service/manager/manager.task.go:59-61 | returns the service's answer; the queue is unchanged |
| ManagerTask.Task.UserInfo | internal/core/service/manager/manager.task.go:64-66 | returns the service's answer; the queue is unchanged |
| ManagerTask.Task.UploadAvatar | internal/core/service/manager/manager.task.go:69-71 | returns the service's answer; the queue is unchanged |
| Backend.AttemptSpec | internal/core/repos/accounts/accounts.go:63-82 | issuing planned writes in order stops at the first failure: the issued writes are a prefix of the plan, all but the last succeeded, and the result is that write's error, or no error when the whole plan succeeded |
| Backend.AttemptedMeaning | internal/core/repos/accounts/accounts.go:63-82 | for a log before and after the writes: earlier entries are kept, only a prefix of the plan is appended, and every appended write but the last succeeded |
| Backend.AttemptedOutcome | internal/core/repos/accounts/accounts.go:63-82 | for the same log: no error exactly when the whole plan was appended and every write succeeded; otherwise the error is the last appended write's |
| Sql.UpdateIfSet | internal/core/repos/accounts/accounts.go:63-68 | a field contributes a write exactly when it is non-empty |
| Sql.AccountUpdatesShape | internal/core/repos/accounts/accounts.go:63-80 | the planned account updates are username, password and role, in that order. Each is present if and only if its field is non-empty and carries (value, email) |
| Sql.UserUpdatesShape | internal/repo/users.go:59-78 | the planned user updates are at most four. Each carries a non-empty value and the user's email. The first-name, last-name, image and phone-number updates are each present exactly when that field is non-empty |
| Sql.UserUpdatesOrdered | internal/repo/users.go:59-78 | the planned user updates keep the order first name, last name, image, phone number |
| Sql.WriteIfSet | internal/core/repos/accounts/accounts.go:63-68 | one guarded update: no write for an empty value, otherwise exactly one write whose error is returned. Either the plan's outcome is settled or it continues with the rest |
| Sql.SaveAccount | internal/core/repos/accounts/accounts.go:58-83 | an empty email gives "missing key: email " with no write; otherwise the log gains exactly the stop-at-first-failure prefix of the account updates and the result is its error |
| Sql.SaveUser | internal/repo/users.go:55-80 | the same for the four user fields |
| Sql.SavedAccountFields | internal/core/repos/accounts/accounts.go:63-82 | when `SaveInfo` succeeds, every planned update was written, and each field's update is in the log exactly when that field is non-empty |
| Sql.SavedUserFields | internal/repo/users.go:59-79 | the same for the user fields |
| ReposAccounts.Accounts.New | internal/core/repos/accounts/accounts.go:23-25 | the repository uses the given connection |
| ReposAccounts.Accounts.GetByEmail | internal/core/repos/accounts/accounts.go:33-44 | on success a freshly allocated record holding the row; on failure nil and the error |
| ReposAccounts.Accounts.Insert | internal/core/repos/accounts/accounts.go:47-55 | exactly one insert of (username, role, email, password, createdAt, type); its error is returned |
| ReposAccounts.Accounts.SaveInfo | internal/core/repos/accounts/accounts.go:58-83 | an empty email is rejected before any write; otherwise the account updates are attempted in order and the first failure stops them |
| RepositoryAccounts.Accounts.New | internal/core/repository/accounts/accounts.go:23-32 | the repository uses the connection it is given and owns a fresh shared record. The source opens that connection itself, which is not modelled |
| RepositoryAccounts.Accounts.Use | internal/core/repository/accounts/accounts.go:35-38 | the connection becomes `tx` and the same receiver is returned |
| RepositoryAccounts.Accounts.GetByEmail | internal/core/repository/accounts/accounts.go:41-49 | on success it returns the shared record, overwritten with the row; on failure nil and the error, with the record untouched |
| RepositoryAccounts.Accounts.LookupTwice | internal/core/repository/accounts/accounts.go:41-49 | two successful lookups return the same object, and it holds the second row: the first caller's result is overwritten |
| RepositoryAccounts.Accounts.Insert | internal/core/repository/accounts/accounts.go:52-60 | exactly one insert of (username, role, email, password, createdAt, type) |
| RepositoryAccounts.Accounts.SaveInfo | internal/core/repository/accounts/accounts.go:63-86 | the same email guard and stop-at-first-failure update sequence as the newer repository |
| RepoUsers.Users.New | internal/repo/users.go:18-27 | the repository uses the connection it is given and owns a fresh shared record. The source opens that connection itself, which is not modelled |
| RepoUsers.Users.GetByEmail | internal/repo/users.go:29-34 | on success it returns the shared record overwritten with the row; on failure nil and the error |
| RepoUsers.Users.Info | internal/repo/users.go:47-53 | on success a freshly allocated record holding the joined row |
| RepoUsers.Users.SharedAndFresh | internal/repo/users.go:29-53 | two `GetByEmail` calls return the same object holding the second row, while two `Info` calls return distinct objects, each holding its own row |
| RepoUsers.Users.Insert | internal/repo/users.go:36-45 | exactly one insert of (email, phone number, first name, last name, image) |
| RepoUsers.Users.OAuth2SaveInfo | internal/repo/users.go:82-91 | exactly one upsert with the same arguments |
| RepoUsers.Users.SaveInfo | internal/repo/users.go:55-80 | an empty email is rejected before any write; otherwise the four user updates are attempted in order and the first failure stops them |
| Strconv.ParseFormat | internal/core/service/products/products.go:95-105 | parsing the decimal form of any 64-bit integer gives it back with no error |
| Strconv.ParseIntOverflowFirst | internal/core/service/products/products.go:438-443 | an optional '-' and digits worth more than 64 unsigned bits parse to the nearest signed 64-bit bound with a range error, whatever follows the digits |
| Strconv.ParseIntSyntax | internal/core/service/products/products.go:438-443 | digits worth at most 64 unsigned bits followed by a non-digit parse to 0 with a syntax error |
| ProductsModel.ViewDataMeaning | internal/core/service/products/products.go:53-79 | a repository error is returned as is. Otherwise the call fails exactly when some product's specs fail to decode, with the first such error. Success gives one view per product, in order, with id, price, description, name and image copied, and specs decoded exactly for non-empty specs in an electronic category |
| ProductsModel.AllStockMeaning | internal/core/service/products/products.go:253-308 | a repository error is wrapped as "get stock". On success page and limit are echoed and All is the number of inventories. Active + Draft ≤ All, with equality exactly when every status is "active", "archived" or "draft". There is one stock entry per inventory, in order, with its id, status, formatted product id and split images |
| ProductsModel.StockEntryLoads | internal/core/service/products/products.go:270-300 | a stock entry is built exactly when the specification rows under the inventory's own id load and all decode and the inventory's product loads |
| ProductsModel.AllStockSucceeds | internal/core/service/products/products.go:253-308 | once the page is read, `GetAllStock` succeeds exactly when every entry on it loads; otherwise it returns the error of the first entry that does not |
| ProductsModel.StockHeaderOfUniformPage | internal/core/service/products/products.go:261-268 | a page of all-draft, all-active/archived, or all-other inventories gets the header that status implies |
| ProductsModel.ProductsLimitMeaning | internal/core/service/products/products.go:470-500 | succeeds exactly when the page is read and every product's category exists and loads; then one response per product, in order, with the images split at ',' |
| ProductsModel.CreatePlanMeaning | internal/core/service/products/products.go:385-414 | a missing or unloadable category gives the wrapped error. For an electronic category, specs of the wrong type give "invalid specifications". Otherwise the row copies the request, with specs "{}" unless the category is electronic and specs were given |
| ProductsModel.StoredImagesRoundTrip | internal/core/service/products/products.go:426-435 | the inserted inventory is "active", and its images, joined with ',', split back into the submitted list when none contains ',' |
| ProductsModel.UploadMeaning | internal/core/service/products/products.go:222-245 | a nil file list gives "missing image file" and no write. An upload that succeeds records one URL per file, in order |
| ProductsModel.AsWrittenUsesProductID | internal/core/service/products/products.go:105-108 | as written, `GetInventoryByID` looks the specifications up under the product id |
| ProductsModel.AsWrittenMissesSpecs | internal/core/service/products/products.go:105-108 | an inventory whose id differs from its product id gets the wrong specifications (here none) as written, and its own with the corrected lookup |
| ProductsModel.InventoryByIDMeaning | internal/core/service/products/products.go:82-122 | a failed stock, product or specification lookup returns its error. Otherwise the corrected detail succeeds exactly when every specification row stored under the inventory's own id decodes, and fails with the first row's error that does not. On success it carries the stock's id, price, availability, currency, status, colour and colour image, the product's name, the formatted product id, the images split at ',' and the decoded specs, one per row in order |
| ProductsService.ProductService.New | internal/core/service/products/products.go:27-41 | the service holds the given repositories and collaborators |
| ProductsService.ProductService.ViewDataOf | internal/core/service/products/products.go:53-79 | the loop computes the views `ViewData` specifies, returning at the first decode error |
| ProductsService.ProductService.GetInventoryByID | internal/core/service/products/products.go:82-122 | computes the corrected inventory detail |
| ProductsService.ProductService.UpdateInventory | internal/core/service/products/products.go:208-219 | exactly one update, of the row built from the request with the product id and price parsed; its error is returned |
| ProductsService.ProductService.UploadStockImage | internal/core/service/products/products.go:222-245 | "missing image file" with no write for a nil list; otherwise each file is opened, uploaded, its URL recorded on the inventory and the file closed, stopping at the first error |
| ProductsService.ProductService.DeleteInventoryByID | internal/core/service/products/products.go:248-250 | exactly one delete of the inventory; its error is returned |
| ProductsService.ProductService.GetAllStock | internal/core/service/products/products.go:253-308 | the loop with its two counters computes the page `AllStock` specifies |
| ProductsService.ProductService.GetInventory | internal/core/service/products/products.go:311-313 | the repository's answer for the product |
| ProductsService.ProductService.Search | internal/core/service/products/products.go:316-334 | a repository error is wrapped as "keyword error"; otherwise one response per product found, in order |
| ProductsService.ProductService.UpdateProductInfo | internal/core/service/products/products.go:337-358 | a missing category gives "category not found" and an unloadable one "category invalid", with no write. Otherwise exactly one update of the product, whose error is returned |
| ProductsService.ProductService.UploadProductImage | internal/core/service/products/products.go:361-382 | the same as the stock upload, recording each URL on the product |
| ProductsService.ProductService.CreateProduct | internal/core/service/products/products.go:385-414 | -1 and the error with no write when the category or the specs are rejected; otherwise exactly one insert of the planned row, whose id and error are returned |
| ProductsService.ProductService.DeleteProductByID | internal/core/service/products/products.go:417-419 | exactly one delete of the product; its error is returned |
| ProductsService.ProductService.InsertIntoInventory | internal/core/service/products/products.go:422-467 | a failing product, category or category-kind lookup returns its error with no write. Otherwise one "active" inventory insert. If it succeeds and the category is electronic, one specification insert per spec under the new id, stopping at the first failure |
| ProductsService.ProductService.GetProductsLimit | internal/core/service/products/products.go:470-500 | the loop computes the responses `ProductsLimit` specifies, returning at the first category error |
| Code.CodeOfShape | pkg/utils/code.go:8-30 | a code drawn from valid indices has one character per draw, each from the 36-character charset |
| Code.GenOrderCode | pkg/utils/code.go:8-18 | the code has exactly `length` characters, each in "ABCDEFGHIJKLMNOPQRSTUVWXYZ0123456789", chosen by the draws in order |
| Code.GenCouponsCode | pkg/utils/code.go:20-30 | the same for coupon codes |
| Code.SameDrawsSameCode | pkg/utils/code.go:8-30 | given the same draws, the order code and the coupon code are the same string |

## Left out

- The `Init`/`useCache` wiring of internal/core/repos/accounts (lines 18-20) is left out. It builds the repository through a cache decorator that is not part of this model.
- `ProductDetailOf` (internal/core/service/products/products.go:125-205) is not modelled. It is a further composition of the same lookups and decodes, and is not among the operations modelled here.
- JSON encoding and decoding, `decimal` parsing and formatting, `HanoiTimezone`, the blob store and `crypto.HashOf` are functions supplied by the caller.
- `crypto.HashOf`: the properties about distinct keys assume the hash is injective. A real hash collision would make two keys share an entry.
- `time.Now` is left out. The account insert takes its `createdAt` text as a parameter.
- `math/rand` is a sequence of draws supplied by the caller. Its seeding is not modelled.
- The worker library is left out: task execution, retry, priority and concurrency happen outside this code. Only the enqueue is modelled, and a rejected enqueue is assumed to leave the queue unchanged.
- OrdersCache.Cache.Get: an entry under the key that holds the other kind of value is treated as a miss. In Go the cache decodes it into the requested slice type. A failed `Set` is assumed to leave the cache unchanged.
- TTLs and the cache's expiry are not modelled; entries stay until overwritten.
- Database reads are oracles and do not reflect the writes in the log. Transactions (`Use(tx)` only swaps the connection) and the database's own state are not modelled.
- RepositoryAccounts.Accounts.GetByEmail: a failed lookup is assumed to leave the shared record untouched. The ORM may partially fill it.
- RepoUsers.Users.GetByEmail: a failed lookup is assumed to leave the shared record untouched. The ORM may partially fill it.
- Lookups into a shared record (RepositoryAccounts.Accounts.GetByEmail, RepoUsers.Users.GetByEmail) are modelled as independent of what the record already holds. In GORM, `First` on a destination whose primary key is already set also filters by that key, so a second lookup for another email may fail instead of overwriting.
- RepositoryAccounts.Accounts.New: the connection is a parameter. The source opens the global connection itself and exits the process through `log.Fatal` when that fails; neither the opening nor the exit is modelled.
- RepoUsers.Users.New: the connection is a parameter. The source opens the global connection itself and panics when that fails; neither the opening nor the panic is modelled.
- Code.GenOrderCode: the length is a `nat`. A negative length makes Go's `make` panic, and that panic is not modelled.
- Nil and empty slices are not distinguished: a failed loop returns `Err`, where Go returns a nil slice and the error.
- Entity fields that the core only copies (timestamps, ids assigned by the database, nested specs) are kept only where an operation reads or writes them.
- `strconv.Atoi` and `ParseInt` errors are ignored where the source ignores them, and the model uses the value part. As in Go, the digits are read left to right: a value that passes 64 unsigned bits gives the nearest signed 64-bit bound, even when a non-digit follows; a non-digit reached first, or no digits, gives 0.

## Findings

| source | as written | input that shows it | evidently intended | confidence | as-written member | corrected member |
|---|---|---|---|---|---|---|
| internal/core/service/products/products.go:105-108 | `GetInventoryByID` looks the specifications up under `ParseInt(result.ProductID)`, the product id formatted and parsed back | inventory id "7", product id 3, specification rows stored under inventory 7: the answer carries the rows stored under 3 (none), not those of inventory 7 | look the specifications up under the inventory's own id, as `GetAllStock` does (lines 270-273); the variable is even named `invID` | not executed; medium (the sample data in testing/products/inventory_detail_test.go uses inventory id "1" with product id 1, which cannot tell the two lookups apart) | ProductsModel.InventoryByIDAsWritten, ProductsModel.AsWrittenMissesSpecs | ProductsModel.InventoryByID, ProductsModel.InventoryByIDMeaning, ProductsService.ProductService.GetInventoryByID |
