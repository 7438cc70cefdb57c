# E-Games service core in Dafny

This project models the business core of the E-Games web API, a game catalog with a shopping cart:

- **Order workflow** (`OrderService`). A user's single Pending order acts as a cart.
  - Adding a product appends a line item that keeps a snapshot of the product's price.
  - A line's quantity may change only while that price is 0.
  - Line items are deleted through a selection filtered by owner.
  - Buying turns the user's Pending orders into Delivered ones.
- **Catalog and ratings** (`GameService`, `RatingMath`).
  - Queries: the top three platforms, name search with skip/take, and lookup by id.
  - Deleting a product also deletes its ratings.
  - Ratings are upserted or removed per (product, user). After each change the product's cached TotalRating is the mean of its ratings, rounded half to even, or 0 when it has none.
- **Sort/filter validation** (`SortFilterValidation`). The action filter checks SortBy, SortOrder, AgeRange and the comma-separated Genres list against fixed allow-lists. The first check that fails decides the 400 answer.
- **SMTP settings validation** (`SmtpValidation`). Six field checks each add a message to a list. The settings are accepted exactly when the list stays empty.

Notes on the model:

- The database is the class `Data.AppDbContext`. Its tables are sequences of rows that the service methods reassign, and its identity counters supply new keys.
- Rows are values, so assigning a field of a tracked entity replaces its row.
- `AppDbContext.Valid()` holds the keys the database enforces: unique primary keys, counters beyond every used key, and the foreign key from every line item to an existing order.
- Prices are integers in minor units. The mean is computed exactly from an integer sum and count.
- Exceptions raised through `ErrorResponseHelper` become the `Err` case of `Common.Result`.
- Inputs that the services get from their environment are parameters:
  - the current user id (`Option<UserId>`, where `None` means not authenticated);
  - the clock (`now`);
  - the mail library's address check (`isValidEmail`).

## Model

| member | source | states |
|---|---|---|
| Common.RaiseBare | src/Web/E-Games.Web/E-Games.Common/ErrorResponseHelper.cs:7-8 | The exception has the kind's status code and title and no detail strings |
| Common.Raise | src/Web/E-Games.Web/E-Games.Common/ErrorResponseHelper.cs:10-14 | The exception has the kind's status code and title and exactly the one detail string |
| Common.ErrorMessage.Code | src/Web/E-Games.Web/E-Games.Common/ErrorMessage.cs:16-18 | The status code is exactly 400 for BadRequest and 404 for NotFound |
| Common.FirstIndexWhere | src/Services/E-Games.Services/E-Games.Services/OrderService.cs:31 | FirstOrDefault: the index found matches and no earlier row does; None only when no row matches |
| Common.Where | src/Services/E-Games.Services/E-Games.Services/OrderService.cs:59 | Where: every kept row is in the table and passes the filter, and every row that passes is kept |
| Common.WhereIndices | src/Services/E-Games.Services/E-Games.Services/OrderService.cs:59 | The positions of the rows that pass the filter, strictly increasing, each passing, and every passing position listed |
| Common.WhereIsSubsequence | src/Services/E-Games.Services/E-Games.Services/OrderService.cs:59 | Where keeps exactly the rows at those positions, in table order and each once: the subsequence of the passing rows |
| Data.ProductIndexById | src/Services/E-Games.Services/E-Games.Services/OrderService.cs:24 | FindAsync: found exactly when a product has that id, and the row found has it |
| Data.AppDbContext.constructor | src/Data/E-Games.Data/Data/ApplicationDbContext.cs:8-15 | A store over a catalog with unique product ids starts with that catalog, no ratings, orders or line items, and satisfies its key invariants |
| GameService.GetProductById | src/Services/E-Games.Services/E-Games.Services/GameService.cs:58-67 | Ok exactly when some product has the id, and then it is such a product; otherwise a bare NotFound |
| GameService.ContainsTextIffOccurs | src/Services/E-Games.Services/E-Games.Services/GameService.cs:46 | The substring test holds exactly when the term occurs at some position of the name |
| GameService.OccursAtShift | src/Services/E-Games.Services/E-Games.Services/GameService.cs:46 | An occurrence in the name without its first character is an occurrence in the whole name one position later |
| GameService.NamesContaining | src/Services/E-Games.Services/E-Games.Services/GameService.cs:46 | Every name kept contains the term, and every product whose name contains it is kept |
| GameService.SkipTake | src/Services/E-Games.Services/E-Games.Services/GameService.cs:47-48 | Skip then Take: the length is min(take, rest) and element i is the input's element skip+i |
| GameService.SearchGames | src/Services/E-Games.Services/E-Games.Services/GameService.cs:37-56 | BadRequest exactly when limit <= 0 or offset < 0; otherwise at most limit names, each containing the term, and they are the matching names from position offset on |
| GameService.CountOnPositive | src/Services/E-Games.Services/E-Games.Services/GameService.cs:27 | Every product's platform has a positive count |
| GameService.CountOnDropLast | src/Services/E-Games.Services/E-Games.Services/GameService.cs:27 | A further product never lowers a platform's count |
| GameService.PlatformKeysDistinct | src/Services/E-Games.Services/E-Games.Services/GameService.cs:27 | No platform is grouped twice |
| GameService.PlatformKeysCounted | src/Services/E-Games.Services/E-Games.Services/GameService.cs:27 | Every group key is the platform of at least one product |
| GameService.PlatformKeysCover | src/Services/E-Games.Services/E-Games.Services/GameService.cs:27 | Every product's platform is a group key |
| GameService.Groups | src/Services/E-Games.Services/E-Games.Services/GameService.cs:27-32 | One group per platform in use, with a count equal to the number of products on it |
| GameService.InsertByCount | src/Services/E-Games.Services/E-Games.Services/GameService.cs:33 | Insertion keeps exactly the same entries plus the new one (as a multiset) |
| GameService.InsertKeepsNonIncreasing | src/Services/E-Games.Services/E-Games.Services/GameService.cs:33 | Inserting into a list sorted by count descending keeps it sorted |
| GameService.InsertByCountBounded | src/Services/E-Games.Services/E-Games.Services/GameService.cs:33 | Inserting a group whose count is within a bound keeps every count within that bound |
| GameService.SortByCountDesc | src/Services/E-Games.Services/E-Games.Services/GameService.cs:33 | The sort is a permutation of its input |
| GameService.SortByCountDescIsSorted | src/Services/E-Games.Services/E-Games.Services/GameService.cs:33 | The sorted list has non-increasing counts and keeps its platforms distinct |
| GameService.InsertKeepsDistinctPlatforms | src/Services/E-Games.Services/E-Games.Services/GameService.cs:33 | Inserting a new platform keeps the platforms distinct |
| GameService.PermutedGroupsCounted | src/Services/E-Games.Services/E-Games.Services/GameService.cs:27-33 | Any reordering of the groups carries, for each platform, its true product count, which is positive |
| GameService.PermutedGroupsCover | src/Services/E-Games.Services/E-Games.Services/GameService.cs:27-33 | Any reordering of the groups still has a group for every product's platform |
| GameService.GetTopPlatforms | src/Services/E-Games.Services/E-Games.Services/GameService.cs:26-35 | At most three entries |
| GameService.TopPlatformsCounted | src/Services/E-Games.Services/E-Games.Services/GameService.cs:26-35 | Each returned platform carries its true, positive product count |
| GameService.TopPlatformsOrdered | src/Services/E-Games.Services/E-Games.Services/GameService.cs:26-35 | The returned platforms are distinct and their counts do not increase |
| GameService.LeftOutPlatformIsNoMoreCommon | src/Services/E-Games.Services/E-Games.Services/GameService.cs:26-35 | A platform in use that is not returned means three platforms were returned and it is no more common than the third |
| GameService.TopPlatformsAreTheMostCommon | src/Services/E-Games.Services/E-Games.Services/GameService.cs:26-35 | Distinct platforms, each with its true product count, non-increasing; fewer than three only when every platform in use is listed, and no platform left out has more products than the third |
| GameService.RatingValuesAppend | src/Services/E-Games.Services/E-Games.Services/GameService.cs:170 | Adding a rating row adds its value at the end of the values |
| GameService.UpsertFrame | src/Services/E-Games.Services/E-Games.Services/GameService.cs:158-175 | After the insert-or-overwrite, the (product, user) pair holds the new rating; every other pair and every other product's ratings are unchanged |
| GameService.UpsertKeepsKeysUnique | src/Services/E-Games.Services/E-Games.Services/GameService.cs:158-175 | The insert-or-overwrite keeps the (product, user) keys unique |
| GameService.RatingsOfAround | src/Services/E-Games.Services/E-Games.Services/GameService.cs:237-239 | A product's ratings are those of the rows before a row of it, that row's rating, and those after |
| GameService.UpsertChangesSum | src/Services/E-Games.Services/E-Games.Services/GameService.cs:158-175 | The insert-or-overwrite adds one rating to the product exactly when the pair had none, and changes the sum of its ratings by the new rating less the one it replaces |
| GameService.RemoveKeepsKeysUnique | src/Services/E-Games.Services/E-Games.Services/GameService.cs:194-202 | Removing one rating row keeps the (product, user) keys unique |
| GameService.RemoveDropsKey | src/Services/E-Games.Services/E-Games.Services/GameService.cs:194-202 | Once the pair's row is removed the pair has no rating |
| GameService.RemoveFrame | src/Services/E-Games.Services/E-Games.Services/GameService.cs:194-202 | Removing the pair's row keeps keys unique and leaves the pair unrated; every other pair and every other product's ratings are unchanged |
| GameService.CascadeKeepsKeysUnique | src/Data/E-Games.Data/Migrations/20240202131254_AddProductRatingsTable.cs:75-82 | Deleting the product's ratings keeps the ratings table's key unique |
| GameService.RatingValuesConcat | src/Services/E-Games.Services/E-Games.Services/GameService.cs:237-239 | The values of two tables joined are the values of each, joined |
| GameService.WhereConcat | src/Services/E-Games.Services/E-Games.Services/GameService.cs:238 | Filtering two joined tables is filtering each and joining |
| GameService.CascadeRatingsOf | src/Data/E-Games.Data/Migrations/20240202131254_AddProductRatingsTable.cs:75-82 | After the cascade the deleted product has no ratings and every other product keeps its ratings |
| GameService.CascadeRatingFor | src/Data/E-Games.Data/Migrations/20240202131254_AddProductRatingsTable.cs:75-82 | After the cascade every pair of the deleted product is unrated and every other (product, user) pair keeps exactly its rating |
| GameService.UpdateTotalRating | src/Services/E-Games.Services/E-Games.Services/GameService.cs:230-244 | Only the first product with the name changes, and its TotalRating becomes the rounded mean of its ratings; nothing changes when no product has the name |
| GameService.UpsertRating | src/Services/E-Games.Services/E-Games.Services/GameService.cs:158-177 | Appends the pair's row when it has none, otherwise overwrites only the rating of its first row; keys stay valid, the pair holds the new rating, every other pair and product is unchanged, and the product's ratings gain one entry only for a new pair with their sum changed by the new rating less the one replaced |
| GameService.UpdateRating | src/Services/E-Games.Services/E-Games.Services/GameService.cs:149-184 | NotFound "Game not found" or BadRequest (no user) change nothing; otherwise the pair holds the new rating, a row is added only if it had none, others' ratings are unchanged, the product's ratings gain one entry only for a new pair and their sum changes by the new rating less the one replaced, and the product's TotalRating is recomputed from them |
| GameService.RemoveRating | src/Services/E-Games.Services/E-Games.Services/GameService.cs:186-208 | true exactly when the product and the user's rating exist; false changes nothing; true removes exactly that row and recomputes the product's TotalRating |
| GameService.RemoveProductFacts | src/Services/E-Games.Services/E-Games.Services/GameService.cs:135-147 | Removing the product keeps product ids unique; the remaining products are exactly the others |
| GameService.DeleteProduct | src/Services/E-Games.Services/E-Games.Services/GameService.cs:135-147 | NotFound "Product not found" and no change when the id is absent; otherwise true, exactly that product removed, the rating table becomes exactly its rows for other products (in order), so the deleted product's pairs are unrated and every other (product, user) pair keeps its rating |
| RatingMath.SumOfAppend | src/Services/E-Games.Services/E-Games.Services/GameService.cs:239 | The sum of two joined lists is the sum of each |
| RatingMath.SumBounds | src/Services/E-Games.Services/E-Games.Services/GameService.cs:239 | The sum of n values in [lo, hi] lies between lo*n and hi*n |
| RatingMath.RoundHalfToEvenIsNearest | src/Services/E-Games.Services/E-Games.Services/GameService.cs:241 | Math.Round: the result is within half of the exact quotient, and an exact half goes to the even neighbour |
| RatingMath.MultipleBelowIsZero | src/Services/E-Games.Services/E-Games.Services/GameService.cs:241 | A multiple of n in [0, n) is 0 |
| RatingMath.NearStarRangeIsInStarRange | src/Services/E-Games.Services/E-Games.Services/GameService.cs:241 | An integer within half of a mean in [1, 5] is in [1, 5] |
| RatingMath.MeanOfStarRatingsIsStarRating | src/Services/E-Games.Services/E-Games.Services/GameService.cs:237-241 | Ratings from 1 to 5 give a TotalRating from 1 to 5 |
| RatingMath.MeanOfEqualRatings | src/Services/E-Games.Services/E-Games.Services/GameService.cs:237-241 | Ratings that are all v give TotalRating v |
| OrderService.ItemsOf | src/Services/E-Games.Services/E-Games.Services/OrderService.cs:58-60 | Exactly the line items whose OrderId is the order's id |
| OrderService.ItemsOfAppend | src/Services/E-Games.Services/E-Games.Services/OrderService.cs:53-60 | Appending a line item of an order adds exactly that line at the end of the order's item list |
| OrderService.GetOrderById | src/Services/E-Games.Services/E-Games.Services/OrderService.cs:65-78 | Some exactly when an order has both the id and the owner; it is that order with exactly its line items; otherwise None (null) |
| OrderService.GetOrdersByUserId | src/Services/E-Games.Services/E-Games.Services/OrderService.cs:80-87 | Exactly the user's orders, of any status |
| OrderService.AddingFirstPendingKeepsAtMostOnePending | src/Services/E-Games.Services/E-Games.Services/OrderService.cs:30-43 | Opening a Pending order only when the user has none keeps at most one Pending order per user |
| OrderService.AddOrderKeepsKeys | src/Services/E-Games.Services/E-Games.Services/OrderService.cs:41-42 | A new order keyed by the identity counter keeps order ids unique |
| OrderService.AddItemKeepsKeys | src/Services/E-Games.Services/E-Games.Services/OrderService.cs:53-54 | A new line item keyed by the identity counter keeps item ids unique |
| OrderService.AddOrderKeepsReferences | src/Data/E-Games.Data/Data/Models/Order.cs:19 | A new order keeps every line item's order reference valid, and its own id is referenceable |
| OrderService.NewOrderHasNoItems | src/Services/E-Games.Services/E-Games.Services/OrderService.cs:32-43 | An order id beyond every existing order's has no line items, because every line item refers to an existing order |
| OrderService.FindOrOpenCart | src/Services/E-Games.Services/E-Games.Services/OrderService.cs:30-43 | Reuses the user's first Pending order unchanged, or appends exactly one Pending order dated now under the next order id; the returned order is in the table, keys and item references stay valid, and at most one Pending order per user is preserved |
| OrderService.AddLineItem | src/Services/E-Games.Services/E-Games.Services/OrderService.cs:45-54 | For an order that exists, appends exactly one line item under the next line-item id; keys and item references stay valid and that order's item list grows by exactly that line |
| OrderService.CreateOrder | src/Services/E-Games.Services/E-Games.Services/OrderService.cs:22-63 | NotFound and no change for an unknown product; otherwise the user's first Pending order is reused or exactly one Pending order is opened; exactly one item with the amount and the product's current price is appended; the result lists exactly that order's items, which for a newly opened order is that one item alone; at most one Pending order per user is preserved |
| OrderService.UpdateOrderItemAmount | src/Services/E-Games.Services/E-Games.Services/OrderService.cs:89-118 | NotFound when the user has no such order or it has no line for the product; BadRequest when that line's price is not 0; otherwise only that first line's quantity changes |
| OrderService.WhereKeepsUniqueItemIds | src/Services/E-Games.Services/E-Games.Services/OrderService.cs:131 | Removing line items keeps item ids unique |
| OrderService.DeleteSelectedItems | src/Services/E-Games.Services/E-Games.Services/OrderService.cs:126-133 | BadRequest and no change exactly when nothing is selected; otherwise exactly the selected items are removed and the rest keep their order |
| OrderService.DeleteOrderItems | src/Services/E-Games.Services/E-Games.Services/OrderService.cs:120-134 | As written: removes exactly the items whose ORDER id is in the list and whose order belongs to the user; BadRequest and no change when there is none |
| OrderService.DeleteOrderItemsByItemId | src/Services/E-Games.Services/E-Games.Services/OrderService.cs:120-134 | As intended: the same, with the item's own id tested |
| OrderService.AsWrittenSelectsByOrderId | src/Services/E-Games.Services/E-Games.Services/OrderService.cs:123 | Naming item 2 selects nothing, and naming item 1 selects item 2 as well |
| OrderService.ByItemIdDeletesExactlyTheNamedItems | src/Services/E-Games.Services/E-Games.Services/OrderService.cs:123 | With the intended test, no named item of the user survives, and every item not named or of another user's order stays |
| OrderService.AfterPurchase | src/Services/E-Games.Services/E-Games.Services/OrderService.cs:147-151 | Same orders with the same ids and owners; the user's Pending orders become Delivered, every other order is unchanged, and the user has no Pending order left |
| OrderService.AfterPurchaseKeepsAtMostOnePending | src/Services/E-Games.Services/E-Games.Services/OrderService.cs:147-151 | Buying keeps at most one Pending order per user |
| OrderService.BuyProducts | src/Services/E-Games.Services/E-Games.Services/OrderService.cs:136-154 | BadRequest and no change exactly when the user has no Pending order; otherwise the orders table becomes AfterPurchase of the old one |
| SortFilterValidation.MessagesAreDistinct | src/Web/E-Games.Web/E-Games.Web/Infrastructure/Filters/ValidateSortFilterParamsAttribute.cs:17-51 | The four rejection messages are pairwise different |
| SortFilterValidation.SplitPiecesAreSeparatorFree | src/Web/E-Games.Web/E-Games.Web/Infrastructure/Filters/ValidateSortFilterParamsAttribute.cs:43 | No piece of the split contains the comma |
| SortFilterValidation.JoinOfSplit | src/Web/E-Games.Web/E-Games.Web/Infrastructure/Filters/ValidateSortFilterParamsAttribute.cs:43 | Joining the pieces with the separator gives back the string |
| SortFilterValidation.JoinConsHead | src/Web/E-Games.Web/E-Games.Web/Infrastructure/Filters/ValidateSortFilterParamsAttribute.cs:43 | Prepending a character to the first piece prepends it to the joined string |
| SortFilterValidation.SplitOfJoin | src/Web/E-Games.Web/E-Games.Web/Infrastructure/Filters/ValidateSortFilterParamsAttribute.cs:43 | Splitting a join of separator-free pieces gives back the pieces |
| SortFilterValidation.SplitOfSeparatorFree | src/Web/E-Games.Web/E-Games.Web/Infrastructure/Filters/ValidateSortFilterParamsAttribute.cs:43 | A string without the separator splits into itself |
| SortFilterValidation.SplitPrefixed | src/Web/E-Games.Web/E-Games.Web/Infrastructure/Filters/ValidateSortFilterParamsAttribute.cs:43 | A separator-free word before the separator becomes the first piece |
| SortFilterValidation.OnActionExecuting | src/Web/E-Games.Web/E-Games.Web/Infrastructure/Filters/ValidateSortFilterParamsAttribute.cs:12-54 | Proceeds exactly when all four checks pass; each rejection message appears exactly when its check is the first to fail, in the order SortBy, SortOrder, AgeRange, Genres |
| SortFilterValidation.GenresOkIffEveryPieceAllowed | src/Web/E-Games.Web/E-Games.Web/Infrastructure/Filters/ValidateSortFilterParamsAttribute.cs:41-46 | Genres passes exactly when every comma-separated piece is empty or an allowed genre |
| SortFilterValidation.EmptyParametersNeverReject | src/Web/E-Games.Web/E-Games.Web/Infrastructure/Filters/ValidateSortFilterParamsAttribute.cs:17-46 | Four empty parameters proceed, and no rejection names a parameter that was empty |
| SmtpValidation.MessagesAreDistinct | src/Services/E-Games.Services/E-Games.Services/Configuration/SmtpConfigurationValidation.cs:13-38 | Different checks add different messages |
| SmtpValidation.AppendIfFailsKeepsCheckOrder | src/Services/E-Games.Services/E-Games.Services/Configuration/SmtpConfigurationValidation.cs:11-39 | Appending a later check's result keeps the list in check order |
| SmtpValidation.FailedChecksMembership | src/Services/E-Games.Services/E-Games.Services/Configuration/SmtpConfigurationValidation.cs:11-39 | A check is among the failed ones exactly when it fails |
| SmtpValidation.FailedChecksMeaning | src/Services/E-Games.Services/E-Games.Services/Configuration/SmtpConfigurationValidation.cs:11-39 | Exactly the failing checks are collected, in check order |
| SmtpValidation.MessagesOf | src/Services/E-Games.Services/E-Games.Services/Configuration/SmtpConfigurationValidation.cs:13-38 | One message per check, each that check's message |
| SmtpValidation.MessagesOfConcat | src/Services/E-Games.Services/E-Games.Services/Configuration/SmtpConfigurationValidation.cs:9-39 | The messages of joined lists are the messages of each, joined |
| SmtpValidation.FailureMessagesMeaning | src/Services/E-Games.Services/E-Games.Services/Configuration/SmtpConfigurationValidation.cs:9-46 | The list names exactly the failing checks, no message twice, and is empty exactly when no check fails |
| SmtpValidation.AddIfFailsStep | src/Services/E-Games.Services/E-Games.Services/Configuration/SmtpConfigurationValidation.cs:11-14 | Appending a check's message when it fails is the same as listing the messages of the checks followed by that check when it fails |
| SmtpValidation.FailureListIsMessagesOfFailedChecks | src/Services/E-Games.Services/E-Games.Services/Configuration/SmtpConfigurationValidation.cs:9-39 | The list the straight-line checks build is the messages of the failed checks |
| SmtpValidation.CollectErrors | src/Services/E-Games.Services/E-Games.Services/Configuration/SmtpConfigurationValidation.cs:9-39 | The six conditional appends build exactly that list |
| SmtpValidation.CollectedErrorsMeaning | src/Services/E-Games.Services/E-Games.Services/Configuration/SmtpConfigurationValidation.cs:9-46 | The collected list is empty exactly when no check fails, is the failing checks' messages in check order, and holds a check's message exactly when that check fails |
| SmtpValidation.Validate | src/Services/E-Games.Services/E-Games.Services/Configuration/SmtpConfigurationValidation.cs:7-47 | Success exactly when no check fails; otherwise the messages of exactly the failing checks, in check order, with the sender-address check as written |
| SmtpValidation.ValidateIntended | src/Services/E-Games.Services/E-Games.Services/Configuration/SmtpConfigurationValidation.cs:7-47 | The same, with the sender-address check testing only the address |
| SmtpValidation.SenderEmailCheckTestsSenderName | src/Services/E-Games.Services/E-Games.Services/Configuration/SmtpConfigurationValidation.cs:31 | A valid address next to an empty sender name fails the sender-address check |
| SmtpValidation.IntendedSenderEmailCheckIgnoresSenderName | src/Services/E-Games.Services/E-Games.Services/Configuration/SmtpConfigurationValidation.cs:31 | The intended sender-address check does not depend on the sender name |
| SmtpValidation.SenderEmailChecksAgreeWithName | src/Services/E-Games.Services/E-Games.Services/Configuration/SmtpConfigurationValidation.cs:31 | When a sender name is given, the written and intended checks agree |

## Left out

- HTTP controllers, middleware, dependency injection and AutoMapper:
  - DTOs are modelled only as far as the services fill them.
  - `OrderService.ToDto` keeps the order's own fields and its line items.
  - `SearchGames` returns only the names.
  - `UpdateRating` returns the rating row.
- The image-upload parts of the catalog, and `CreateProductAsync` and `UpdateProductAsync`, which only map DTOs through AutoMapper and upload images. `GetProductsAsync` has no implementation in the service.
- Asynchrony, `SaveChangesAsync` transactions and concurrent requests. Each service call is one sequential step over the tables.
- `GetCurrentUserId` reads HTTP claims. The user id is a parameter. In `RemoveRating` the id string is taken already parsed, so the `Guid.Parse` failure is not modelled.
- The clock: the creation time of a new order is the parameter `now`.
- `IsValidEmail` (`System.Net.Mail.MailAddress`) is the parameter `isValidEmail`. The unused `name` argument of `Validate` is dropped, and `UseSsl` is carried but never checked, as in the source.
- Floating point:
  - `Product.Price` is a double, cast to decimal on order lines. Prices are integers in minor units and the snapshot is plain equality.
  - `AverageAsync` returns a double. The mean is rounded from the exact integer quotient.
- `SearchGames` compares by ordinal substring, and `ProductIndexByName` (the name lookup of `UpdateRating`, `RemoveRating` and `UpdateTotalRating`) by exact string equality. The database collation, for example case-insensitive matching, is not modelled for either. Queries without `OrderBy` (the `Skip`/`Take` page of `SearchGames` and every `FirstOrDefault`) read the rows in table order; the order a database actually returns them in is not modelled.
- `GetTopPlatforms`: the model does not fix the order of platforms with equal counts.
  - The database's grouping order and tie order are unspecified. The model sorts stably by count from the groups' first appearance.
  - Its own contract states only the bound of three. The full promise is in `GameService.TopPlatformsAreTheMostCommon`.
- `OrderStatus` has only the two values the services use, Pending and Delivered. `Order.Amount` is never read or written by the services and is not modelled.
- When a product is deleted, its ratings are cascaded. The `OrderItems` rows that refer to the product are not touched by the model.
- `OrderService.GetOrdersByUserId` returns the order rows. The item lists of the mapped DTOs depend on lazy loading, which is not modelled.
- Query-string values with several entries are joined by `StringValues.ToString`. The filter receives each parameter as one string, and an absent parameter is the empty string.
- SortFilterValidation.OnActionExecuting: its contract does not spell out the literal text of the four messages. They are constants built with `Join`.

## Findings

| source | as written | input that shows it | evidently intended | confidence | as-written member | corrected member |
|---|---|---|---|---|---|---|
| src/Services/E-Games.Services/E-Games.Services/OrderService.cs:123 | The deletion filter tests each line item's OrderId against the list of item ids | One order 1 of user 7 with items 1 and 2: ids [2] select nothing, and ids [1] select both items | Select the line items whose own OrderItemId is in the list, as the parameter name `itemIds` says | high, not executed | OrderService.AsWrittenSelectsByOrderId | OrderService.ByItemIdDeletesExactlyTheNamedItems |
| src/Services/E-Games.Services/E-Games.Services/Configuration/SmtpConfigurationValidation.cs:31 | The sender-address guard tests `SenderName` for emptiness instead of `SenderEmail` | Sender email "shop@example.com", which the address check accepts, with sender name "": the address is reported invalid next to the missing-name message | The sender-address message appears exactly when the address is not a valid mail address | medium, not executed | SmtpValidation.SenderEmailCheckTestsSenderName | SmtpValidation.IntendedSenderEmailCheckIgnoresSenderName |
