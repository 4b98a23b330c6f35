# Legacy order service: a verified model of its decision logic

The order service takes a customer name, a product name and a quantity,
checks them, prices the order from a product catalog and saves it to a SQLite
`Orders` table. This project models the parts of it that make decisions:

- the product price table, in two forms:
  - the editable repository (`Data/ProductRepository.cs`), a class whose
    `prices` map is changed in place by guarded methods;
  - the read-only seeded catalog (`LegacyOrderService/Data/ProductRepository.cs`),
    modelled as functions of a constant map;
- the order intake guard chain of `OrderService.ProcessOrder`: customer name,
  then product, then quantity. The chain ends in one price lookup and one save,
  and the method reports the calls it makes;
- the `Order` record: its four components, its derived `Total` and the line
  order of `ToString`;
- the transactional, retried save of both `SqliteOrderRepository` copies, and
  their constructors:
  - one *attempt* is an imperative method over fresh `Connection` and
    `Transaction` objects on a `Database` whose `rows` field is the table;
    it opens the connection, begins the transaction, inserts, commits, and
    rolls back when the insert or the commit throws;
  - `SaveAsync` is a `while` loop over attempts, proved against the pure
    function `RetryPolicies.Execute`, which states the contract of Polly's
    `Handle<DbException>().WaitAndRetryAsync(...)`;
  - what the environment does on each attempt is a script
    (`AttemptScript`): the factory returns no connection, one step throws a
    given exception, or everything succeeds. Each attempt returns the trace of
    ADO.NET calls it made.

The .NET text functions the guards rely on are written out in `DotNetText`:
- `char.IsWhiteSpace`, with its Unicode character set;
- `string.IsNullOrWhiteSpace`;
- `int.TryParse` with NumberStyles.Integer: white space U+0009..U+000D and
  space around the number, an optional sign, ASCII digits, the Int32 range;
- `int.ToString()`.

A .NET `null` is `None` of an `Option`, wherever the code branches on null.
Exceptions are values of `Exceptions.Exception`. A method that can throw
returns a `Result` or an `Outcome`.

Once the retries are spent, the last exception is rethrown unchanged
(`LegacyOrderService.Tests/SqliteOrderRepositoryTests.cs:129` expects a
`SqliteException`). `retryCount` counts retries, so there are
`retryCount + 1` attempts. A null connection throws
`InvalidOperationException`, which the policy does not retry.

## Model

| member | source | states |
|---|---|---|
| DotNetText.IsWhiteSpace | Services/OrderService.cs:19 | `char.IsWhiteSpace`: every white character `int.TryParse` skips is white space; digits and ASCII letters are not |
| DotNetText.IsNullOrWhiteSpace | Data/ProductRepository.cs:58 | `string.IsNullOrWhiteSpace`: true for null, for the empty string and for a string of nothing but white space; false as soon as one character is not white space |
| DotNetText.TryParseInt32 | Services/OrderService.cs:25 | a null string does not parse; a parsed value is within Int32 |
| DotNetText.TrimStart | Services/OrderService.cs:25 | leading white space is skipped: the result is no longer than the input and does not start with white space |
| DotNetText.TrimStartDropsOnlyWhite | Services/OrderService.cs:25 | TrimStart's result is a suffix of the input, and everything it drops is white space |
| DotNetText.TrimEnd | Services/OrderService.cs:25 | trailing white space is skipped: the result is no longer than the input and does not end with white space |
| DotNetText.TrimEndDropsOnlyWhite | Services/OrderService.cs:25 | TrimEnd's result is a prefix of the input, and everything it drops is white space |
| DotNetText.FormatInt | LegacyOrderService/Models/Order.cs:11 | `int.ToString()`: a minus sign exactly for negative numbers, then the decimal digits of the magnitude |
| DotNetText.Decimal | LegacyOrderService/Models/Order.cs:11 | the decimal digits of a natural number are non-empty, all digits, and have no leading zero |
| DotNetText.DecimalValue | LegacyOrderService/Models/Order.cs:11 | the value of the printed digits of n is n |
| DotNetText.ParseDigitsOfDecimal | Services/OrderService.cs:25 | the decimal digits of a magnitude, after a sign or without one, read back to the signed value whenever it fits in Int32 |
| DotNetText.ParseFormatRoundTrip | LegacyOrderService/Models/Order.cs:11 | every Int32, printed by `int.ToString()`, is read back to itself by `int.TryParse` |
| DotNetText.ParseRejectsNonNumbers | Services/OrderService.cs:25 | "abc" and "" do not parse |
| Orders.Order.Total | LegacyOrderService/Models/Order.cs:5 | the total is zero when the quantity or the price is, and at least the unit price for a positive quantity and a non-negative price |
| Orders.Lines | LegacyOrderService/Models/Order.cs:9-12 | four lines, labelled "Customer: ", "Product: ", "Quantity: " and "Total: $" in that order, carrying the customer name, the product name, the printed quantity and the printed total |
| Orders.ToString | LegacyOrderService/Models/Order.cs:7-13 | the four lines with a newline between each two and none after the last |
| Orders.ComponentwiseEquality | LegacyOrderService/Models/Order.cs:3-5 | record equality: orders with equal components are equal, and their Total is Quantity * Price |
| Orders.ToStringFieldOrder | LegacyOrderService/Models/Order.cs:7-12 | the printed order splits into exactly four lines, Customer, Product, Quantity and Total in that order; the quantity line parses back to the quantity |
| Orders.PriceShownOnlyThroughTotal | LegacyOrderService/Models/Order.cs:5-12 | orders that differ only in a price that leaves the Total unchanged print identically |
| PriceTables.Lookup | Data/ProductRepository.cs:43-50 | succeeds exactly for a key of the table, with its price; otherwise ProductNotFoundException "Product 'n' not found." |
| PriceTables.AddOrUpdate | Data/ProductRepository.cs:56-63 | a null, empty or white name gives ArgumentException(productName), checked first; then a negative price gives ArgumentException(price); zero is accepted; a valid call sets that one entry and keeps every other |
| PriceTables.Remove | Data/ProductRepository.cs:70-80 | never fails; the name is no longer a key; all other entries are kept |
| PriceTables.SeedIsNonNegative | Data/ProductRepository.cs:16-21 | the seeded prices are all non-negative |
| PriceTables.AddOrUpdatePreservesNonNegative | Data/ProductRepository.cs:60-63 | a valid update keeps every price non-negative |
| PriceTables.RemovePreservesNonNegative | Data/ProductRepository.cs:72 | a removal keeps every price non-negative |
| PriceTables.AddOrUpdateIdempotent | Data/ProductRepository.cs:63 | repeating a valid update leaves the table as the first call left it |
| PriceTables.WhiteSpaceNameRefused | Data/ProductRepository.cs:58-59 | a product name of only white space, a no-break space or " \t ", is refused with "Product name cannot be empty." at any price |
| PriceTables.RemoveAbsentUnchanged | Data/ProductRepository.cs:72-79 | removing an absent product leaves the table unchanged |
| PriceTables.LookupAfterUpdate | Data/ProductRepository.cs:43-72 | after a valid update the lookup returns the new price; after a removal it throws ProductNotFoundException |
| LegacyProductRepository.ProductExists | LegacyOrderService/Data/ProductRepository.cs:26-30 | true exactly for Widget, Gadget and Doohickey |
| LegacyProductRepository.GetPrice | LegacyOrderService/Data/ProductRepository.cs:35-50 | succeeds exactly when ProductExists does, with 12.99, 15.49 or 8.75; otherwise ProductNotFoundException naming the product |
| LegacyProductRepository.CatalogContents | LegacyOrderService/Data/ProductRepository.cs:15-20 | the catalog is exactly {Widget: 12.99, Gadget: 15.49, Doohickey: 8.75} |
| LegacyProductRepository.CatalogExamples | LegacyOrderService.Tests/ProductRepositoryTests.cs:17-54 | Widget exists, NonExistent does not, Gadget costs 15.49, UnknownItem throws ProductNotFoundException |
| ProductRepositories.ProductRepository.constructor | Data/ProductRepository.cs:13-22 | the table starts as the three seeded prices, and no price is negative |
| ProductRepositories.ProductRepository.ProductExists | Data/ProductRepository.cs:27-31 | true exactly for a key of the current table; changes nothing |
| ProductRepositories.ProductRepository.GetPrice | Data/ProductRepository.cs:36-51 | the stored price for a key, otherwise ProductNotFoundException; changes nothing |
| ProductRepositories.ProductRepository.AddOrUpdateProduct | Data/ProductRepository.cs:56-65 | a refused call throws the guard's exception and leaves the table unchanged; a valid one makes the table AddOrUpdate's result; no price ever becomes negative |
| ProductRepositories.ProductRepository.RemoveProduct | Data/ProductRepository.cs:70-80 | the table becomes Remove's result; no price becomes negative |
| ProductRepositories.RepositoryScenario | Data/ProductRepository.cs:56-80 | on the seeded table, a price of zero is accepted, a negative price is refused, and a removed product no longer exists |
| OrderServices.Intake | Services/OrderService.cs:19-30 | succeeds exactly when the customer name is not null or white, the product is known and the quantity parses to a positive Int32; the order then carries the name, the product, the parsed quantity and the table's price; every failure is an ArgumentException or ArgumentNullException |
| OrderServices.FirstFailingGuardDecides | Services/OrderService.cs:19-26 | guards run name, product, quantity, and the first failing one decides the exception; an unknown product is an ArgumentException, never a ProductNotFoundException |
| OrderServices.ProcessOrder | Services/OrderService.cs:17-37 | returns Intake's decision on the repository's table; a bad name makes no call; any other failure makes only the product check; a success checks the product, fetches the price once and saves exactly that order once; a saved order's price is never negative and its total is at least its price |
| OrderServices.AliceOrdersThreeWidgets | Services/OrderService.cs:19-30 | "Alice", "Widget", "3" gives the order (Alice, Widget, 3, 12.99) |
| OrderServices.NonNumericQuantityRefused | Services/OrderService.cs:25-26 | a quantity of "abc" is refused with "Quantity must be a positive integer." |
| OrderServices.EmptyCustomerRefused | Services/OrderService.cs:19-20 | an empty customer name is refused with "Customer name cannot be empty." |
| OrderServices.WhiteSpaceCustomerRefused | Services/OrderService.cs:19-20 | a customer name of only white space, " \t" or a no-break space, is refused with "Customer name cannot be empty." |
| OrderServices.UnknownProductRefused | Services/OrderService.cs:22-23 | "GhostProduct" is refused with ArgumentException "Product 'GhostProduct' not found." |
| RetryPolicies.SleepDuration | LegacyOrderService/Data/SqliteOrderRepository.cs:32 | an exponential sleep is at least one second and doubles from one retry to the next |
| RetryPolicies.Handles | LegacyOrderService/Data/SqliteOrderRepository.cs:29 | `Handle<DbException>()`: every DbException is retried; InvalidOperationException, the argument exceptions, ProductNotFoundException and any other exception are not retried |
| RetryPolicies.Execute | LegacyOrderService/Data/SqliteOrderRepository.cs:28-36 | at most retryCount retries; the outcome is exactly what the last attempt did, unwrapped; a handled failure comes out only when the budget is spent |
| RetryPolicies.ExecuteNotices | LegacyOrderService/Data/SqliteOrderRepository.cs:33-36 | notice j follows attempt j, which threw a DbException; it carries that exception, the sleep 2^(j+1) (or the policy's) and retry number j + 1 |
| RetryPolicies.ExhaustedRethrowsLast | LegacyOrderService.Tests/SqliteOrderRepositoryTests.cs:112-132 | when every attempt throws a DbException, onRetry fires retryCount times, retryCount + 1 attempts run, and the last raw exception comes out |
| RetryPolicies.SucceedsAfterTransients | LegacyOrderService/Data/SqliteOrderRepository.cs:28-32 | n DbExceptions then a success, with n within the budget, succeed after exactly n retries |
| RetryPolicies.UnhandledShortCircuits | LegacyOrderService/Data/SqliteOrderRepository.cs:29 | an exception other than DbException is rethrown after one attempt, with no notice |
| RetryPolicies.ZeroRetriesRunOnce | LegacyOrderService.Tests/SqliteOrderRepositoryTests.cs:44-45 | a policy with no retries runs the work once |
| RetryPolicies.DefaultAtMostFourAttempts | LegacyOrderService/Data/SqliteOrderRepository.cs:28-36 | the default policy (three retries, exponential sleeps) makes at most four attempts, whatever they do |
| RetryPolicies.DefaultSchedule | LegacyOrderService/Data/SqliteOrderRepository.cs:31-32 | the default sleeps are 2, 4 and 8 seconds |
| RetryPolicies.ExponentialIncreasing | LegacyOrderService/Data/SqliteOrderRepository.cs:32 | each exponential sleep is longer than the one before |
| RetryPolicies.ExponentialBackoffBound | Data/SqliteOrderRepository.cs:29-33 | with n exponential retries the sleeps total at most 2^(n+1) - 2 seconds: at most 14 for the fixed policy |
| SqliteOrderRepositories.AttemptOutcome | LegacyOrderService/Data/SqliteOrderRepository.cs:43-83 | an attempt succeeds exactly when every step does; a failing step's exception is rethrown as it is; a null connection gives an InvalidOperationException, which the policy does not retry |
| SqliteOrderRepositories.AttemptTrace | LegacyOrderService/Data/SqliteOrderRepository.cs:43-83 | every attempt starts by creating a connection and stops there exactly when none is returned; the insert is issued exactly when open and begin succeeded; the commit is issued exactly when the insert succeeded |
| SqliteOrderRepositories.RollbackExactlyOnTryFailure | LegacyOrderService/Data/SqliteOrderRepository.cs:54-83 | a rollback is issued exactly when the insert or the commit threw, just before the transaction is disposed |
| SqliteOrderRepositories.ConnectionScopedToAttempt | LegacyOrderService/Data/SqliteOrderRepository.cs:45-52 | each attempt creates its own connection once and, when one was created, ends by disposing it |
| SqliteOrderRepositories.CommitOnlyOnSuccess | LegacyOrderService/Data/SqliteOrderRepository.cs:67-69 | an attempt succeeds exactly when every step succeeded, and then it commits and does not roll back |
| SqliteOrderRepositories.ConstructFromArguments | LegacyOrderService/Data/SqliteOrderRepository.cs:25-36 | a null connection string, then a null factory, throws ArgumentNullException naming it; otherwise both are kept, and a null policy selects the default one |
| SqliteOrderRepositories.GetFactory | Data/SqliteOrderRepository.cs:27 | `DbProviderFactories.GetFactory`: succeeds exactly for a registered provider name, with its factory; otherwise ArgumentException |
| SqliteOrderRepositories.ConstructFromConfiguration | Data/SqliteOrderRepository.cs:21-37 | a missing OrdersDatabase connection string throws first, then a missing Database:ProviderName; success exactly when both are present and the provider is registered, and the policy is the default one |
| SqliteOrderRepositories.Connection.Open | LegacyOrderService/Data/SqliteOrderRepository.cs:50 | `OpenAsync`: the connection is open and keeps its connection string |
| SqliteOrderRepositories.Connection.BeginTransaction | LegacyOrderService/Data/SqliteOrderRepository.cs:52 | on an open connection, a fresh active transaction on the same database with nothing pending |
| SqliteOrderRepositories.Connection.Dispose | LegacyOrderService/Data/SqliteOrderRepository.cs:45 | the `using` disposal closes the connection |
| SqliteOrderRepositories.Transaction.Dispose | LegacyOrderService/Data/SqliteOrderRepository.cs:52 | the `using` disposal ends the transaction and drops whatever is still pending, so an uncommitted insert never reaches the table |
| SqliteOrderRepositories.Transaction.Insert | LegacyOrderService/Data/SqliteOrderRepository.cs:67 | the insert adds the row to the transaction's pending rows, not to the table |
| SqliteOrderRepositories.Transaction.Commit | LegacyOrderService/Data/SqliteOrderRepository.cs:69 | the pending rows are appended to the table at once |
| SqliteOrderRepositories.Transaction.Rollback | LegacyOrderService/Data/SqliteOrderRepository.cs:74 | the pending rows are dropped |
| SqliteOrderRepositories.SqliteOrderRepository.Attempt | LegacyOrderService/Data/SqliteOrderRepository.cs:43-83 | one attempt fails with InvalidOperationException for a null connection and otherwise with the failing step's own exception; it makes the calls AttemptTrace lists; the table gains the order's row exactly when the attempt succeeds |
| SqliteOrderRepositories.SqliteOrderRepository.SaveAsync | LegacyOrderService/Data/SqliteOrderRepository.cs:39-85 | the outcome and onRetry notices are Execute's for the repository's policy; the attempts made are the scripted ones in order; the table gains one order row exactly when the save succeeds |
| SqliteOrderRepositories.NullConnectionNotRetried | LegacyOrderService/Data/SqliteOrderRepository.cs:45-47 | a null connection throws InvalidOperationException after one attempt, with no retry |
| SqliteOrderRepositories.OpenFailureRetried | Data/SqliteOrderRepository.cs:50-53 | a DbException from opening or beginning is retried, though nothing was inserted or rolled back |
| SqliteOrderRepositories.PersistentInsertFailure | LegacyOrderService.Tests/SqliteOrderRepositoryTests.cs:112-132 | every insert failing with a DbException under `RetryAsync(3)`: three notices, four attempts, and the provider's own exception |
| SqliteOrderRepositories.RecoversAfterTwoTransientFailures | Data/SqliteOrderRepository.cs:29-37 | two transient failures and then a success, under the default policy: success after two notices, sleeping 2 s and then 4 s |
| SqliteOrderRepositories.SaveOnEmptyTable | LegacyOrderService.Tests/SqliteOrderRepositoryTests.cs:44-63 | a save whose first attempt succeeds leaves an empty table holding exactly the order's row |

## Left out

- Logging: every `_logger` call, and the `{@Order}` structured formatting, are not modelled. They make no decisions.
- Console output: the `Console.WriteLine` calls in `ProcessOrder` are not modelled. They are I/O.
- Async scheduling is not modelled: `Task.Delay(100)` in `GetPriceAsync`, Polly's real sleeps and cancellation. Each backoff delay is recorded as a value in the `onRetry` notice instead of being waited for.
- Floating point: prices and totals are `real`. The model does not capture double rounding or NaN. A NaN price passes the `price < 0` guard of `AddOrUpdateProduct` in the code.
- Orders.ToString: how a double is printed is a parameter (`formatDouble`), because it depends on the runtime's double formatting and on the culture.
- DotNetText.TryParseInt32: current-culture sign symbols and trailing NUL characters are not modelled. The invariant culture's `-` and `+` are used.
- DotNetText.FormatInt: writes the invariant culture's `-` sign. `Order.ToString` interpolates with the current culture, whose negative sign can differ, and the model does not capture that.
- ProductRepositories.ProductRepository.ProductExists, GetPrice and RemoveProduct take a non-null name. On a null name the dictionary throws ArgumentNullException, and the model does not capture that. `ProcessOrder` does model a null product name.
- LegacyProductRepository.ProductExists and GetPrice take a non-null name too. In the code, `ContainsKey(null)` and `TryGetValue(null)` throw ArgumentNullException, and the model does not capture that.
- SqliteOrderRepositories.SqliteOrderRepository.Attempt: a rollback that itself throws is not modelled.
- Storage: a commit that succeeds but is reported as failed would leave a duplicate row on retry. The model treats commit as atomic, as the store does.
- Storage: connection pooling, the auto-increment Id column and the engine's CHECK constraint are not modelled. A constraint violation is a scripted DbException.
- SqliteOrderRepositories.ConstructFromArguments can only be given a policy that retries DbException alone, with no sleep, a constant sleep or the exponential sleep. A caller's `AsyncRetryPolicy` that handles other exceptions, or uses another sleep function, is not modelled. Such a policy could retry the InvalidOperationException of a missing connection, for example.
- SqliteOrderRepositories.ConstructFromConfiguration looks keys up by exact spelling. It takes configuration keys as already normalised to `ConnectionStrings:OrdersDatabase` and `Database:ProviderName`. .NET configuration keys are case-insensitive, and the model does not capture that.
- SqliteOrderRepositories.GetFactory: the ArgumentException message of `DbProviderFactories.GetFactory` is approximate.
- `DbProviderFactories` registration, Polly internals and the SQLite provider are not modelled. They are foreign code; only the retry contract as configured is stated.
- Services/OrderService.cs calls `GetPrice` and `Save`. The repositories shown define `GetPriceAsync` and `SaveAsync`. The model reads the price from the product repository's table, and records the save as one call.
- The order repository `ProcessOrder` saves to is not part of this model. `Data/OrderRepository.cs` is a direct insert with no decision logic.
- `Program.cs` (dependency wiring and console prompts), the interfaces and the exception classes are not part of this model. They supply only wiring and signatures.
- The read-only catalog never changes, so repeated queries give the same answers by construction. `LegacyProductRepository.Catalog` is a constant, and no separate lemma states this.
- LegacyOrderService.Tests/OrderServiceTests.cs targets a `ProcessOrderAsync` that is not part of this model. It expects ProductNotFoundException where `ProcessOrder` throws ArgumentException, and the model follows `ProcessOrder`.
