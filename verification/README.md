# StockApp core, modelled in Dafny

StockApp is an ASP.NET stock-management back end. This project models its
decision logic as pure Dafny functions over immutable data and proves what the
code promises. The modelled parts are:

- **Custom report engine** (`CustomReports`, `CategoryReports`, `ReportService`, `ReportDto`).
  It builds the Sales, Inventory, Performance, Category and Default reports from a snapshot of
  products and categories. A case-insensitive dispatch picks the report, and the dispatcher
  keeps a report history.
- **Stock rules** (`StockRules`):
  - just-in-time levelling to 10 units;
  - threshold replenishment;
  - product returns.
- **Catalogue views** (`ProductQueries`, `CatalogueConsistency`): the stock dashboard and the
  product search.
- **Price arithmetic** (`Pricing`): discount and 15 % tax.
- **Feedback** (`Sentiment`, `AnonymousFeedbacks`, `SmsFeedback`):
  - the keyword sentiment classifier;
  - anonymous feedback collection, its repository queries and the controller's client-IP
    resolution;
  - SMS feedback.
- **Webhooks** (`Webhooks`): validation, the response, and event dispatch.
- **Users** (`Users`, `Auth`): the in-memory registry with its id counter, registration,
  credential check, token, and the login decision.
- **Employee evaluations** (`Evaluations`, `EvaluationDtos`, `PerformanceEvaluations`): the
  evaluation table as a sequence, its queries, the DTO validation attributes, and the
  service rules.

## Conventions

- Money (`decimal`) is `real`, which is exact.
- Ids and quantities are `int`. C#'s truncating `/` is written out as `Catalog.TruncDiv`.
- Instants are `int` ticks; `default(DateTime)` is `Time.DefaultDateTime`.
- A C# `null` is `Option.None`.
- An exception the code throws or catches is a `Result.Failure` carrying its message.
- The outside world is passed in as parameters:
  - the clock: `now` or `Clock`;
  - the random backdate of the Sales report: `draw`;
  - the low-stock query: `lowStock`;
  - product and employee lookups: `found`, `employees`;
  - the sentiment analyser: `analyse`;
  - URI parsing: `isAbsoluteUri`;
  - the auth service: `authenticate`;
  - database-assigned identities: `newId`.
- .NET's `ToLower`, `Trim`, `Contains`, `Split(',')[0]`, `IsNullOrEmpty` and `IsNullOrWhiteSpace` are modelled concretely in `Text`,
  with the case mapping restricted as stated under "Left out".
- LINQ `OrderByDescending` is a stable insertion sort (`Ordering.SortDesc`). LINQ to Objects
  sorts stably. For the EF queries that translate to SQL `ORDER BY`, keeping ties in table
  order is a choice of this model.
- The report labels are Portuguese, as in the code: "Estoque Baixo", "Alto Desempenho",
  "Categoria Desconhecida".
- The performance score caps the price term at price / 100 (CustomReportService.cs:269-277).
- Only `GenerateReportAsync` appends to the report history. The individual generators do not.
- A repository exception propagates out of the services unchanged, and it is not modelled.
- An inventory row's value is the product's stock count.

## Model

| member | source | states |
|---|---|---|
| ReportDto.NewReportParameters | StockApp.Application/DTOs/ReportDTO.cs:8-31 | New parameters have IncludeDetails false, and no report type, category filter, product filter, dates or GroupBy. |
| ReportDto.NewReportSummary | StockApp.Application/DTOs/ReportDTO.cs:51-57 | A new summary has currency "BRL", an empty metrics map, and zero records and value. |
| ReportDto.NewCustomReport | StockApp.Application/DTOs/ReportDTO.cs:33-40 | A new report is stamped with the construction time and has an empty data list, no title, no type and no summary. |
| CustomReports.FilterProducts | StockApp.Application/Services/CustomReportService.cs:256-267 | Kept products are exactly those matching the present CategoryId and ProductId filters. The result is never longer than the input. With neither filter it is the input unchanged. |
| CustomReports.FilterProductsAppend | StockApp.Application/Services/CustomReportService.cs:256-267 | The filter works element by element and keeps the original order: filtering a concatenation concatenates the filtered parts. |
| CustomReports.SimulatedOrders | StockApp.Application/Services/CustomReportService.cs:52-55 | Simulated orders lie in 0..99. They are positive exactly when stock is positive, in which case they are max(1, 100 − stock). |
| CustomReports.SalesReport | StockApp.Application/Services/CustomReportService.cs:41-82 | One row per filtered product, with value price·orders, dated by the backdate. TotalValue is the sum of the row values. TotalRecords is the row count. TotalOrders is the sum of orders. AverageOrderValue is the ratio, or 0 when there are no orders. |
| CustomReports.SalesDatesInWindow | StockApp.Application/Services/CustomReportService.cs:62 | With backdates drawn from 1..29 days, every row's date lies between 29 days and 1 day before generation. |
| CustomReports.SalesOrdersTotal | StockApp.Application/Services/CustomReportService.cs:52-55 | Total orders lie between 0 and 99 per product, and are 0 exactly when no product has stock. |
| CustomReports.InventoryReport | StockApp.Application/Services/CustomReportService.cs:84-127 | One row per filtered product. Its value is the stock. It is labelled "Estoque Baixo" exactly when stock < 10, otherwise "Estoque Normal". TotalValue is Σ price·stock, equal to the sum of the row notes. LowStockItems counts the low rows and equals the number of products with stock < 10. AverageStockValue is TotalValue per row, or 0 with no rows. |
| CustomReports.PerformanceScore | StockApp.Application/Services/CustomReportService.cs:269-277 | With non-negative price and stock, the score lies in [5/3, 25/3]. |
| CustomReports.PerformanceCategory | StockApp.Application/Services/CustomReportService.cs:279-288 | Each of the four bands is returned exactly on its score interval: ≥ 8, [6, 8), [4, 6), < 4. |
| CustomReports.PerformanceCategoryMonotone | StockApp.Application/Services/CustomReportService.cs:279-288 | A higher score never gives a lower band. |
| CustomReports.TopPerformerNeeds | StockApp.Application/Services/CustomReportService.cs:269-277 | A score of at least 8 requires price ≥ 900 and stock ≥ 90. |
| CustomReports.PerformanceReport | StockApp.Application/Services/CustomReportService.cs:129-168 | One row per filtered product, carrying its score and band. TotalValue is the sum of the scores. AverageScore is that sum per row. TopPerformers counts the "Alto Desempenho" rows, equal to the products scoring ≥ 8. |
| CustomReports.PerformanceTotalBounds | StockApp.Application/Services/CustomReportService.cs:269-277 | Over non-negative products, the total score lies between 5/3 and 25/3 per product. |
| CustomReports.DefaultReport | StockApp.Application/Services/CustomReportService.cs:233-254 | Exactly two rows: TotalProdutos (the product count) and ValorTotalEstoque (Σ price·stock). TotalRecords is 2, TotalValue is the stock value, and there are no metrics, for any catalogue including an empty one. |
| CategoryReports.CategoryKeys | StockApp.Application/Services/CustomReportService.cs:178 | Category ids are listed once each, no more keys than products. Every product's category is among them, and every listed id is some product's. |
| CategoryReports.CategoryKeysPrefix | StockApp.Application/Services/CustomReportService.cs:178 | Adding products only appends new groups, so earlier groups keep their position. |
| CategoryReports.GroupsPartition | StockApp.Application/Services/CustomReportService.cs:178-185 | The groups partition the products: summing any per-product quantity group by group gives its total over all products. |
| CategoryReports.FindCategory | StockApp.Application/Services/CustomReportService.cs:182 | The result is the first category registered under the id (`FirstOrDefault`). None is returned exactly when no category has that id. |
| CategoryReports.CategoryName | StockApp.Application/Services/CustomReportService.cs:182-189 | If the first category with the id has a name, that name is the key. If it has none, or no category has the id, the key is "Categoria Desconhecida". |
| CategoryReports.CategoryNameIgnoresLater | StockApp.Application/Services/CustomReportService.cs:182-189 | Once some category carries the id, categories registered after it do not change the key. |
| CategoryReports.CategoryRowsTotals | StockApp.Application/Services/CustomReportService.cs:183-195 | The rows' value notes sum to the grouped stock value, and their counts sum to the grouped product count. |
| CategoryReports.CategoryReport | StockApp.Application/Services/CustomReportService.cs:170-213 | Ignores the filters and gives one row per category key. A row has the category's name (or the unknown label), the group size and the group's stock value. TotalValue is Σ price·stock over all products. The counts sum to the product count. TotalCategories is the row count, and AverageCategoryValue is the value per row. |
| ReportService.ParseReportType | StockApp.Application/Services/CustomReportService.cs:28-38 | "sales", "inventory", "performance" and "category", in any case, select their generator. Null or any other text selects the default. |
| ReportService.AvailableReportTypes | StockApp.Application/Services/CustomReportService.cs:220-231 | Four distinct type names, not including "Default". |
| ReportService.AvailableTypesDispatch | StockApp.Application/Services/CustomReportService.cs:28-38 | Every advertised type name dispatches back to its own report, and only the default is not advertised. |
| ReportService.ParseReportTypeIgnoresCase | StockApp.Application/Services/CustomReportService.cs:28 | Dispatch depends only on the lower-cased type. |
| ReportService.GenerateReport | StockApp.Application/Services/CustomReportService.cs:26-39 | The report produced is stamped now, has a summary, and carries the type name the dispatch selected. Each parsed kind produces its own generator's report: Sales, Inventory and Performance with the parameters, Category with the categories, and Default over the whole catalogue. |
| ReportService.GeneratedTypeRoundTrip | StockApp.Application/Services/CustomReportService.cs:26-39 | Dispatching on the produced report's own type gives the same kind again. |
| ReportService.UnknownTypeGivesDefault | StockApp.Application/Services/CustomReportService.cs:34 | An unrecognised type produces the default report. |
| ReportService.HistoryView | StockApp.Application/Services/CustomReportService.cs:215-218 | The history view is a permutation of the history, newest first. |
| ReportService.HistoryViewStable | StockApp.Application/Services/CustomReportService.cs:215-218 | Reports with equal timestamps keep their insertion order. |
| ReportService.HistoryViewOfOrdered | StockApp.Application/Services/CustomReportService.cs:215-218 | A history already newest-first is shown unchanged. |
| StockRules.Level | StockApp.Application/Services/JustInTimeInventoryService.cs:32-49 | Stock above 10 and stock below 5 become exactly 10. Stock in 5..10 is unchanged. The result is always in 5..10, and only Stock changes. |
| StockRules.LevellingUpdates | StockApp.Application/Services/JustInTimeInventoryService.cs:32-45 | The updates are exactly the products outside 5..10, in catalogue order, each levelled to stock 10. |
| StockRules.OptimizeInventory | StockApp.Application/Services/JustInTimeInventoryService.cs:19-51 | The loop levels every product into 5..10, changing only Stock. Products already in range are left untouched. It issues exactly the products that needed levelling, in catalogue order, each levelled. |
| StockRules.LevellingIdempotent | StockApp.Application/Services/JustInTimeInventoryService.cs:19-51 | Levelling twice equals levelling once, and a second run issues no update. |
| StockRules.NoLevellingNeeded | StockApp.Domain.Test/Services/JustInTimeInventoryServiceTests.cs:89-102 | A catalogue already in 5..10, the empty one included, gets no update. |
| StockRules.LevellingUpdatesChanged | StockApp.Application/Services/JustInTimeInventoryService.cs:32-49 | A product is updated exactly when levelling changes it. |
| StockRules.Replenished | StockApp.Application/Services/InventoryService.cs:28-32 | Each low-stock product gains exactly the quantity, in order, with no other field changed. |
| StockRules.ReplenishStock | StockApp.Application/Services/InventoryService.cs:26-34 | One update per product the low-stock query returns for the threshold, each with the quantity added. |
| StockRules.ReplenishStockDefault | StockApp.Application/Services/InventoryService.cs:16-24 | The parameterless overload is the (10, 50) overload. |
| StockRules.ReplenishStore | StockApp.Application/Services/InventoryService.cs:26-34 | Saving the updates raises each low product by the quantity. Every other product is untouched, and no product is added or removed. |
| StockRules.ReplenishDefaultExample | StockApp.Domain.Test/Services/InventoryServiceTests.cs:46-47 | Stocks 5 and 8 become 55 and 58 with the defaults. |
| StockRules.ProcessReturn | StockApp.Application/Services/ReturnService.cs:20-49 | A return is accepted exactly when the product is known. If not, nothing is updated or recorded. If so, stock rises by the quantity and one "Approved" record copies the order, product, quantity and reason. |
| StockRules.ReturnsAccumulate | StockApp.Application/Services/ReturnService.cs:38 | Two returns add both quantities. |
| StockRules.ReturnExample | StockApp.Domain.Test/Services/ReturnServiceTests.cs:62-64 | Stock 5 with a return of 2 gives 7. |
| ProductQueries.LowStockEntries | StockApp.API/Controllers/DashboardController.cs:26-33 | The entries are exactly the products with stock < 10, as (name, stock), and their number is the count of such products. |
| ProductQueries.Dashboard | StockApp.API/Controllers/DashboardController.cs:20-36 | TotalProducts is the product count and TotalStockValue is Σ stock·price. The low-stock list is exactly the products with stock < 10. |
| ProductQueries.DashboardEmpty | StockApp.Domain.Test/DashboardControllerTests.cs:106-108 | An empty catalogue gives 0 products, value 0 and no low-stock entry. |
| ProductQueries.DashboardExample | StockApp.Domain.Test/DashboardControllerTests.cs:77-85 | Stocks 5, 20 and 8 give exactly the entries for 5 and 8. |
| ProductQueries.Search | StockApp.Infra.Data/Repositories/ProductRepository.cs:63-77 | The search result is never longer than the catalogue. |
| ProductQueries.SearchMembers | StockApp.Infra.Data/Repositories/ProductRepository.cs:65-76 | A product is returned exactly when it is in the catalogue and passes the filters: name substring unless the name is blank, price ≥ min and ≤ max when given. |
| ProductQueries.SearchAppend | StockApp.Infra.Data/Repositories/ProductRepository.cs:65-76 | The search keeps catalogue order: it filters element by element. |
| ProductQueries.SearchUnfiltered | StockApp.Infra.Data/Repositories/ProductRepository.cs:67 | A blank name with no price bounds returns every product. |
| ProductQueries.SearchCrossedBounds | StockApp.Infra.Data/Repositories/ProductRepository.cs:70-74 | min > max returns nothing. |
| CatalogueConsistency.DashboardAgreesWithReports | StockApp.API/Controllers/DashboardController.cs:24-33 | On one catalogue, the dashboard, the default report and an unfiltered inventory report agree on product count, stock value and the number of low-stock products. |
| Pricing.DiscountBoundaries | StockApp.Domain.Test/Services/DiscountServiceTests.cs:12-17 | 0 % keeps the price, 100 % gives 0, and a zero price stays 0. |
| Pricing.DiscountExample | StockApp.Domain.Test/Services/DiscountServiceTests.cs:14 | 75.50 at 5 % is exactly 71.725. |
| Pricing.DiscountUnclamped | StockApp.Domain.Test/Services/DiscountServiceTests.cs:25-41 | There is no clamping: for a positive price, a negative percentage raises the price and one above 100 makes it negative. |
| Pricing.DiscountInRange | StockApp.Application/Services/DiscountService.cs:9 | For a valid percentage the result lies in [0, price], and a larger discount never gives a higher price. |
| Pricing.TaxProperties | StockApp.Application/Services/TaxService.cs:9 | The tax of 0 is 0, the tax of a non-negative amount lies between 0 and the amount, and the tax is additive. |
| Pricing.TaxIsFifteenPercentOff | StockApp.Application/Services/TaxService.cs:9 | The tax equals what a 15 % discount removes. |
| Sentiment.AnalizeSentiment | StockApp.Application/Services/SentimentAnalysisService.cs:7-18 | "Positivo" exactly when the lower-cased text contains a positive keyword. "Negativo" exactly when it contains no positive but some negative keyword. "Neutro" otherwise. |
| Sentiment.AnalizeSentimentIgnoresCase | StockApp.Application/Services/SentimentAnalysisService.cs:9 | The label depends only on the lower-cased text. |
| Sentiment.AnalizeSentimentExamples | StockApp.Application/Services/SentimentAnalysisService.cs:11-15 | "Produto BOM" and "ruim mas ÓTIMO" are positive (positive words win), and "Péssimo" is negative. |
| Sentiment.AnalyzeSentiment | StockApp.Application/Services/SentimentAnalysisService.cs:20-23 | The interface method always fails, with the not-implemented message. |
| Sentiment.AnalyzeSentimentIntended | StockApp.Application/Services/SentimentAnalysisService.cs:7-18 | An analyser that returns the keyword classifier's label, always one of the three. |
| AnonymousFeedbacks.Add | StockApp.Infra.Data/Repositories/AnonymousFeedbackRepository.cs:17-22 | The entity is appended, earlier entries are kept, and the same entity is returned. |
| AnonymousFeedbacks.GetAll | StockApp.Infra.Data/Repositories/AnonymousFeedbackRepository.cs:24-29 | Every stored feedback, newest first. |
| AnonymousFeedbacks.GetById | StockApp.Infra.Data/Repositories/AnonymousFeedbackRepository.cs:31-35 | The entry with that id, or None exactly when no entry has it. |
| AnonymousFeedbacks.GetBySentiment | StockApp.Infra.Data/Repositories/AnonymousFeedbackRepository.cs:37-43 | Exactly the entries with that sentiment, newest first. |
| AnonymousFeedbacks.GetByDateRange | StockApp.Infra.Data/Repositories/AnonymousFeedbackRepository.cs:45-51 | Exactly the entries created within [start, end], both ends included, newest first. |
| AnonymousFeedbacks.ReversedRangeIsEmpty | StockApp.Infra.Data/Repositories/AnonymousFeedbackRepository.cs:45-51 | start > end gives nothing. |
| AnonymousFeedbacks.SentimentQueriesCover | StockApp.Infra.Data/Repositories/AnonymousFeedbackRepository.cs:37-43 | Each stored feedback is returned by the query for its own sentiment and by no other. |
| AnonymousFeedbacks.CollectFeedback | StockApp.Application/Services/AnonymousFeedbackService.cs:34-50 | The analyser runs on the text. If it fails, the failure propagates and nothing is stored. Otherwise exactly one record is appended, with the text, the label, the IP and user agent as given, the clock, and the identity the database assigns. |
| AnonymousFeedbacks.CollectedFeedbackIsFound | StockApp.Infra.Data/Repositories/AnonymousFeedbackRepository.cs:31-35 | After a successful collection under a fresh identity, looking that identity up finds the new record. |
| AnonymousFeedbacks.CollectFeedbackText | StockApp.Application/Services/AnonymousFeedbackService.cs:18-32 | The one-argument overload stores null IP and user agent. |
| AnonymousFeedbacks.GetAllFeedbacks | StockApp.Application/Services/AnonymousFeedbackService.cs:52-55 | The service returns the repository's list unchanged. |
| AnonymousFeedbacks.GetFeedbacksBySentiment | StockApp.Application/Services/AnonymousFeedbackService.cs:57-60 | The service passes the sentiment through to the repository. |
| AnonymousFeedbacks.CollectFeedbackAsWiredAlwaysFails | StockApp.Infra.IoC/DependencyInjection.cs:47 | With the registered analyser, collecting feedback always fails with the not-implemented message. |
| AnonymousFeedbacks.CollectFeedbackIntended | StockApp.Application/Services/AnonymousFeedbackService.cs:34-50 | With the keyword classifier as analyser, collecting always succeeds and stores the classifier's label. |
| AnonymousFeedbacks.ClientIpAddress | StockApp.API/Controllers/AnonymousFeedbackController.cs:119-146 | A non-empty X-Forwarded-For gives its trimmed text before the first comma. Otherwise a non-empty X-Real-IP is returned as is. Otherwise "::1" maps to "127.0.0.1", and a missing remote address gives "Unknown". |
| AnonymousFeedbacks.ForwardedAddressIsFirstHop | StockApp.API/Controllers/AnonymousFeedbackController.cs:122-128 | The address taken from a non-empty X-Forwarded-For contains no comma and neither starts nor ends with white space. |
| AnonymousFeedbacks.SubmitFeedback | StockApp.API/Controllers/AnonymousFeedbackController.cs:65-85 | A blank message is rejected with "Mensagem de feedback é obrigatória." and stores nothing. Otherwise success or a server error follows the collection's outcome. |
| AnonymousFeedbacks.SubmitFeedbackStoresAtMostOne | StockApp.API/Controllers/AnonymousFeedbackController.cs:65-85 | A submission stores at most one feedback, and stores one exactly when it answers Ok. |
| SmsFeedback.SubmitFeedback | StockApp.Application/Services/SmsFeedbackService.cs:17-32 | An empty message saves nothing. Otherwise exactly one feedback is saved, with the user id and text and no sentiment. No SMS is sent. |
| SmsFeedback.CollectFeedback | StockApp.Application/Services/SmsFeedbackService.cs:33-56 | Empty feedback sends only the prompt and saves nothing. Otherwise one feedback is saved under the phone number, then the thank-you SMS is sent. Every SMS goes to that number. |
| SmsFeedback.CollectSavesLikeSubmit | StockApp.Application/Services/SmsFeedbackService.cs:33-56 | Collecting saves exactly what submitting under the phone number saves, and always sends one SMS. |
| Webhooks.ValidateWebhook | StockApp.Application/Services/WebhookService.cs:63-97 | Valid exactly when the event and URL are non-empty, the URL is "string" or an absolute URI, and the timestamp is not the default. |
| Webhooks.ValidationRejects | StockApp.Application/Services/WebhookService.cs:66-92 | Each failed check alone rejects, and the URL "string" is accepted without parsing. |
| Webhooks.EventNotifications | StockApp.Application/Services/WebhookService.cs:128-151 | At most one notification, sent exactly when the lower-cased event is one of the five known events, under that canonical name. |
| Webhooks.EventNotificationsIgnoreCase | StockApp.Application/Services/WebhookService.cs:130 | Dispatch ignores case, and every notification name is a known event. |
| Webhooks.ProcessWebhook | StockApp.Application/Services/WebhookService.cs:23-61 | Success exactly when no fault occurs and the webhook is valid. A fault gives "Error processing webhook: " plus its message. An invalid webhook gives "Invalid webhook data". Neither notifies. A success notifies per the event. The response is stamped now. |
| Webhooks.UnknownEventSucceedsSilently | StockApp.Application/Services/WebhookService.cs:128-151 | A valid webhook with an unknown event succeeds and notifies nobody. |
| Webhooks.ProductCreatedExample | StockApp.Application/Services/WebhookService.cs:132-134 | "PRODUCT.Created" notifies "product.created" once. |
| Users.GetById | StockApp.Infra.Data/Repositories/UserRepository.cs:15-19 | The user found has that id and is stored. None exactly when no user has it. |
| Users.GetByUsername | StockApp.Infra.Data/Repositories/UserRepository.cs:21-25 | The user found has exactly that username and is stored. None exactly when no user has it. |
| Users.Create | StockApp.Infra.Data/Repositories/UserRepository.cs:27-32 | The user gets the current counter as id and is appended, and the counter advances by one. |
| Users.CreateKeepsValid | StockApp.Infra.Data/Repositories/UserRepository.cs:27-32 | Ids stay strictly increasing and below the counter, and the new id is fresh. |
| Users.CreateAllowsDuplicateNames | StockApp.Infra.Data/Repositories/UserRepository.cs:27-32 | The repository itself accepts a second user with the same username. |
| Users.Register | StockApp.API/Controllers/UsersController.cs:23-58 | An empty username gives "Username is required". An empty password gives "Password is required". A taken username gives "Username already exists". None of these changes the store. Otherwise exactly one user is created with the given fields, with "User registered successfully". |
| Users.RegisterKeepsInvariant | StockApp.API/Controllers/UsersController.cs:38-52 | Registration keeps ids increasing and usernames unique. |
| Users.RegisterAllKeepsInvariant | StockApp.API/Controllers/UsersController.cs:38-52 | Usernames stay unique across any sequence of registrations. |
| Users.RegisterAllExtends | StockApp.Infra.Data/Repositories/UserRepository.cs:27-32 | Registrations only ever append users. |
| Users.GetUser | StockApp.API/Controllers/UsersController.cs:61-77 | "User not found" exactly when no user has the id. Otherwise a stored user with that id is returned. |
| Users.RegisteredUserIsFound | StockApp.API/Controllers/UsersController.cs:44-52 | A user just registered is found under the id the counter gave. |
| Auth.TokenFor | StockApp.Application/Services/AuthService.cs:26 | The token is "token_", then the username, then "_", then the decimal ticks. |
| Auth.TokensDiffer | StockApp.Application/Services/AuthService.cs:26 | Equal tokens have equal usernames and equal decimal renderings of the ticks. |
| Auth.Authenticate | StockApp.Application/Services/AuthService.cs:17-27 | A token is returned exactly when the first user with that username has exactly that password, and it is that user's token. |
| Auth.RegisterThenAuthenticate | StockApp.API/Controllers/UsersController.cs:44-52 | After a successful registration, its username and password authenticate. |
| Auth.Login | StockApp.API/Controllers/TokenController.cs:21-50 | A missing request, username or password gives "Login não pode ser nulo". Once the guard passes, the service's answer decides. A token gives Ok with that token, expiring 24 h after now. No token gives Unauthorized "Credenciais invalidas", and only then is Unauthorized returned. A fault gives BadRequest "Error during authentication: " plus its message. Ok only ever carries the token the service returned. |
| Auth.LoginReturnsServiceToken | StockApp.Domain.Test/TokenControllerTests.cs:15-41 | With a service that answers "valid-jwt-token", the login is Ok with that token and an expiration after now. |
| Auth.LoginGuardSkipsService | StockApp.API/Controllers/TokenController.cs:26-29 | The guard answers before the auth service is consulted. |
| Auth.LoginReportsFault | StockApp.API/Controllers/TokenController.cs:46-49 | A failing auth service yields BadRequest with its message. |
| Auth.LoginWithRegistry | StockApp.API/Controllers/TokenController.cs:31-44 | Logging in against the registry succeeds exactly when the credentials authenticate. |
| Evaluations.GetById | StockApp.Infra.Data/Repositories/EmployeeEvaluationRepository.cs:27-32 | The row found has that id and is stored. None exactly when no row has it. |
| Evaluations.GetByIdOfStored | StockApp.Infra.Data/Repositories/EmployeeEvaluationRepository.cs:27-32 | With unique ids, every stored row is what its id looks up. |
| Evaluations.Create | StockApp.Infra.Data/Repositories/EmployeeEvaluationRepository.cs:34-39 | The row is appended under its new identity, earlier rows are kept, and the appended row is returned. |
| Evaluations.CreateFindsNewRow | StockApp.Infra.Data/Repositories/EmployeeEvaluationRepository.cs:34-39 | With a fresh identity, ids stay unique, the new row is found under it, and every other id finds what it found before. |
| Evaluations.Update | StockApp.Infra.Data/Repositories/EmployeeEvaluationRepository.cs:41-47 | The saved evaluation differs from the given one only in UpdatedAt, which is the clock. The row with its id is replaced and all others are kept. |
| Evaluations.UpdateLookups | StockApp.Infra.Data/Repositories/EmployeeEvaluationRepository.cs:41-47 | After updating a stored id, ids stay unique, the id finds the stamped row, and every other id finds what it found before. |
| Evaluations.Delete | StockApp.Infra.Data/Repositories/EmployeeEvaluationRepository.cs:49-57 | Afterwards no row has the id. The remaining rows are exactly the others. An absent id changes nothing. |
| Evaluations.DeleteRemovesOne | StockApp.Infra.Data/Repositories/EmployeeEvaluationRepository.cs:49-57 | With unique ids, deleting a stored id removes exactly that row and keeps the order of the rest. |
| Evaluations.GetByEmployeeId | StockApp.Infra.Data/Repositories/EmployeeEvaluationRepository.cs:59-66 | Exactly that employee's rows, each once, latest evaluation date first. |
| Evaluations.SameDateKeepsTableOrder | StockApp.Infra.Data/Repositories/EmployeeEvaluationRepository.cs:64 | Rows with the same date keep their table order (the model's tie order; see "Left out"). |
| Evaluations.GetLatestByEmployeeId | StockApp.Infra.Data/Repositories/EmployeeEvaluationRepository.cs:76-83 | None exactly when the employee has no row. Otherwise one of that employee's rows with the maximal evaluation date. |
| Evaluations.GetByPeriod | StockApp.Infra.Data/Repositories/EmployeeEvaluationRepository.cs:68-74 | Exactly the rows whose period equals the argument. |
| Evaluations.GetByScoreRange | StockApp.Infra.Data/Repositories/EmployeeEvaluationRepository.cs:85-91 | Exactly the rows with minScore ≤ score ≤ maxScore, both bounds included. |
| Evaluations.ScoreRangeCoveringAll | StockApp.Infra.Data/Repositories/EmployeeEvaluationRepository.cs:85-91 | A range covering every stored score returns the whole table in order. |
| Evaluations.Exists | StockApp.Infra.Data/Repositories/EmployeeEvaluationRepository.cs:93-96 | True exactly when some row has the id, which is exactly when the id lookup succeeds. |
| EvaluationDtos.CreateValidity | StockApp.Application/DTOs/EmployeeEvaluationDTO.cs:62-95 | The create DTO's attributes accept a form exactly when: the score is in 0..100; feedback is non-blank and 10..1000 long; goals, achievements and areas are at most 500; the period is non-blank and at most 20; the evaluator is non-blank and at most 100. Lengths are `string.Length`, in UTF-16 code units (`Text.Utf16Length`). |
| EvaluationDtos.SupplementaryCharactersCountTwice | StockApp.Application/DTOs/EmployeeEvaluationDTO.cs:71-73 | Six emoji are 6 characters but 12 UTF-16 code units, so as feedback they meet `[MinLength(10)]`. |
| Text.Utf16Length | StockApp.Application/DTOs/EmployeeEvaluationDTO.cs:71-94 | The UTF-16 length lies between the number of characters and twice that, and equals it exactly when every character is in the Basic Multilingual Plane. |
| EvaluationDtos.UpdateValidityIsCreateValidity | StockApp.Application/DTOs/EmployeeEvaluationDTO.cs:97-130 | The update DTO accepts exactly what the create DTO accepts. |
| EvaluationDtos.ViewValidity | StockApp.Application/DTOs/EmployeeEvaluationDTO.cs:7-60 | The read DTO is valid exactly when its form fields would be valid on the create DTO. |
| PerformanceEvaluations.FindEmployee | StockApp.Application/Services/EmployeePerformanceEvaluationService.cs:214-223 | The employee lookup succeeds exactly when the employee exists. Otherwise it fails with "Employee with ID {id} not found.". |
| PerformanceEvaluations.Quarter | StockApp.Application/Services/EmployeePerformanceEvaluationService.cs:50 | The quarter is the q in 1..4 with 3(q−1) < month ≤ 3q. |
| PerformanceEvaluations.QuarterBoundaries | StockApp.Application/Services/EmployeePerformanceEvaluationService.cs:50 | Months 1–3 are exactly Q1 and months 10–12 exactly Q4. |
| PerformanceEvaluations.PeriodLabel | StockApp.Application/Services/EmployeePerformanceEvaluationService.cs:50 | The period reads "Q", then the digit of the month's quarter, then a space and the decimal year. It is 4 to 7 characters long. |
| PerformanceEvaluations.PeriodLabelExample | StockApp.Application/Services/EmployeePerformanceEvaluationService.cs:50 | November 2025 gives "Q4 2025". |
| PerformanceEvaluations.DefaultEvaluationIsValid | StockApp.Application/Services/EmployeePerformanceEvaluationService.cs:43-53 | The default evaluation passes the read DTO's validation: score 85, 20-character feedback, short period. |
| PerformanceEvaluations.MapOnto | StockApp.Application/Services/EmployeePerformanceEvaluationService.cs:97 | Mapping a form onto a row takes all form fields and keeps the row's id, CreatedAt and UpdatedAt. |
| PerformanceEvaluations.EvaluatePerformance | StockApp.Application/Services/EmployeePerformanceEvaluationService.cs:28-61 | An unknown employee fails with the not-found message. Otherwise the result carries the employee's id and name. It is the default evaluation when the employee has no row, and otherwise a view of one of their rows with the latest date. |
| PerformanceEvaluations.CreateEvaluation | StockApp.Application/Services/EmployeePerformanceEvaluationService.cs:63-80 | An unknown employee fails. Otherwise one row is appended, carrying the form, the new identity, the clock as CreatedAt and no UpdatedAt. The returned view names the employee. |
| PerformanceEvaluations.CreatedEvaluationIsFound | StockApp.Application/Services/EmployeePerformanceEvaluationService.cs:63-80 | A created evaluation is found under its identity with the form's fields, and ids stay unique. |
| PerformanceEvaluations.UpdateEvaluation | StockApp.Application/Services/EmployeePerformanceEvaluationService.cs:82-105 | A missing evaluation fails with "Evaluation with ID {id} not found.", checked before the employee. Then an unknown employee fails. Otherwise the table keeps its length and every other row. |
| PerformanceEvaluations.UpdatedEvaluationIsStored | StockApp.Application/Services/EmployeePerformanceEvaluationService.cs:82-105 | After an update, the row under the id carries the form and its original CreatedAt, with UpdatedAt set to the clock. Every other id is unaffected. |
| PerformanceEvaluations.GetEvaluationsByEmployeeId | StockApp.Application/Services/EmployeePerformanceEvaluationService.cs:136-153 | An unknown employee fails with the not-found message. Otherwise there are as many views as the employee has rows, latest date first, each carrying the employee's id and name. The views are those of a permutation of the employee's rows. |
| PerformanceEvaluations.GetLatestEvaluation | StockApp.Application/Services/EmployeePerformanceEvaluationService.cs:169-187 | An unknown employee fails with the not-found message. A known employee gets None, not an error, exactly when they have no evaluation. Otherwise a view of one of their evaluations, named after them. |
| PerformanceEvaluations.EvaluatePerformanceIsLatestOrDefault | StockApp.Application/Services/EmployeePerformanceEvaluationService.cs:28-61 | EvaluatePerformance fails exactly when GetLatestEvaluation fails. It returns the latest evaluation when there is one, and the default evaluation when there is none. |
| PerformanceEvaluations.DeleteEvaluation | StockApp.Application/Services/EmployeePerformanceEvaluationService.cs:203-212 | A missing id fails with the not-found message. Otherwise exactly that evaluation is removed, one row when ids are unique. |
| Text.Trim | StockApp.API/Controllers/AnonymousFeedbackController.cs:127 | Trim returns a slice of its input that neither starts nor ends with white space. |
| Text.BeforeFirst | StockApp.API/Controllers/AnonymousFeedbackController.cs:127 | The result is the longest prefix without the separator. |
| Ordering.SortDesc | StockApp.Infra.Data/Repositories/EmployeeEvaluationRepository.cs:64 | The sort is a permutation of its input, ordered by descending key. |
| Ordering.SortDescStable | StockApp.Application/Services/CustomReportService.cs:217 | Elements with equal keys keep their input order, as LINQ to Objects' `OrderByDescending` does. |

## Left out

- I/O and persistence:
  - Entity Framework, SaveChanges and the SQL schema are modelled as sequences or maps.
  - Logging is left out.
  - Concurrency between requests is not modelled, including on the static report history and
    the static user list.
  - The `modifies`-based `CustomReportService` class is not counted as proof; the pure
    `GenerateReport` and `HistoryView` carry the facts.
- Text formatting of report rows:
  - `Value` and `Description` strings are built with culture formatting ("C", "N2", "F2").
  - These are modelled as the numbers they render: the `RowValue` and `Note` datatypes.
- CustomReports.PerformanceScore: the division by 3 is exact here. C# `decimal` rounds it to
  28 significant digits.
- CustomReports.SalesDatesInWindow: the random backdate is the parameter `draw`, and the window
  is proved only for draws in 1..29.
- `GetLowStockAsync` is not implemented in ProductRepository.cs. It is the parameter `lowStock`,
  so which products count as low is not modelled.
- `Uri.TryCreate` is the predicate `isAbsoluteUri`.
- `NotifyExternalSystemAsync` only logs. A notification is the `Notification` value itself, and
  a fault inside the handler is the `fault` parameter.
- ProductQueries.Search: a null `Product.Name` is not modelled. Names are always present.
- AutoMapper is treated as a field-by-field copy.
- Service pass-throughs that only read the EF navigation property `Employee?.Name` are not
  modelled: `GetEvaluationByIdAsync`, `GetAllEvaluationsAsync`, `GetEvaluationsByPeriodAsync`
  and `GetEvaluationsByScoreRangeAsync`. The repository queries they call are modelled.
- `GetAllEmployeesAsync` is not modelled.
- PerformanceEvaluations.FindEmployee: the mapping to `EmployeeDTO` in `GetEmployeeByIdAsync` is
  not modelled. The employee record is returned as is.
- The employee repository is not part of this model. It is the lookup function `employees`.
- The `User` entity is not part of this model. Its fields (Id, Username, Password, Role) are
  inferred from their use.
- PerformanceEvaluations.EvaluatePerformance:
  - the source reads `DateTime.UtcNow` several times for one default evaluation;
  - the model reads the clock once, so a month boundary crossed between those reads is not
    modelled.
- Evaluations.Update: EF raises a concurrency exception when no row has the key. The model
  replaces nothing and returns the store unchanged. The service only calls it for an id it has
  just found.
- Evaluations.Create: identities are assigned by the database. Here `newId` is a parameter, and
  freshness is a lemma hypothesis.
- Registration and user-lookup exceptions: none can arise in the in-memory store, so the
  "Error during registration" and "Error retrieving user" branches are not modelled.
- The `ReportType` `[Required]` attribute on `ReportParametersDto` is enforced by model binding,
  not by the service. The service's null handling is what is modelled.

- Evaluations.SameDateKeepsTableOrder: the EF queries become SQL `ORDER BY`, which leaves the
  order of equal dates unspecified. Keeping table order is a choice of this model. The same
  holds for the feedback queries ordered by `CreatedAt`.
- Text.ToLower: only ASCII and Latin-1 letters are lowered, independently of culture. .NET's
  culture-sensitive `ToLower` also maps other letters (the Kelvin sign, for example) and
  differs under tr-TR. Sentiment.AnalizeSentiment and the event dispatch of
  Webhooks.EventNotifications inherit this restriction.
- StockRules.Replenished: stock is an unbounded `int`. C#'s 32-bit `Stock += quantity`
  (InventoryService.cs:21,31) wraps around past 2^31 - 1.
- StockRules.ProcessReturn: the same unbounded addition; the C# `Stock += quantity`
  (ReturnService.cs:38) wraps around.
- Users.Create: the id counter is unbounded. C#'s `_nextId++` (UserRepository.cs:30) wraps
  around after 2^31 - 1 users.
- CustomReports.SalesReport: the order total is unbounded. C#'s `int totalOrders`
  (CustomReportService.cs:48,54) wraps around.

- ProductQueries.SearchMembers, Evaluations.GetByPeriod and AnonymousFeedbacks.GetBySentiment:
  the name, period and sentiment comparisons are modelled as ordinal, exact matches. In
  production the filters run as SQL under the database collation
  (`UseSqlServer`, DependencyInjection.cs:24). SQL Server's default collation ignores case and
  trailing spaces, so, for example, searching "mouse" there also finds "Mouse".

## Findings

| source | as written | input that shows it | evidently intended | confidence | as-written member | corrected member |
|---|---|---|---|---|---|---|
| StockApp.Infra.IoC/DependencyInjection.cs:47 | `ISentimentAnalysisService` resolves to `SentimentAnalysisService`, whose interface method `AnalyzeSentiment` (SentimentAnalysisService.cs:20-23) throws `NotImplementedException`. The keyword classifier is the misspelled public `AnalizeSentiment`. So `AnonymousFeedbackService.CollectFeedbackAsync` fails on every call, and the two endpoints that call it, `collect` and `submit` (AnonymousFeedbackController.cs:23-57 and 64-85), answer 500. | any feedback text, e.g. "Produto bom" | the analyser returns the keyword classifier's label, and the feedback is stored with it | not executed | AnonymousFeedbacks.CollectFeedbackAsWiredAlwaysFails | AnonymousFeedbacks.CollectFeedbackIntended |
