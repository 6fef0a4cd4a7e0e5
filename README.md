# Hexagonal-architecture samples: a verified model of the hand-written logic

The repository checks hexagonal (ports and adapters) architecture rules with ArchUnit and ships sample applications that pass or break those rules. This project models the Java code written by hand in it. The architecture rules themselves are left out, because their semantics live in the ArchUnit library. The modelled code is:

- `ValidationUtils`: the ISBN-10 and ISBN-13 check-digit validator (`isbn.dfy`). It is imperative, with loops that accumulate an `int` sum.
- The custom `notDependOnOtherAdapterTypes` condition of the empty-repository layered test, with `extractAdapterType`, the "at least two layers present" gate and the `ignoreDependency` predicates (`adapter_rules.dfy`). `ConditionEvents` is a class that `Check` appends to.
- The e-commerce domain values `Order`, `OrderItem` and `Product` (`order_model.dfy`, `product_model.dfy`), and their use-case services `OrderService` and `ProductService` (`order_service.dfy`, `product_service.dfy`).
- The book sample: the `BookId` and `Book` values with id-based equality (`book_model.dfy`), the mutable JPA `BookEntity` (`book_entity.dfy`) and `BookService` (`book_service.dfy`).
- The mixed-scenarios HashMap `ProductRepositoryAdapter` and the `ProductService` that uses it (`mixed_products.dfy`), and `LegacyOrderService` (`legacy_orders.dfy`).
- The bad-architecture `BusinessLogicInInfrastructure` user filter (`user_rules.dfy`).

Shared modules:

- `wrappers.dfy` holds `Option`, `Result` and `Outcome`.
- `java_types.dfy` holds the Java integer ranges, `UUID` as two 64-bit halves, and its `hashCode`.
- `java_strings.dfy` holds `String.contains`, `indexOf`, `trim().isEmpty()`, `Character.isDigit` and `Long.toString`.

How the Java maps onto the model:

- A Java `null` becomes `None` wherever the code checks for it.
- A thrown exception becomes a `Failure` value.
- Each repository port becomes a `map` field of the service class that uses it. The notification port becomes an append-only `seq` of sent notifications.
- `UUID.randomUUID()`, `LocalDateTime.now()` and `System.currentTimeMillis()` become parameters.
- `BigDecimal` amounts are `real`.

## Model

| member | source | states |
|---|---|---|
| ValidationUtils.IsValidIsbn | samples/good-hexagonal/src/main/java/com/example/infrastructure/util/ValidationUtils.java:10-20 | null or blank input is rejected; otherwise the verdict is ISBN-10 or ISBN-13 validity of the input with hyphens and `\s` whitespace removed; a valid input cleans to length 10 or 13 |
| ValidationUtils.IsValidIsbn10 | samples/good-hexagonal/src/main/java/com/example/infrastructure/util/ValidationUtils.java:22-46 | the loop with early exits returns exactly `Isbn10Valid`: length 10, nine digits, a digit or `X` last, weighted sum divisible by 11 |
| ValidationUtils.IsValidIsbn13 | samples/good-hexagonal/src/main/java/com/example/infrastructure/util/ValidationUtils.java:48-67 | the loop returns exactly `Isbn13Valid`: length 13, twelve digits, last character equal to (10 - sum mod 10) mod 10 with weights 1,3,1,3,... |
| ValidationUtils.Clean | samples/good-hexagonal/src/main/java/com/example/infrastructure/util/ValidationUtils.java:16 | removing separators never lengthens the string |
| ValidationUtils.CleanAppend | samples/good-hexagonal/src/main/java/com/example/infrastructure/util/ValidationUtils.java:16 | cleaning distributes over concatenation |
| ValidationUtils.CleanKeeps | samples/good-hexagonal/src/main/java/com/example/infrastructure/util/ValidationUtils.java:16 | every character kept comes from the input and is not a hyphen or whitespace |
| ValidationUtils.CleanIdempotent | samples/good-hexagonal/src/main/java/com/example/infrastructure/util/ValidationUtils.java:16 | cleaning twice is cleaning once |
| ValidationUtils.SeparatorVanishes | samples/good-hexagonal/src/main/java/com/example/infrastructure/util/ValidationUtils.java:16 | one inserted hyphen or whitespace character disappears in the cleaned string |
| ValidationUtils.IsbnValidIffCleanValid | samples/good-hexagonal/src/main/java/com/example/infrastructure/util/ValidationUtils.java:10-20 | a non-null string is valid iff its cleaned form passes the ISBN-10 or the ISBN-13 check (the blank guard is redundant: a blank string has no digit, so it fails both checks) |
| ValidationUtils.SeparatorsIgnored | samples/good-hexagonal/src/main/java/com/example/infrastructure/util/ValidationUtils.java:16-19 | inserting a hyphen or whitespace character anywhere never changes the verdict |
| ValidationUtils.Isbn10MatchesIso2108 | samples/good-hexagonal/src/main/java/com/example/infrastructure/util/ValidationUtils.java:22-46 | ISBN-10 validity iff the first nine are digits and the last is the ISO 2108 check character (digit, or `X` for 10) computed from them |
| ValidationUtils.Isbn13MatchesEan13 | samples/good-hexagonal/src/main/java/com/example/infrastructure/util/ValidationUtils.java:48-67 | ISBN-13 validity iff all 13 are digits and the EAN-13 weighted sum over all 13 is a multiple of 10 |
| ValidationUtils.Isbn13RejectsNonDigitCheck | samples/good-hexagonal/src/main/java/com/example/infrastructure/util/ValidationUtils.java:63-66 | a non-digit 13th character always fails, though the code does not test it |
| ValidationUtils.Isbn10RejectsMisplacedX | samples/good-hexagonal/src/main/java/com/example/infrastructure/util/ValidationUtils.java:29-43 | lowercase `x` last, or `X` among the first nine, fails |
| ValidationUtils.Isbn10SumBounds | samples/good-hexagonal/src/main/java/com/example/infrastructure/util/ValidationUtils.java:28-34 | the partial ISBN-10 sum stays between 0 and the all-nines bound |
| ValidationUtils.Isbn10SumAtMost496 | samples/good-hexagonal/src/main/java/com/example/infrastructure/util/ValidationUtils.java:28-45 | the final ISBN-10 sum is at most 496, far inside `int` |
| ValidationUtils.Isbn13SumBounds | samples/good-hexagonal/src/main/java/com/example/infrastructure/util/ValidationUtils.java:54-61 | the partial ISBN-13 sum stays between 0 and the all-nines bound |
| ValidationUtils.Isbn13SumAtMost216 | samples/good-hexagonal/src/main/java/com/example/infrastructure/util/ValidationUtils.java:54-61 | the ISBN-13 sum is at most 216, far inside `int` |
| LayeredArchitecture.ExtractAdapterType | samples/empty-repo/src/test/java/com/example/archunit/LayeredArchitectureTest.java:120-127 | null iff the package lacks `.adapters.`; otherwise a prefix of the text after the first marker, cut before the next dot when one follows a non-empty segment, and the whole remainder otherwise |
| LayeredArchitecture.ViolationMessage | samples/empty-repo/src/test/java/com/example/archunit/LayeredArchitectureTest.java:110-112 | the `String.format` text of a violation (definition; its content is stated by the next row) |
| LayeredArchitecture.ViolationMessageNamesBothSides | samples/empty-repo/src/test/java/com/example/archunit/LayeredArchitectureTest.java:110-112 | the message contains the source class name, the source adapter type, the target class name and the target adapter type |
| LayeredArchitecture.ViolationFor | samples/empty-repo/src/test/java/com/example/archunit/LayeredArchitectureTest.java:94-113 | one dependency is reported iff the source has an adapter type, the target is in adapters and the two types differ; the event carries that dependency and the message built from the source class, the source type, the target class and the target type |
| LayeredArchitecture.Check | samples/empty-repo/src/test/java/com/example/archunit/LayeredArchitectureTest.java:87-115 | the events afterwards are the events before followed by `Violations` of the dependencies, in iteration order |
| LayeredArchitecture.CheckDependency | samples/empty-repo/src/test/java/com/example/archunit/LayeredArchitectureTest.java:91-113 | one loop pass appends exactly the event `ViolationFor` gives, or nothing |
| LayeredArchitecture.ViolationsSnoc | samples/empty-repo/src/test/java/com/example/archunit/LayeredArchitectureTest.java:90-114 | handling one more dependency appends that dependency's events at the end |
| LayeredArchitecture.ViolationsAppend | samples/empty-repo/src/test/java/com/example/archunit/LayeredArchitectureTest.java:90-114 | events follow dependency order: the events of a concatenation are the events of its parts, in order |
| LayeredArchitecture.ViolationsAtMostOnePerDependency | samples/empty-repo/src/test/java/com/example/archunit/LayeredArchitectureTest.java:90-114 | never more events than dependencies |
| LayeredArchitecture.NoAdapterTypeNoViolations | samples/empty-repo/src/test/java/com/example/archunit/LayeredArchitectureTest.java:88-113 | a class whose package has no adapter type never produces an event |
| LayeredArchitecture.ViolationsSound | samples/empty-repo/src/test/java/com/example/archunit/LayeredArchitectureTest.java:90-114 | every event comes from a listed dependency that `ViolationFor` reports |
| LayeredArchitecture.ViolationsComplete | samples/empty-repo/src/test/java/com/example/archunit/LayeredArchitectureTest.java:90-114 | every reportable dependency's event is among the events |
| LayeredArchitecture.ConditionEvents.Add | samples/empty-repo/src/test/java/com/example/archunit/LayeredArchitectureTest.java:109 | `events.add` appends the event at the end |
| LayeredArchitecture.AnyPackageContains | samples/empty-repo/src/test/java/com/example/archunit/LayeredArchitectureTest.java:39-44 | `anyMatch` of `contains`: true iff some class package contains the marker |
| LayeredArchitecture.PresentLayerCount | samples/empty-repo/src/test/java/com/example/archunit/LayeredArchitectureTest.java:39-44 | no layer is present iff no class package contains any of the three markers |
| LayeredArchitecture.LayeredCheckApplies | samples/empty-repo/src/test/java/com/example/archunit/LayeredArchitectureTest.java:46-49 | the layered check runs iff at least two of core, adapters and infrastructure are present |
| LayeredArchitecture.AnyPackageContainsMonotone | samples/empty-repo/src/test/java/com/example/archunit/LayeredArchitectureTest.java:39-44 | importing more classes never turns a layer flag off |
| LayeredArchitecture.PresentLayerCountMonotone | samples/empty-repo/src/test/java/com/example/archunit/LayeredArchitectureTest.java:39-44 | importing more classes never lowers the number of present layers |
| LayeredArchitecture.LayeredCheckAppliesMonotone | samples/empty-repo/src/test/java/com/example/archunit/LayeredArchitectureTest.java:46-49 | once the layered check applies, it still applies with more classes |
| LayeredArchitecture.IgnoredDependency | samples/empty-repo/src/test/java/com/example/archunit/LayeredArchitectureTest.java:57-60 | an edge is ignored iff its origin package is exactly `com.example` and its target package contains `.core.` (definition) |
| LayeredArchitecture.RootPackageHasNoMarker | samples/empty-repo/src/test/java/com/example/archunit/LayeredArchitectureTest.java:58 | `com.example` contains no dot-delimited layer marker |
| LayeredArchitecture.IgnoredOriginIsOutsideEveryLayer | samples/empty-repo/src/test/java/com/example/archunit/LayeredArchitectureTest.java:57-60 | the origin of an ignored edge lies in no layer and has no adapter type, so the cross-adapter condition reports nothing for it |
| OrderModel.TotalPrice | src/main/java/com/example/ecommerce/core/order/model/OrderItem.java:35-37 | a zero quantity or price gives 0; at a positive price the total has the sign of the quantity, so with no sign check a negative quantity gives a negative total |
| OrderModel.UpdateStatus | src/main/java/com/example/ecommerce/core/order/model/Order.java:50-52 | the copy has the new status and every other field of the receiver |
| OrderModel.UpdateStatusLastWins | src/main/java/com/example/ecommerce/core/order/model/Order.java:50-52 | two updates in a row equal the second alone |
| OrderModel.UpdateStatusToSameStatus | src/main/java/com/example/ecommerce/core/order/model/Order.java:50-52 | updating to the current status gives an equal order |
| OrderModel.OrderTotal | src/main/java/com/example/ecommerce/core/order/usecase/OrderService.java:25-27 | the `reduce` over item totals: 0 for no items, and 0 when every quantity is 0 |
| OrderModel.OrderTotalAppend | src/main/java/com/example/ecommerce/core/order/usecase/OrderService.java:25-27 | the `reduce` total of a concatenation is the sum of the totals |
| OrderModel.OrderTotalOfOne | src/main/java/com/example/ecommerce/core/order/usecase/OrderService.java:25-27 | a single item's order total is its `getTotalPrice` |
| OrderModel.OrderTotalNonNegative | src/main/java/com/example/ecommerce/core/order/usecase/OrderService.java:25-27 | items with non-negative quantities and prices give a non-negative total |
| OrderUseCase.StatusNotifications | src/main/java/com/example/ecommerce/core/order/usecase/OrderService.java:53-57 | at most one notification; shipping iff SHIPPED, delivery iff DELIVERED, about the saved order, never a confirmation |
| OrderUseCase.OrderService.constructor | src/main/java/com/example/ecommerce/core/order/usecase/OrderService.java:19-22 | starts with the given repository contents and no notifications |
| OrderUseCase.OrderService.Save | src/main/java/com/example/ecommerce/core/order/usecase/OrderService.java:38 | `save` puts the order under its id and returns it |
| OrderUseCase.OrderService.Notify | src/main/java/com/example/ecommerce/core/order/usecase/OrderService.java:39 | a sent notification is appended to the log |
| OrderUseCase.OrderService.CreateOrder | src/main/java/com/example/ecommerce/core/order/usecase/OrderService.java:24-41 | the saved order has the new id, the customer and items, the items' total, PENDING and the clock reading; it is stored, exactly one confirmation for it is sent, and it is returned |
| OrderUseCase.OrderService.GetOrder | src/main/java/com/example/ecommerce/core/order/usecase/OrderService.java:43-46 | found iff the id is stored, returning that order; otherwise OrderNotFound |
| OrderUseCase.OrderService.UpdateOrderStatus | src/main/java/com/example/ecommerce/core/order/usecase/OrderService.java:48-60 | a missing id fails with nothing saved or sent; otherwise the order with only its status replaced is stored, the status notifications are sent, and it is returned |
| OrderUseCase.OrderService.GetCustomerOrders | src/main/java/com/example/ecommerce/core/order/usecase/OrderService.java:62-64 | exactly the stored orders of that customer |
| ProductModel.UpdateStock | src/main/java/com/example/ecommerce/core/product/model/Product.java:41-43 | the copy has the new stock and every other field of the receiver |
| ProductModel.UpdateStockLastWins | src/main/java/com/example/ecommerce/core/product/model/Product.java:41-43 | two stock updates in a row equal the second alone |
| ProductUseCase.ProductService.constructor | src/main/java/com/example/ecommerce/core/product/usecase/ProductService.java:15-17 | starts with the given repository contents |
| ProductUseCase.ProductService.Save | src/main/java/com/example/ecommerce/core/product/usecase/ProductService.java:21 | `save` puts the product under its id and returns it |
| ProductUseCase.ProductService.CreateProduct | src/main/java/com/example/ecommerce/core/product/usecase/ProductService.java:19-22 | stores and returns a product with the new id and the given name, description, price and stock |
| ProductUseCase.ProductService.GetProduct | src/main/java/com/example/ecommerce/core/product/usecase/ProductService.java:24-27 | found iff the id is stored; otherwise ProductNotFound |
| ProductUseCase.ProductService.GetAllProducts | src/main/java/com/example/ecommerce/core/product/usecase/ProductService.java:29-31 | exactly the stored products |
| ProductUseCase.ProductService.UpdateStock | src/main/java/com/example/ecommerce/core/product/usecase/ProductService.java:33-40 | lookup first: a missing id fails with ProductNotFound even for a negative quantity; a negative quantity fails with the stock message and saves nothing; otherwise the product with only its stock replaced is stored and returned |
| ProductUseCase.ProductService.SearchProducts | src/main/java/com/example/ecommerce/core/product/usecase/ProductService.java:42-44 | exactly the stored products whose name contains the text |
| BookModel.NewBookId | samples/good-hexagonal/src/main/java/com/example/core/book/model/BookId.java:13-15 | fails with "BookId value cannot be null" iff the value is null; otherwise wraps it |
| BookModel.NewBook | samples/good-hexagonal/src/main/java/com/example/core/book/model/Book.java:17-23 | succeeds iff no argument is null, keeping all five; otherwise the message of the first null argument in declaration order |
| BookModel.BookIdEquals | samples/good-hexagonal/src/main/java/com/example/core/book/model/BookId.java:30-35 | false for null, otherwise equality of the wrapped UUIDs (definition; see the lemmas below) |
| BookModel.BookIdHashCode | samples/good-hexagonal/src/main/java/com/example/core/book/model/BookId.java:37-40 | `Objects.hash(value)`: 31 plus the UUID hash, wrapping at 32 bits (definition) |
| BookModel.BookEquals | samples/good-hexagonal/src/main/java/com/example/core/book/model/Book.java:31-37 | false for null, otherwise equality of the ids (definition; see the lemmas below) |
| BookModel.BookHashCode | samples/good-hexagonal/src/main/java/com/example/core/book/model/Book.java:39-42 | `Objects.hash(id)` (definition) |
| BookModel.BookIdEqualsIffSameUuid | samples/good-hexagonal/src/main/java/com/example/core/book/model/BookId.java:30-35 | two BookIds are equal iff their UUIDs are |
| BookModel.BookIdHashCodeConsistent | samples/good-hexagonal/src/main/java/com/example/core/book/model/BookId.java:37-40 | equal BookIds hash alike |
| BookModel.BookEqualsIffSameId | samples/good-hexagonal/src/main/java/com/example/core/book/model/Book.java:31-37 | two Books are equal iff their ids are, whatever the other fields |
| BookModel.BookEqualsIsEquivalence | samples/good-hexagonal/src/main/java/com/example/core/book/model/Book.java:31-37 | Book equality is reflexive, symmetric and transitive |
| BookModel.BookHashCodeConsistent | samples/good-hexagonal/src/main/java/com/example/core/book/model/Book.java:39-42 | equal Books hash alike |
| BookPersistence.BookEntity.Empty | samples/good-hexagonal/src/main/java/com/example/adapters/database/entity/BookEntity.java:33 | every field null |
| BookPersistence.BookEntity.constructor | samples/good-hexagonal/src/main/java/com/example/adapters/database/entity/BookEntity.java:35-41 | every field as given |
| BookPersistence.BookEntity.FromDomain | samples/good-hexagonal/src/main/java/com/example/adapters/database/entity/BookEntity.java:43-51 | a fresh entity with the book's UUID, title, author, price and isbn, whose `toDomain` gives back the same book |
| BookPersistence.BookEntity.ToDomain | samples/good-hexagonal/src/main/java/com/example/adapters/database/entity/BookEntity.java:53-61 | succeeds iff no field is null, rebuilding the Book around a new BookId; a null id fails with BookId's message |
| BookPersistence.BookEntity.SetId | samples/good-hexagonal/src/main/java/com/example/adapters/database/entity/BookEntity.java:65 | sets the id, nothing else |
| BookPersistence.BookEntity.SetTitle | samples/good-hexagonal/src/main/java/com/example/adapters/database/entity/BookEntity.java:68 | sets the title, nothing else |
| BookPersistence.BookEntity.SetAuthor | samples/good-hexagonal/src/main/java/com/example/adapters/database/entity/BookEntity.java:71 | sets the author, nothing else |
| BookPersistence.BookEntity.SetPrice | samples/good-hexagonal/src/main/java/com/example/adapters/database/entity/BookEntity.java:74 | sets the price, nothing else |
| BookPersistence.BookEntity.SetIsbn | samples/good-hexagonal/src/main/java/com/example/adapters/database/entity/BookEntity.java:77 | sets the isbn, nothing else |
| BookPersistence.EmptyEntityDoesNotConvert | samples/good-hexagonal/src/main/java/com/example/adapters/database/entity/BookEntity.java:33-61 | an entity from the no-argument constructor fails to convert, with BookId's null message |
| BookUseCase.StoringNewIsbnKeepsUnique | samples/good-hexagonal/src/main/java/com/example/core/book/usecase/BookService.java:23-30 | storing a book whose ISBN is not taken keeps ISBNs unique |
| BookUseCase.UniqueIsbnsDetermineBook | samples/good-hexagonal/src/main/java/com/example/core/book/usecase/BookService.java:37-40 | with unique ISBNs, `findByIsbn` has at most one answer |
| BookUseCase.BookService.constructor | samples/good-hexagonal/src/main/java/com/example/core/book/usecase/BookService.java:19-21 | wraps any repository keyed by id with unique ISBNs (the entity's unique ISBN column), holding exactly its books |
| BookUseCase.BookService.RepositoryFindByIsbn | samples/good-hexagonal/src/main/java/com/example/core/book/usecase/BookService.java:24 | finds a stored book with that ISBN iff one exists |
| BookUseCase.BookService.CreateBook | samples/good-hexagonal/src/main/java/com/example/core/book/usecase/BookService.java:23-30 | a taken ISBN fails with DuplicateIsbn and saves nothing; otherwise it stores and returns the new book under its fresh id; ISBNs stay unique |
| BookUseCase.BookService.FindById | samples/good-hexagonal/src/main/java/com/example/core/book/usecase/BookService.java:32-35 | found iff the id is stored; otherwise BookNotFound |
| BookUseCase.BookService.FindByIsbn | samples/good-hexagonal/src/main/java/com/example/core/book/usecase/BookService.java:37-40 | found iff some stored book has the ISBN; otherwise BookNotFound |
| BookUseCase.BookService.FindByAuthor | samples/good-hexagonal/src/main/java/com/example/core/book/usecase/BookService.java:42-44 | exactly the stored books by that author |
| BookUseCase.BookService.FindAllBooks | samples/good-hexagonal/src/main/java/com/example/core/book/usecase/BookService.java:46-48 | exactly the stored books |
| BookUseCase.BookService.DeleteBook | samples/good-hexagonal/src/main/java/com/example/core/book/usecase/BookService.java:50-55 | a missing id fails and deletes nothing; otherwise exactly that book is removed |
| MixedProducts.ProductRepositoryAdapter.constructor | samples/mixed-scenarios/src/main/java/com/example/adapters/database/adapter/ProductRepositoryAdapter.java:20 | empty storage |
| MixedProducts.ProductRepositoryAdapter.Save | samples/mixed-scenarios/src/main/java/com/example/adapters/database/adapter/ProductRepositoryAdapter.java:23-27 | puts the product under its id, replacing any previous entry, leaving other keys alone, and returns it |
| MixedProducts.ProductRepositoryAdapter.FindById | samples/mixed-scenarios/src/main/java/com/example/adapters/database/adapter/ProductRepositoryAdapter.java:30-33 | present iff the key is stored, returning its product |
| MixedProducts.ProductRepositoryAdapter.FindAll | samples/mixed-scenarios/src/main/java/com/example/adapters/database/adapter/ProductRepositoryAdapter.java:36-40 | the loop lists each stored product once: the length is the number of keys, the members are the stored values, and there are no repeats |
| MixedProducts.ProductRepositoryAdapter.DeleteById | samples/mixed-scenarios/src/main/java/com/example/adapters/database/adapter/ProductRepositoryAdapter.java:43-45 | removes exactly that key, which is absent afterwards; a no-op when absent, so a second call changes nothing |
| MixedProducts.ProductService.constructor | samples/mixed-scenarios/src/main/java/com/example/core/product/usecase/ProductService.java:15-17 | keeps the given repository |
| MixedProducts.ProductService.CreateProduct | samples/mixed-scenarios/src/main/java/com/example/core/product/usecase/ProductService.java:19-23 | stores and returns a product with the new id, name and description |
| MixedProducts.ProductService.GetAllProducts | samples/mixed-scenarios/src/main/java/com/example/core/product/usecase/ProductService.java:25-27 | the repository's list: one entry per stored product |
| MixedProducts.ProductService.GetProduct | samples/mixed-scenarios/src/main/java/com/example/core/product/usecase/ProductService.java:29-32 | found iff the id is stored; otherwise the error "Product not found: " followed by the id |
| LegacyOrders.ProcessOrder | samples/mixed-scenarios/src/main/java/com/example/legacy/services/LegacyOrderService.java:17-26 | fails with "Order data cannot be empty" iff the data is null or blank; otherwise starts with "Created order: ORDER-" and ends with " with data: " and the data |
| LegacyOrders.ProcessOrderDistinguishesInstants | samples/mixed-scenarios/src/main/java/com/example/legacy/services/LegacyOrderService.java:24-25 | the message determines the timestamp: different instants give different messages |
| LegacyOrders.FindOrder | samples/mixed-scenarios/src/main/java/com/example/legacy/services/LegacyOrderService.java:28-35 | fails with "Order ID cannot be empty" iff the id is null or blank; otherwise "Order found: " followed by exactly the id |
| UserRules.FilterByEmail | samples/bad-architecture/src/main/java/com/example/services/BusinessLogicInInfrastructure.java:24 | keeps every occurrence of each user with a non-null, non-empty email and no other, in input order |
| UserRules.FilterByName | samples/bad-architecture/src/main/java/com/example/services/BusinessLogicInInfrastructure.java:25 | keeps every occurrence of each user with a non-null, non-empty name and no other, in input order |
| UserRules.FilterActiveUsers | samples/bad-architecture/src/main/java/com/example/services/BusinessLogicInInfrastructure.java:22-27 | keeps every occurrence of each user whose email and name are both non-null and non-empty, and no other |
| UserRules.FilterActiveUsersIsSubsequence | samples/bad-architecture/src/main/java/com/example/services/BusinessLogicInInfrastructure.java:22-27 | the result keeps the input's order and is never longer |
| UserRules.FilterActiveUsersIdempotent | samples/bad-architecture/src/main/java/com/example/services/BusinessLogicInInfrastructure.java:22-27 | filtering a filtered list changes nothing |
| UserRules.IsValidUser | samples/bad-architecture/src/main/java/com/example/services/BusinessLogicInInfrastructure.java:32-37 | a non-null user with a non-null name and a non-null email containing `@` (definition; related to the filter below) |
| UserRules.ValidUserPassesEmailFilter | samples/bad-architecture/src/main/java/com/example/services/BusinessLogicInInfrastructure.java:24-37 | a valid user has a non-empty email, and a valid user with a non-empty name survives the filter |
| UserRules.ValidUserWithEmptyNameIsFilteredOut | samples/bad-architecture/src/main/java/com/example/services/BusinessLogicInInfrastructure.java:24-37 | every valid user with an empty name is absent from the filter's result, for any list |
| UserRules.ValidUserMayBeFilteredOut | samples/bad-architecture/src/main/java/com/example/services/BusinessLogicInInfrastructure.java:24-37 | some valid user is dropped by the filter: the one with no id, an empty name and email `@` |
| JavaStrings.IndexOf | samples/empty-repo/src/test/java/com/example/archunit/LayeredArchitectureTest.java:123-124 | `indexOf`: -1 iff absent, else the first position of an occurrence |
| JavaStrings.NatToDecimal | samples/mixed-scenarios/src/main/java/com/example/legacy/services/LegacyOrderService.java:24 | decimal digits only, with no leading zero except for 0 itself |
| JavaStrings.DecimalRoundTrip | samples/mixed-scenarios/src/main/java/com/example/legacy/services/LegacyOrderService.java:24 | reading back the decimal text gives the number |
| JavaStrings.LongToStringInjective | samples/mixed-scenarios/src/main/java/com/example/legacy/services/LegacyOrderService.java:24 | distinct longs print differently |

## Left out

- The ArchUnit rule declarations, the `..` package patterns and the `layeredArchitecture()` check itself are library behaviour. Only the hand-written helpers around them are modelled. The gate and the `ignoreDependency` predicates are modelled as conditions, not as their effect inside ArchUnit.
- `String.format` of the violation message is modelled as plain concatenation of the same four pieces.
- `Character.isDigit` accepts every Unicode decimal digit; the model accepts only `0`-`9`.
- `BookId.from`, `BookId.toString` and `BookId.generate`: UUID parsing and printing are not modelled. The generated UUID is a parameter.
- The exception messages that embed a UUID ("Order not found with id: ..." and the like) need UUID printing. The model's error values carry the UUID instead of the message.
- `BigDecimal` scale and precision (for example `2.0` versus `2.00` in `equals`) are not modelled. Amounts are exact `real` values.
- The `OrderStatus` enum is not part of this model beyond PENDING, SHIPPED, DELIVERED and an opaque "other" constant.
- Repository queries (`findAll`, `findByCustomerId`, `findByAuthor`, `findByNameContaining`) come from Spring Data with no defined order. Apart from the HashMap adapter's `findAll`, they are returned as sets. The JPA `findByNameContaining` is modelled as a case-sensitive `contains`.
- `save` in the ports is modelled as storing the given value and returning it. The JPA adapters behind those ports are not modelled.
- The mixed-scenarios `ProductEntity` is not shown. Its `fromDomain` and `toDomain` are taken to copy the fields unchanged, so the adapter stores products directly.
- Null list elements, null arguments to the services and null fields of a `Book` after construction are not modelled, except where the code checks for null.
- The `getClass() != o.getClass()` branch of `equals` (subclasses) is not modelled: there is one class per entity.
- Controllers, notification and payment adapters, configuration classes and `main` methods are I/O or wiring and are left out.
- `OrderItem`, `Order` and `Product` constructors and getters are datatype constructors and fields, so they need no separate members.
