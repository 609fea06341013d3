# Dog listing service — a Dafny model

This project models the core of a small ASP.NET Core web service that keeps a table of dogs. Each dog has a name, a colour, a tail length and a weight. The model covers three parts:

- **`DogService.GetDogsAsync`**: the listing behind `GET /dogs`. It validates four loosely typed parameters (`attribute`, `order`, `pageNumber`, `pageSize`) in a fixed order and throws the first failing check's exception. Otherwise it sorts the stored records by one property, cuts out one page, and returns a `DogDto` per record (everything but the `Id`).
- **`DogService.CreateDogAsync`**: `POST /dog`. It refuses a name that is already stored, and otherwise appends one record built from the DTO.
- **`DogDto`**: its four properties, which are also the sortable attributes, their data-annotation rules, and the JSON key of each.
- **`ExceptionMiddleware.HandleExceptionAsync`**: the mapping from exception type to HTTP status and the `{ "error": message }` body.

How the C# is represented:

- The listing is a pure function of the stored records and the parameters. It returns `Result<seq<DogDto>, Exception>`, and a thrown exception is a `Failure` carrying the exception's class, message and parameter name.
- The creation is a method of a `DogService` class whose `dogs` field is the table. The store's identity counter is the `nextId` field.
- The outcome of the store's commit is a parameter of the method.
- The DTO's TailLength and Weight are `int32` values, as are the paging parameters. The record Id and the store's identity counter are unbounded `int`. The one place where the source's 32-bit arithmetic can wrap is modelled explicitly; see Findings.
- An exception's class is one of the five classes the code names, or another class tagged with the hierarchy it derives from (ArgumentException, ValidationException, DuplicateNameException, DbUpdateException, or none of them). So `ArgumentNullException` is caught as an ArgumentException and `DbUpdateConcurrencyException` as a DbUpdateException, as the C# type tests do.
- On the wire, TailLength travels as `tail_length` (its `JsonPropertyName`), and the other properties travel camel-cased (`name`, `color`, `weight`) under ASP.NET Core's default naming policy; `DogDtos.WireName` gives the key of each.

Modules:

- `Wrappers`: `Option`, `Result` and `Outcome`.
- `Runtime`: the .NET pieces the code relies on — `int` and unchecked arithmetic, `char.ToUpper`, `string.IsNullOrWhiteSpace`, the exception classes and `Exception.Message`.
- `DogDtos`, `Models`: the DTO and the stored record.
- `Sorting`: what `OrderBy`/`OrderByDescending` promise.
- `Paging`: `Skip`/`Take`.
- `Services`: the service itself.
- `ListingProperties`: what the listing promises, stated over all inputs.
- `ExceptionMiddleware`, `Responses`: the HTTP answers.
- `ServiceExamples`: the unit tests' scenarios and the database seed.

## Model

| member | source | states |
|---|---|---|
| Runtime.Unchecked | testtask/Services/Implementations/DogService.cs:37 | An Int32 expression in an unchecked context is congruent to the exact value modulo 2^32, and equals it whenever the exact value fits. |
| Runtime.ToUpper | testtask/Services/Implementations/DogService.cs:24 | Upper-casing the first character maps an ASCII lower-case letter to its capital, leaves every other character alone, and never yields a lower-case letter. |
| Runtime.Exception.Message | testtask/Services/Implementations/DogService.cs:26-30 | The message of an ArgumentException given a parameter name is the text followed by " (Parameter 'name')". Otherwise the message is the text. The text is always a prefix of the message. |
| DogDtos.GetProperty | testtask/Services/Implementations/DogService.cs:25 | Looking up a property of DogDto by name finds the property whose identifier is exactly that name. A miss means no property has that identifier. |
| DogDtos.ValidationErrors | testtask/DTOs/DogDto.cs:8-16 | A DTO has no validation errors exactly when it is valid. Each of the four messages appears exactly when its rule fails: Name missing or blank, Color missing or blank, TailLength below 1, Weight below 1. |
| DogDtos.Valid | testtask/DTOs/DogDto.cs:8-16 | A DTO is valid exactly when Name and Color are present and not blank and TailLength and Weight are at least 1; a valid DTO's Name and Color each hold a character that is not white space. |
| DogDtos.WireNamesDistinct | testtask/DTOs/DogDto.cs:12 | The JSON keys of the four properties are pairwise distinct, with `tail_length` for TailLength. |
| Models.ToDto | testtask/Services/Implementations/DogService.cs:42-48 | A record's DTO carries its Name, Color, TailLength and Weight. |
| Models.ToDtos | testtask/Services/Implementations/DogService.cs:42-48 | The listing has one DTO per selected record, in the same order, each the projection of its record. |
| Models.FromDto | testtask/Services/Implementations/DogService.cs:58-64 | The record built from a DTO projects back to that DTO and carries the given Id. |
| Sorting.KeyOf | testtask/Services/Implementations/DogService.cs:28-29 | The sort key of a record is read from its DTO fields alone (never the Id); Name and Color give text keys, TailLength and Weight numbers. |
| Sorting.TextLe | testtask/Services/Implementations/DogService.cs:28-29 | The ordinal order in which Name and Color sort: a prefix precedes its extensions. |
| Sorting.TextLeIsLexicographic | testtask/Services/Implementations/DogService.cs:28-29 | The ordinal order is exactly the lexicographic order: `s` precedes `t` iff `s` is a prefix of `t` or is below `t` at their first difference. |
| Sorting.TextLeTotal | testtask/Services/Implementations/DogService.cs:28-29 | Any two texts are comparable under the ordinal order used for Name and Color. |
| Sorting.TextLeTransitive | testtask/Services/Implementations/DogService.cs:28-29 | The ordinal text order is transitive. |
| Sorting.TextLeAntisymmetric | testtask/Services/Implementations/DogService.cs:28-29 | Two texts that each precede the other are equal. |
| Sorting.Insert | testtask/Services/Implementations/DogService.cs:28-29 | Inserting a record into an ordered sequence gives an ordered sequence holding exactly the old records plus the new one. |
| Sorting.OrderBy | testtask/Services/Implementations/DogService.cs:28-29 | Ordering by a property ascending or descending gives a permutation of the records in which every record precedes every later one in that direction. |
| Paging.SkipTake | testtask/Services/Implementations/DogService.cs:37 | Skip then Take yields min(take, what remains after skip) elements, taken from the skip position on. Negative counts act as zero. |
| Paging.Window | testtask/Services/Implementations/DogService.cs:37 | A page holds min(pageSize, n − pageSize·(pageNumber−1)) records, read from that offset on; `WindowShape`, `RecordOnItsPage` and `PositionOnOnePage` carry the rest of its meaning. |
| Paging.WindowShape | testtask/Services/Implementations/DogService.cs:37 | A page is the slice of the records from its offset to the next page's offset, cut at the end. |
| Paging.PageBeyondEndIsEmpty | testtask/Services/Implementations/DogService.cs:37 | A page whose offset reaches past the last record is empty. |
| Paging.RecordOnItsPage | testtask/Services/Implementations/DogService.cs:37 | Record i is entry i mod size of page i div size + 1, so every record is on some page. |
| Paging.PositionOnOnePage | testtask/Services/Implementations/DogService.cs:37 | Entry k of page n is record size·(n−1)+k, whose page and entry are n and k again. No record is on two pages. |
| Paging.OffsetAsWritten | testtask/Services/Implementations/DogService.cs:37 | The offset as the source computes it differs from the exact offset by a multiple of 2^32, and equals it whenever the exact offset fits in an Int32. |
| Paging.WindowAsWritten | testtask/Services/Implementations/DogService.cs:37 | With the 32-bit offset, a page holds min(pageSize, what remains after the offset clamped at 0) records, read from there on; a wrapped offset at or below 0 gives the first pageSize records. |
| Paging.WindowAsWrittenAgrees | testtask/Services/Implementations/DogService.cs:37 | The 32-bit offset and the exact offset give the same page whenever the product fits in an Int32. |
| Paging.OffsetOverflow | testtask/Services/Implementations/DogService.cs:37 | Page 32769 of size 65536 has a 32-bit offset of −2^31. For up to 65536 records it repeats the whole listing, where the exact offset gives an empty page. |
| Services.Capitalize | testtask/Services/Implementations/DogService.cs:24 | Normalising the attribute keeps its length and every character after the first. |
| Services.CapitalizeNames | testtask/Services/Implementations/DogService.cs:24-25 | The normalised attribute equals a property's identifier exactly when the attribute is that identifier or the identifier with a lower-case first letter. |
| Services.ParseAttribute | testtask/Services/Implementations/DogService.cs:24-26 | An attribute selects property p exactly when it names p: "Weight" and "weight" both select Weight. Anything else selects nothing. DogDto's four properties are the sortable attributes. |
| Services.ParseSorting | testtask/Services/Implementations/DogService.cs:22-32 | Both empty: no sort. Otherwise the request sorts by p ascending exactly when the attribute names p and order is "asc", and descending exactly for "desc". Every failure is one of the three sorting exceptions. |
| Services.ParsePaging | testtask/Services/Implementations/DogService.cs:34-39 | Paging succeeds exactly when both values are absent, or both are present and positive. The page has exactly those values. Both present with one not positive gives the out-of-range exception; one present alone gives "Invalid paging inputs". |
| Services.Select | testtask/Services/Implementations/DogService.cs:28-37 | Nothing asked: the store itself. Only paging asked: that page of the store, in store order. Never more records than the store. `SelectOrders` and `ListingIsPageOfOrderedStore` state the sorted cases. |
| Services.SelectOrders | testtask/Services/Implementations/DogService.cs:28-37 | Without paging the selection is a permutation of the store. With a sort it is ordered by that property and direction, paged or not, because a page of an ordered sequence is ordered. |
| Services.GetDogs | testtask/Services/Implementations/DogService.cs:19-49 | Every failure of the listing is one of its five listing exceptions. A successful listing has no more entries than the store. |
| Services.NameTaken | testtask/Services/Implementations/DogService.cs:53-54 | A name is taken exactly when some stored record carries exactly that name. |
| Services.FirstWithName | testtask/Services/Implementations/DogService.cs:53 | The lookup finds a record exactly when some record has that exact name. It returns the first such record. |
| Services.AppendKeepsNamesUnique | testtask/Services/Implementations/DogService.cs:58-68 | Appending a record whose name is not taken keeps all names distinct. |
| Services.MaxId | testtask/Models/Dog.cs:5 | The largest stored Id, or 0: at least 0 and at least every stored Id, so the Id the store assigns next is new. |
| Services.DogService.constructor | testtask/Services/Implementations/DogService.cs:14-17 | The service starts over the given table, with the identity counter past every stored Id. |
| Services.DogService.CreateDog | testtask/Services/Implementations/DogService.cs:51-74 | Taken name: "Name is already taken", store unchanged. Free name and a successful commit: exactly one record is appended, carrying the DTO's fields and a fresh Id. Failed commit: an exception of the DbUpdateException hierarchy becomes "Name is already taken", any other exception passes through, store unchanged. The identity counter advances by one exactly on success. Unique names, distinct Ids and DTO validity of all records are preserved. |
| ListingProperties.ListingSucceedsIff | testtask/Services/Implementations/DogService.cs:22-39 | A listing succeeds exactly when the sorting pair is both-empty or a property name with "asc"/"desc", and the paging pair is both-absent or both-positive. |
| ListingProperties.OneSortParameterFails | testtask/Services/Implementations/DogService.cs:32 | Exactly one of attribute and order given: "Invalid sorting inputs", whatever the paging parameters. |
| ListingProperties.UnknownAttributeFails | testtask/Services/Implementations/DogService.cs:24-26 | Both given and the attribute names no property: "Invalid attribute name" for parameter "attribute", whatever the order, so a bad attribute wins over a bad order. |
| ListingProperties.UnknownOrderFails | testtask/Services/Implementations/DogService.cs:28-30 | A known attribute with an order other than exactly "asc" or "desc": "Invalid order name" for parameter "order". |
| ListingProperties.PagingCheckedAfterSorting | testtask/Services/Implementations/DogService.cs:34-39 | Once sorting passes, one paging value alone fails with "Invalid paging inputs". Both with one not positive fail with the out-of-range exception. |
| ListingProperties.NoParametersListsEverything | testtask/Services/Implementations/DogService.cs:41-48 | Without parameters the listing is every stored record, in store order, projected to its DTO. |
| ListingProperties.ListingIsPageOfOrderedStore | testtask/Services/Implementations/DogService.cs:28-48 | A successful listing is the DTOs of a page (when paging is given) of a permutation of the store. That permutation is ordered by the requested property and direction, or is the store itself when no sort is asked for. Sorting comes before paging. |
| ListingProperties.SortedListingIsOrdered | testtask/Services/Implementations/DogService.cs:28-37 | A sorted listing, paged or not, is ordered by the requested property in the requested direction. |
| ListingProperties.ListingLength | testtask/Services/Implementations/DogService.cs:37 | A successful listing has \|store\| entries without paging, otherwise min(pageSize, max(0, \|store\| − pageSize·(pageNumber−1))). |
| ListingProperties.UnsortedPageIsSliceOfStore | testtask/Services/Implementations/DogService.cs:37-48 | Entry k of an unsorted page is the DTO of store record pageSize·(pageNumber−1)+k. |
| ExceptionMiddleware.HttpStatus.Code | testtask/Middlewares/ExceptionMiddleware.cs:57 | The status written is 400, 409 or 500, one value per status. |
| ExceptionMiddleware.StatusFor | testtask/Middlewares/ExceptionMiddleware.cs:36-49 | Bad Request exactly for the ArgumentException hierarchy (ArgumentOutOfRangeException, ArgumentNullException, …) and the ValidationException hierarchy. Conflict exactly for the DuplicateNameException hierarchy. Everything else is Internal Server Error. |
| ExceptionMiddleware.HandleException | testtask/Middlewares/ExceptionMiddleware.cs:32-61 | The response is application/json. Its status is the switch's code, one of 400/409/500. Its body's `error` is the exception's Message, which begins with the text the exception was created with. |
| ExceptionMiddleware.UnclassifiedIsServerError | testtask/Middlewares/ExceptionMiddleware.cs:46-48 | An exception outside the three hierarchies the switch names, DbUpdateException included, is a 500 that still carries its own message. |
| ExceptionMiddleware.SubclassesTakeTheirBaseStatus | testtask/Middlewares/ExceptionMiddleware.cs:38-48 | A class the switch does not name gets its base class's answer: an ArgumentException subclass is a 400 with the parameter suffix, a ValidationException subclass a 400, a DuplicateNameException subclass a 409, a DbUpdateException subclass a 500. |
| Responses.ListingErrorIsBadRequest | testtask/Middlewares/ExceptionMiddleware.cs:36-49 | Every exception the listing throws is answered with 400 and its message. |
| Responses.ListingErrorBodies | testtask/Middlewares/ExceptionMiddleware.cs:51-54 | The `error` texts of the five listing exceptions, with " (Parameter 'attribute')" and " (Parameter 'order')" appended where a parameter name was given. |
| Responses.ParameterSuffix | testtask/Services/Implementations/DogService.cs:26-30 | An ArgumentException created with a non-empty parameter name reports its text followed by " (Parameter 'name')". |
| Responses.DuplicateNameIsConflict | testtask/Middlewares/ExceptionMiddleware.cs:43-45 | A taken name is answered with 409 and "Name is already taken". |
| Responses.CreateAndRespond | testtask/Controllers/TesttaskController.cs:30-35 | POST /dog answers 409 for a taken name or a commit failure of the DbUpdateException hierarchy. It answers 201 for a free name that is committed. It answers 201 exactly when the store changed. |
| ServiceExamples.KnownAttributes | testtask.Tests/ServicesTests/DogServiceTests.cs:143-149 | "TailLength", "Weight" and "weight" select their properties. "Height" selects none. |
| ServiceExamples.SortedByTailLengthDescending | testtask.Tests/ServicesTests/DogServiceTests.cs:40-47 | TailLength descending over Charlie, Buddy, Rocky lists Charlie, Rocky, Buddy. |
| ServiceExamples.SortedByLowerCaseWeightAscending | testtask.Tests/ServicesTests/DogServiceTests.cs:58-65 | "weight" ascending lists Rocky, Charlie, Buddy. |
| ServiceExamples.UnsortedPages | testtask.Tests/ServicesTests/DogServiceTests.cs:76-97 | Page 2 of size 1 is Buddy. Page 2 of size 2 is Rocky. |
| ServiceExamples.SortedThenPaged | testtask.Tests/ServicesTests/DogServiceTests.cs:108-113 | Weight descending, page 2 of size 1, is Charlie. |
| ServiceExamples.RejectedRequests | testtask.Tests/ServicesTests/DogServiceTests.cs:127-214 | The six rejected requests of the tests fail with the expected exceptions. |
| ServiceExamples.WireNamesAsAttributes | testtask/DTOs/DogDto.cs:12 | The JSON key `tail_length` is not accepted as a sort attribute. The other three JSON keys are. |
| ServiceExamples.CreateDuplicateName | testtask.Tests/ServicesTests/DogServiceTests.cs:227-241 | Creating a second "Charlie" fails with "Name is already taken" and stores nothing. |
| ServiceExamples.CreateThenList | testtask/Data/AppDbContext.cs:16-19 | From the seed rows Neo and Jessy, a new name is accepted and listed third with its four fields. |
| ServiceExamples.CreateWithFailedCommit | testtask/Services/Implementations/DogService.cs:66-73 | A commit failing with DbUpdateConcurrencyException is reported as "Name is already taken"; one failing with an unrelated class passes through unchanged; nothing is stored either way. |

## Left out

- Services.GetDogs: computes the page offset `pageSize*(pageNumber-1)` in unbounded arithmetic, so where the source's 32-bit product wraps (for example page 32769 of size 65536) the model lists an empty page and the source lists the first records again; `ListingProperties.ListingLength`, `ListingIsPageOfOrderedStore` and `UnsortedPageIsSliceOfStore` inherit this. The as-written offset is `Paging.OffsetAsWritten`; see Findings.
- Entity Framework Core and asynchrony are not modelled: `IQueryable` translation, `ToListAsync`, `SaveChangesAsync` and `Task`. The table is a sequence of records. Whether a commit succeeds is a parameter, because it depends on the database.
- The race between two concurrent creations with the same name is not modelled. Creation is sequential, and a failed commit is an input.
- A failed commit also leaves the new record tracked by the database context, so it would be retried by a later commit on the same context. The model drops it.
- The Id the database assigns is modelled as a counter above every stored Id. The database's own identity sequence is not part of this model.
- The unsorted order is whatever the database returns. The model uses store order, which is what the tests assume.
- The order among records with equal sort keys is unspecified. No contract claims stability.
- Text is compared ordinally, by code point. This is the collation of the SQLite store that Program.cs configures. Culture-aware collation is not modelled.
- `char.ToUpper` is culture-sensitive in the source; the model handles only ASCII letters. `char.IsWhiteSpace` is modelled on the Latin-1 range only.
- A C# `null` attribute or order is modelled as the empty string. Both are treated alike by `string.IsNullOrEmpty`.
- Model binding is framework behaviour and is not modelled: `ValidationErrors` states its outcome, and `CreateDog` does not require a valid DTO. The `required` modifier's rejection of a missing JSON member is a deserialisation error and is not modelled either.
- JSON serialisation, character escaping in the body and `Response.WriteAsync` are not modelled. `InvokeAsync`'s logging is also left out.
- An exception that is not handled is answered with its own message, even for a 500. The model follows the code here, although a generic message for unclassified failures would be the safer design.
- Program.cs is not part of this model: dependency injection, the rate limiter, Swagger, HTTPS redirection and the JSON-parse error middleware.
- The controller's `Ping` constant is not modelled. The controller's parameter defaults are `""`, `""`, `null`, `null`, which the model's `""` and `None` stand for.
- IDogService.cs is not part of this model; it only declares the two operations.

## Findings

| source | as written | input that shows it | evidently intended | confidence | as-written member | corrected member |
|---|---|---|---|---|---|---|
| testtask/Services/Implementations/DogService.cs:37 | `pageSize * (pageNumber - 1)` is computed in unchecked 32-bit arithmetic, so a large product wraps around. A negative skip then skips nothing. | pageNumber = 32769, pageSize = 65536, over a store of 3 records: the offset wraps to −2^31 and the page repeats all 3 records. | A page whose start lies beyond the last record is empty. | medium, not executed | Paging.OffsetOverflow | Paging.PageBeyondEndIsEmpty |

The listing (`Services.GetDogs`) uses the exact offset, `Paging.Window`. The two offsets agree whenever the product fits in an Int32 (`Paging.WindowAsWrittenAgrees`).
