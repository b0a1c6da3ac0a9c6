# traini8 registry — verified model

A Dafny model of the core of the traini8 training-center registry, a Spring REST service that
accepts training centers, stores them, and lists or filters them. The model covers four parts:

- **Request validation** (`patterns.dfy`, `constraints.dfy`, `address_request.dfy`, `center_request.dfy`).
  Every Bean Validation annotation on the two create-request records is an explicit predicate:
  - `@NotBlank` rejects null and strings whose every character is at most U+0020, as `String.trim` does.
  - `@Pattern` must match the whole value. `\s` is the six characters space and `\t`..`\r`.
  - `@Length(max)`, `@Min` and `@NotNull` are stated directly. `@Email` is a parameter.
  - Pattern, Length, Min and Email accept null.
  - The Indian-mobile phone regular expression is a hand-written matcher. It is proved to accept
    exactly the language of the expression.
  - `Violations` collects every failed constraint of every field as (field, message) pairs.
    Address fields are reported under `address.<field>`, and only when an address is present.
- **Mapping** (`service.dfy`). Conversion from request to entity and from entity to response is
  proved to round-trip every request field.
- **Service flows over a store** (`entity.dfy`, `repository.dfy`, `service.dfy`).
  - The entity is a class with a pre-persist callback.
  - The store is a class holding rows and an identity counter. It persists entities in place.
  - Save, save-batch, find-all and filter are proved to be one-to-one, order-preserving maps over
    what the store returns.
- **Error answers** (`http.dfy`, `exception_handler.dfy`, `controller.dfy`).
  - Field errors are grouped into a map from field to messages, built in place by a loop. The map is
    proved to keep every message exactly once, in order, with no empty list.
  - Each exception kind maps to a fixed status and body.
  - The controller refuses an empty batch.

The entity always embeds an address, but `TrainingCenterRequestDTO.address` is `@Valid` without
`@NotNull`. A request without an address therefore passes validation. The conversion then
dereferences the missing address, and the request ends in the general handler's 500. The same
happens to a null element of a batch, which `@Valid` skips and the conversion dereferences. The
model states this path (`CenterRequestRules.AddressCascade`,
`Service.TrainingCenterService.SaveTrainingCenter`, `Controller.MissingAddressAnswer`).

## Model

| member | source | states |
|---|---|---|
| Patterns.LeadingSpaces | src/main/java/com/traini8/registry/dto/request/TrainingCenterRequestDTO.java:45 | the `\s*` run at the start of a value is all spaces, and the character after it is not one |
| Patterns.SeparatorIff | src/main/java/com/traini8/registry/dto/request/TrainingCenterRequestDTO.java:45 | the matcher's separator test accepts exactly the empty string or `\s*-\s*` |
| Patterns.CountryGroupIff | src/main/java/com/traini8/registry/dto/request/TrainingCenterRequestDTO.java:45 | `(?:\+\|0{0,2})91` is exactly "+91", "91", "091" or "0091" |
| Patterns.PrefixIff | src/main/java/com/traini8/registry/dto/request/TrainingCenterRequestDTO.java:45 | the matcher's prefix test accepts exactly the optional group before `[789]` |
| Patterns.MatchesPhoneCorrect | src/main/java/com/traini8/registry/dto/request/TrainingCenterRequestDTO.java:45 | the hand-written phone matcher accepts a value iff it is in the language of the phone pattern |
| Patterns.PhoneFromParts | src/main/java/com/traini8/registry/dto/request/TrainingCenterRequestDTO.java:45 | any allowed prefix followed by a ten-digit number starting with 7, 8 or 9 matches |
| Patterns.DocumentedPhoneExamplesMatch | src/main/java/com/traini8/registry/dto/request/TrainingCenterRequestDTO.java:46-47 | all seven documented phone examples match |
| Patterns.RejectedPhoneExamples | src/main/java/com/traini8/registry/dto/request/TrainingCenterRequestDTO.java:45 | "6883443344" (first digit 6) and "+91 9883443344" (a separator with no hyphen) do not match |
| Constraints.FailedMessages | src/main/java/com/traini8/registry/dto/request/TrainingCenterRequestDTO.java:21-48 | a field's failed messages are no more than its constraints, and are empty iff every constraint holds |
| Constraints.FailedMessagesComplete | src/main/java/com/traini8/registry/dto/request/TrainingCenterRequestDTO.java:21-48 | every failed constraint's message is reported, and every reported message is that of a failed constraint |
| Constraints.MessagesForMember | src/main/java/com/traini8/registry/dto/request/TrainingCenterRequestDTO.java:21-51 | a message is listed for a field iff that (field, message) violation was collected |
| Constraints.MessagesForReport | src/main/java/com/traini8/registry/dto/request/TrainingCenterRequestDTO.java:21-51 | with distinct field names, each field's messages are exactly those of its own constraints |
| AddressRequestRules.AddressSectionsDistinct | src/main/java/com/traini8/registry/dto/request/AddressRequestDTO.java:17-33 | the four address fields report under four distinct names |
| AddressRequestRules.DetailedAddressMessages | src/main/java/com/traini8/registry/dto/request/AddressRequestDTO.java:17-19 | detailedAddress reports exactly the failed messages of its own constraint |
| AddressRequestRules.CityMessages | src/main/java/com/traini8/registry/dto/request/AddressRequestDTO.java:21-24 | city reports exactly the failed messages of its two constraints |
| AddressRequestRules.StateMessages | src/main/java/com/traini8/registry/dto/request/AddressRequestDTO.java:26-29 | state reports exactly the failed messages of its two constraints |
| AddressRequestRules.PincodeMessages | src/main/java/com/traini8/registry/dto/request/AddressRequestDTO.java:31-33 | pincode reports exactly the failed messages of its one constraint |
| AddressRequestRules.AddressViolationsEmptyIff | src/main/java/com/traini8/registry/dto/request/AddressRequestDTO.java:17-33 | an address yields no violation iff every field is acceptable |
| AddressRequestRules.DetailedAddressRule | src/main/java/com/traini8/registry/dto/request/AddressRequestDTO.java:17-19 | a blank (null, empty or whitespace-only) detailedAddress is reported as "Detailed address is mandatory", and a non-blank one is reported as nothing |
| AddressRequestRules.CityRule | src/main/java/com/traini8/registry/dto/request/AddressRequestDTO.java:21-24 | city passes iff it is non-blank letters and `\s`; "mandatory" is reported iff it is blank; "letters and spaces" is reported iff it is present and does not match |
| AddressRequestRules.StateRule | src/main/java/com/traini8/registry/dto/request/AddressRequestDTO.java:26-29 | state obeys the same two rules as city, with its own messages |
| AddressRequestRules.CityExamples | src/main/java/com/traini8/registry/dto/request/AddressRequestDTO.java:21-23 | "New York" passes; "New York 2" is reported only as not letters and spaces |
| AddressRequestRules.CityWithDigitRejected | src/main/java/com/traini8/registry/dto/request/AddressRequestDTO.java:22 | a digit anywhere in a present city draws "City must contain only letters and spaces" |
| AddressRequestRules.WhitespaceOnlyPlaceNames | src/main/java/com/traini8/registry/dto/request/AddressRequestDTO.java:21-27 | a whitespace-only city or state draws only "mandatory"; the empty string draws both messages |
| AddressRequestRules.PincodeRule | src/main/java/com/traini8/registry/dto/request/AddressRequestDTO.java:31-33 | pincode passes iff it is non-blank; "10001" passes |
| CenterRequestRules.RequestSectionsDistinct | src/main/java/com/traini8/registry/dto/request/TrainingCenterRequestDTO.java:21-51 | the request's fields and its address fields report under distinct names |
| CenterRequestRules.CenterCodeNotBlank | src/main/java/com/traini8/registry/dto/request/TrainingCenterRequestDTO.java:26-27 | a value matching the centre-code pattern is never blank |
| CenterRequestRules.PhoneNotBlank | src/main/java/com/traini8/registry/dto/request/TrainingCenterRequestDTO.java:44-45 | a value matching the phone pattern is never blank |
| CenterRequestRules.CenterNameMessages | src/main/java/com/traini8/registry/dto/request/TrainingCenterRequestDTO.java:21-24 | centerName: "mandatory" when blank; "less than 40 characters" when present and longer than 40 |
| CenterRequestRules.CenterCodeMessages | src/main/java/com/traini8/registry/dto/request/TrainingCenterRequestDTO.java:26-29 | centerCode: "mandatory" when blank; the shape message when present and not 12 ASCII letters or digits |
| CenterRequestRules.StudentCapacityMessages | src/main/java/com/traini8/registry/dto/request/TrainingCenterRequestDTO.java:31-34 | null draws only "cannot be null"; a value below 1 draws only "at least 1"; 1 and above pass |
| CenterRequestRules.ContactEmailMessages | src/main/java/com/traini8/registry/dto/request/TrainingCenterRequestDTO.java:40-42 | contactEmail draws "Invalid email format" only when present and rejected by the email syntax |
| CenterRequestRules.ContactPhoneMessages | src/main/java/com/traini8/registry/dto/request/TrainingCenterRequestDTO.java:44-48 | contactPhone: "mandatory" when blank; "Invalid phone number format" when present and not matching |
| CenterRequestRules.ViolationsSplit | src/main/java/com/traini8/registry/dto/request/TrainingCenterRequestDTO.java:50-51 | the violations are the request's own, followed by the address's only when an address is present |
| CenterRequestRules.CenterSectionsEmptyIff | src/main/java/com/traini8/registry/dto/request/TrainingCenterRequestDTO.java:21-48 | the request's own fields yield no violation iff each of them is acceptable |
| CenterRequestRules.CenterNameAccepted | src/main/java/com/traini8/registry/dto/request/TrainingCenterRequestDTO.java:21-22 | centerName draws no message iff it is non-blank and at most 40 characters |
| CenterRequestRules.CenterCodeAccepted | src/main/java/com/traini8/registry/dto/request/TrainingCenterRequestDTO.java:26-27 | centerCode draws no message iff it is present and 12 ASCII letters or digits |
| CenterRequestRules.StudentCapacityAccepted | src/main/java/com/traini8/registry/dto/request/TrainingCenterRequestDTO.java:31-32 | studentCapacity draws no message iff it is present and at least 1 |
| CenterRequestRules.ContactPhoneAccepted | src/main/java/com/traini8/registry/dto/request/TrainingCenterRequestDTO.java:44-45 | contactPhone draws no message iff it is present and matches the phone pattern |
| CenterRequestRules.ViolationsEmptyIffValid | src/main/java/com/traini8/registry/dto/request/TrainingCenterRequestDTO.java:21-51 | no violation is collected iff the request and any address it has are acceptable |
| CenterRequestRules.CenterNameOfFortyAccepted | src/main/java/com/traini8/registry/dto/request/TrainingCenterRequestDTO.java:21-22 | a non-blank name passes iff it has at most 40 characters (so exactly 40 passes); 41 draws only the length message |
| CenterRequestRules.CenterCodeExamples | src/main/java/com/traini8/registry/dto/request/TrainingCenterRequestDTO.java:26-28 | "ABC123456789" passes; 11 or 13 characters, or a character that is not an ASCII letter or digit, draws the shape message |
| CenterRequestRules.CoursesOfferedUnconstrained | src/main/java/com/traini8/registry/dto/request/TrainingCenterRequestDTO.java:36-38 | nothing is ever reported for coursesOffered, whether it is null, empty or anything else |
| CenterRequestRules.NullEmailAccepted | src/main/java/com/traini8/registry/dto/request/TrainingCenterRequestDTO.java:40-42 | a null contactEmail draws no violation |
| CenterRequestRules.ContactPhoneRule | src/main/java/com/traini8/registry/dto/request/TrainingCenterRequestDTO.java:44-45 | the phone passes iff it is present and matches the Indian-mobile pattern |
| CenterRequestRules.AddressCascade | src/main/java/com/traini8/registry/dto/request/TrainingCenterRequestDTO.java:50-51 | with no address, nothing is reported under `address.*`; with one, each address field reports exactly its own messages |
| CenterRequestRules.CollectsEveryViolation | src/main/java/com/traini8/registry/dto/request/TrainingCenterRequestDTO.java:21-34 | violations of several fields are all collected: collection does not stop at the first |
| Entity.TrainingCenter.constructor | src/main/java/com/traini8/registry/entity/TrainingCenter.java:9-35 | the built entity holds exactly the given field values |
| Entity.TrainingCenter.PrePersist | src/main/java/com/traini8/registry/entity/TrainingCenter.java:37-40 | createdOn becomes the given instant, replacing any earlier value, and no other field changes |
| Entity.TrainingCenter.SetId | src/main/java/com/traini8/registry/entity/TrainingCenter.java:18-20 | the store's write of the generated identity changes only id |
| Repository.TrainingCenterRepository.Save | src/main/java/com/traini8/registry/entity/TrainingCenter.java:18-40 | persisting runs the pre-persist callback and gives the next identity, which no stored row already has; the same entity is returned and its state is appended to the rows |
| Repository.TrainingCenterRepository.SaveAll | src/main/java/com/traini8/registry/service/TrainingCenterService.java:40 | distinct new entities are persisted in order with consecutive identities; the rows grow by exactly their states; the store's invariant holds |
| Service.ConvertToEntity | src/main/java/com/traini8/registry/service/TrainingCenterService.java:87-107 | the entity has no id and no createdOn, and its response carries back every field of the request, including the four address fields |
| Service.ConvertToResponseDto | src/main/java/com/traini8/registry/service/TrainingCenterService.java:110-132 | the response describes every entity field, id, createdOn and each address field included |
| Service.RoundTrip | src/main/java/com/traini8/registry/service/TrainingCenterService.java:87-132 | the response of a persisted request equals the request on every field (courses in the same order) and carries the stored id and time |
| Service.EntityCopiesFieldByField | src/main/java/com/traini8/registry/service/TrainingCenterService.java:87-107 | each entity field, and each of the four address fields, holds the value of its namesake in the request |
| Service.ResponseCopiesFieldByField | src/main/java/com/traini8/registry/service/TrainingCenterService.java:110-132 | each response field, id, createdOn and the four address fields included, holds the value of its namesake in the entity |
| Service.ConvertToEntityInjective | src/main/java/com/traini8/registry/service/TrainingCenterService.java:87-107 | two different requests never become the same entity |
| Service.MapToResponses | src/main/java/com/traini8/registry/service/TrainingCenterService.java:43-45 | one response per entity, in the same order, each describing its entity |
| Service.NewEntities | src/main/java/com/traini8/registry/service/TrainingCenterService.java:36-38 | the conversion stream yields one fresh, distinct entity per request, in order, each the request's conversion; it fails iff some element is null or has no address |
| Service.PersistedBatch | src/main/java/com/traini8/registry/service/TrainingCenterService.java:33-46 | a persisted batch has one row per request, in order, with consecutive ids, the i-th creation time, and the request's fields |
| Service.TrainingCenterService.SaveTrainingCenter | src/main/java/com/traini8/registry/service/TrainingCenterService.java:50-58 | the answer describes the entity the store returned (stored id and time), whose row is appended; with no address it fails with the store untouched |
| Service.TrainingCenterService.SaveAllTrainingCenters | src/main/java/com/traini8/registry/service/TrainingCenterService.java:33-46 | one response per saved entity, in the store's order, as many as the requests; a null element or a missing address anywhere fails the batch before the store is touched |
| Service.TrainingCenterService.GetAllTrainingCenters | src/main/java/com/traini8/registry/service/TrainingCenterService.java:62-71 | one response per stored row, same count and order |
| Service.TrainingCenterService.FilterTrainingCenters | src/main/java/com/traini8/registry/service/TrainingCenterService.java:75-84 | course, city and state reach the store's query unchanged (nulls included); one response per returned row, in order |
| ExceptionHandler.Grouped | src/main/java/com/traini8/registry/exception/GlobalExceptionHandler.java:30-35 | the grouped map has a key for exactly the field names some error reports |
| ExceptionHandler.GroupByField | src/main/java/com/traini8/registry/exception/GlobalExceptionHandler.java:30-35 | the in-place `computeIfAbsent(...).add` loop builds exactly the grouped map |
| ExceptionHandler.GroupedMessages | src/main/java/com/traini8/registry/exception/GlobalExceptionHandler.java:34 | under each field are exactly that field's messages, in reporting order; a key exists iff some error named it, so no list is empty |
| ExceptionHandler.GroupedTotal | src/main/java/com/traini8/registry/exception/GlobalExceptionHandler.java:30-35 | the lists of the map together hold exactly as many messages as there were errors |
| ExceptionHandler.HandleValidationExceptions | src/main/java/com/traini8/registry/exception/GlobalExceptionHandler.java:27-37 | the answer is 400 with the field errors grouped by field name |
| ExceptionHandler.HandleConstraintViolationException | src/main/java/com/traini8/registry/exception/GlobalExceptionHandler.java:40-50 | the answer is 400 with the violations grouped by property path |
| ExceptionHandler.StatusOfHandled | src/main/java/com/traini8/registry/exception/GlobalExceptionHandler.java:27-72 | the status is 400 iff the exception is one of the four anticipated kinds, and 500 iff it is any other |
| ExceptionHandler.ValidationBody | src/main/java/com/traini8/registry/exception/GlobalExceptionHandler.java:27-50 | both validation handlers answer with each field's reported messages, in order, under its name |
| ExceptionHandler.TextBodies | src/main/java/com/traini8/registry/exception/GlobalExceptionHandler.java:53-65 | an empty body echoes the exception's own message; an unreadable body gets the fixed text whatever the detail |
| ExceptionHandler.UnhandledRevealsNothing | src/main/java/com/traini8/registry/exception/GlobalExceptionHandler.java:68-72 | every other exception answers the same fixed text, independent of its detail |
| Controller.TrainingCenterController.CreateTrainingCenters | src/main/java/com/traini8/registry/controller/TrainingCenterController.java:33-45 | an empty batch raises the empty-body error with its fixed message and leaves the store untouched; otherwise the service's list is answered unchanged with 201 |
| Controller.TrainingCenterController.CreateTrainingCenter | src/main/java/com/traini8/registry/controller/TrainingCenterController.java:50-58 | the service's result is answered with 201 |
| Controller.TrainingCenterController.GetAllTrainingCenters | src/main/java/com/traini8/registry/controller/TrainingCenterController.java:63-69 | the service's list of all centers is answered with 200 |
| Controller.TrainingCenterController.FilterTrainingCenters | src/main/java/com/traini8/registry/controller/TrainingCenterController.java:74-84 | the three optional parameters are forwarded unchanged, and the answer has 200 |
| Controller.EmptyBatchAnswer | src/main/java/com/traini8/registry/controller/TrainingCenterController.java:36-38 | an empty batch ends as 400 with "Request body is required and cannot be empty for batch saving." |
| Controller.MissingAddressAnswer | src/main/java/com/traini8/registry/service/TrainingCenterService.java:89-91 | dereferencing a missing address ends as 500 with the generic text |

## Left out

- Spring wiring is not modelled: the application entry point, dependency injection, HTTP routing, snake_case JSON naming, OpenAPI annotations and logging.
- The endpoints start after the body has been read and validated. Which validation exception Spring raises (and the property paths it gives list elements) is the framework's choice; the handler's grouping is modelled for both kinds.
- Hibernate Validator reports a field's violations in no specified order. The model lists them in declaration order. The handlers take errors in the order they are given; for `ConstraintViolationException` that is the iteration order of a set.
- `@Email` syntax belongs to the validator implementation. It is the parameter `isEmail`, applied only to present values.
- `@Length` counts UTF-16 code units; the model counts characters.
- Integers are unbounded: the 32-bit range of `studentCapacity` and the 64-bit range of `id` are enforced by JSON parsing and the database, outside this model.
- The repository interface is not part of this model. The store is a class holding rows and an identity counter. Its filter query is a parameter forwarded unchanged; the model fixes no matching rule.
- Store failures, transactions and rollback of a failing batch are not modelled.
- Repository.TrainingCenterRepository.Save: only persists new entities (no id); the merge path for entities that already have an id is never reached from the service.
- The clock `Instant.now()` is a parameter: one instant per persisted entity.
- Reading back an embedded address whose columns are all null yields a null address in JPA, which the response conversion would dereference. The model's rows always hold an address value.
- The failed conversion of a request without an address is a failure result. The entities built before it are not observable.
- Only the contactPhone pattern of TrainingCenterRequestDTO is modelled.
