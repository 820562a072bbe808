# User management module: a Dafny model

This project models the user-management core of a small Spring MVC
application. The core has five parts:

- the `User` entity: a mutable record with a derived display name and two lifecycle hooks that stamp timestamps;
- the `UserDTO` form bean and its `@NotEmpty` rule on the two names;
- `UserServiceImpl`: create, delete, find, search and update of users;
- `AbstractController`: redirect view names and the two flash messages;
- `UserController`: the request handlers that pick a view, write model attributes or flash messages, and call the service.

The JPA repository is replaced by an in-memory table. `Service.UserService` holds a
`map<int, User>` of user objects plus the next free identifier. Its invariant
`Valid()` says that every stored user carries its own key as its id, and
that every key is below the next identifier. That is what keeps distinct rows
on distinct objects, so renaming one user in place leaves every other row as it
was. `Rows()` is the table seen as values (`UserRow`). The contracts of the
state-changing methods give the new `Rows()` in terms of the old one.

Things outside the program are parameters:

- The clock: `now: Instant`.
- The message source: an uninterpreted `(code, params, locale) -> string`.
- The current locale: a constant of the controller.

Java's `null` is `None`, and a string reference is `JString = Option<string>`.
`StringBuilder.append` writes a null reference as `"null"`. So `getName` of a
user without a first name is `"null Bar"`, and the model keeps that.

The handlers record every service call they make in the ghost sequence
`UserController.calls`. Their contracts therefore state which call was
made, exactly once, or that none was made. This is what the tests check with
their mocks. The `@Valid` binding result is the form's `Violations()`, evaluated
when the handler starts.

How the model reads three parts of the code:

- The three repository queries are not claimed to agree. The named query
  `User.findByName` and the `@Query` on `find` compare `LOWER(lastName)` with
  `LOWER(term)`. The derived `findByLastName` query is generated by the
  library from the method name, so the model takes it as plain equality.
  `Service.QueryCaseSensitivity` shows that "Bar" and "BAR" are told apart by
  the derived query and not by the other two.
- Timestamps are stamped by the entity's `@PrePersist` hook when the store
  saves the new user. The model calls `PrePersist` inside the store's save
  (`Persist`).
- `update` makes no save call. The new names reach the store when the
  transaction commits. The model applies the `@PreUpdate` stamp at that
  point, and only when the names actually changed (`Service.Flushed`).
- The repository's `findOne` rejects a null id with `IllegalArgumentException`.
  So `update` with a form whose id is null raises `IllegalArgument`, not
  `UserNotFound`. The edit handler catches only `UserNotFound`, so that
  failure escapes the handler.

## Model

| member | source | states |
|---|---|---|
| `Domain.User.constructor` | src/main/java/com/daou/book/domain/User.java:11-30 | a new user has a null id, null names, no timestamps and version 0 |
| `Domain.User.GetName` | src/main/java/com/daou/book/domain/User.java:52-61 | the display name is the first name, then one space at index \|first\|, then the last name, with null written as "null"; its length is the sum plus one |
| `Domain.DisplayNameSplits` | src/main/java/com/daou/book/domain/User.java:53-61 | splitting a display name at its first space gives back the first and last names when the first name holds no space |
| `Domain.DisplayNameInjective` | src/main/java/com/daou/book/domain/User.java:53-61 | two users whose first names hold no space have equal display names only if their first names and their last names render the same |
| `Domain.User.Update` | src/main/java/com/daou/book/domain/User.java:71-74 | the names become the given ones; id, both timestamps and version keep their values |
| `Domain.User.PreUpdate` | src/main/java/com/daou/book/domain/User.java:76-79 | only the modification time changes, to the clock reading; the creation time is never touched |
| `Domain.User.PrePersist` | src/main/java/com/daou/book/domain/User.java:81-86 | creation time and modification time both become the same clock reading; nothing else changes |
| `Domain.User.SetId` | src/main/java/com/daou/book/domain/User.java:107-109 | only the id changes |
| `Domain.Builder.constructor` | src/main/java/com/daou/book/domain/User.java:96-100 | the builder holds a fresh blank user carrying the two given names |
| `Domain.Builder.Build` | src/main/java/com/daou/book/domain/User.java:102-104 | returns the very user under construction |
| `Domain.NewUser` | src/main/java/com/daou/book/domain/User.java:36-38 | `getBuilder(f, l).build()` is a fresh user with names f and l, a null id, no timestamps and version 0 |
| `Domain.NamedQueryIgnoresCase` | src/main/java/com/daou/book/domain/User.java:9 | `User.findByName` selects a user exactly when the last name is non-null and equals the term after lower-casing; the term in capitals or in lower case selects the same users (ASCII letters) |
| `Domain.LowerOfUpper` | src/main/java/com/daou/book/domain/User.java:9 | lower-casing after upper-casing is lower-casing |
| `Domain.LowerIdempotent` | src/main/java/com/daou/book/domain/User.java:9 | lower-casing twice is lower-casing once |
| `Dto.NameViolations` | src/main/java/com/daou/book/dto/UserDTO.java:11-15 | "firstName" is reported exactly when the first name is null or empty, and "lastName" exactly when the last name is; no other field is ever reported |
| `Dto.ValidIffBothNamesPresent` | src/main/java/com/daou/book/dto/UserDTO.java:11-15 | there are no violations exactly when both names are non-null and non-empty |
| `Dto.OnlyFirstNameMissing` | src/main/java/com/daou/book/dto/UserDTO.java:11-12 | a missing first name alone gives exactly the violation "firstName" |
| `Dto.OnlyLastNameMissing` | src/main/java/com/daou/book/dto/UserDTO.java:14-15 | a missing last name alone gives exactly the violation "lastName" |
| `Dto.BothNamesMissing` | src/main/java/com/daou/book/dto/UserDTO.java:11-15 | both names missing give exactly two violations, one per field |
| `Dto.UserDTO.Violations` | src/main/java/com/daou/book/dto/UserDTO.java:9-15 | a form has no field errors exactly when both names are non-empty |
| `Dto.ViolationsIgnoreId` | src/main/java/com/daou/book/dto/UserDTO.java:9-15 | the id carries no constraint: forms with the same names have the same errors whatever their ids |
| `Dto.UserDTO.constructor` | src/main/java/com/daou/book/dto/UserDTO.java:17-19 | a new form has id, first name and last name all null |
| `Dto.UserDTO.SetId` | src/main/java/com/daou/book/dto/UserDTO.java:25-27 | the id becomes the given value; both names are unchanged |
| `Dto.UserDTO.SetFirstName` | src/main/java/com/daou/book/dto/UserDTO.java:33-35 | the first name becomes the given value; id and last name are unchanged |
| `Dto.UserDTO.SetLastName` | src/main/java/com/daou/book/dto/UserDTO.java:41-43 | the last name becomes the given value; id and first name are unchanged |
| `Service.Selects` | src/main/java/com/daou/book/repository/UserRepository.java:13-18 | the derived `findByLastName` selects a user exactly when its last name equals the term as a reference value, so a null term selects users whose last name is null. `findByName` (the named query at User.java:9) and `find` select exactly when both the last name and the term are non-null and equal after lower-casing; with SQL null rules, null matches nothing |
| `Service.QueryFor` | src/main/java/com/daou/book/service/UserServiceImpl.java:82-99 | METHOD_NAME selects `findByLastName`, NAMED_QUERY selects `findByName`, the remaining type selects `find`; each type selects exactly one query |
| `Service.NamedAndAnnotatedQueriesAgree` | src/main/java/com/daou/book/repository/UserRepository.java:13-16 | the named query and the `@Query` on `find` select the same users |
| `Service.QueryCaseSensitivity` | src/main/java/com/daou/book/repository/UserRepository.java:13-18 | "Bar" is found by "BAR" through `find` and by "bar" through `findByName`, but not by "BAR" through the derived `findByLastName` |
| `Service.FlushedKeepsIdentity` | src/main/java/com/daou/book/service/UserServiceImpl.java:113-115 | after an update has been flushed, the row has the new names and its old id, creation time and version; its modification time is either the old one or the clock reading; an update that changes nothing leaves the row as it was |
| `Service.UserService.Persist` | src/main/java/com/daou/book/service/UserServiceImpl.java:32-34 | saving a new user stores it under the next identifier, which was unused, sets its id to that identifier, stamps both times, and leaves every other row as it was |
| `Service.UserService.Create` | src/main/java/com/daou/book/service/UserServiceImpl.java:27-35 | exactly one new row is added: a fresh user with the form's names, a fresh id, both times set to now and version 0; that user is returned; all other rows are unchanged |
| `Service.UserService.Delete` | src/main/java/com/daou/book/service/UserServiceImpl.java:37-51 | for a stored id, removes exactly that row and returns its user; for a missing id, raises UserNotFound and the table stays as it was |
| `Service.UserService.FindAll` | src/main/java/com/daou/book/service/UserServiceImpl.java:53-58 | contains every stored user, and each user it contains is the one stored under its own id |
| `Service.UserService.FindById` | src/main/java/com/daou/book/service/UserServiceImpl.java:60-65 | gives the user stored under the id, whose own id is that id, or absent when there is none; it never raises |
| `Service.UserService.FindUsersBySearchType` | src/main/java/com/daou/book/service/UserServiceImpl.java:82-99 | a stored user is in the result exactly when the query chosen by the search type selects its last name; nothing else is in the result |
| `Service.UserService.Search` | src/main/java/com/daou/book/service/UserServiceImpl.java:67-80 | an unset search type raises IllegalArgument, and only then; otherwise the result is exactly the stored users that the chosen query selects |
| `Service.UserService.SearchIgnoresCase` | src/main/java/com/daou/book/repository/UserRepository.java:13-16 | a named-query search and an annotated-query search find the same users, and each finds the same users for a term written as typed, in capitals or in lower case (ASCII letters) |
| `Service.UserService.Update` | src/main/java/com/daou/book/service/UserServiceImpl.java:101-116 | for a stored id, that same user is renamed in place to the form's names and keeps its id; only its row changes; it is returned. A null id raises IllegalArgument, a missing id raises UserNotFound, and in both cases no row changes |
| `Controllers.CreateRedirectViewPath` | src/main/java/com/daou/book/controller/AbstractController.java:43-48 | the view name is "redirect:" followed by the path, and nothing else |
| `Controllers.RedirectTargetRoundTrip` | src/main/java/com/daou/book/controller/AbstractController.java:43-48 | reading back the target of a redirect view gives the path, and the only view whose target is a path is the redirect to that path |
| `Controllers.ViewNames` | src/main/java/com/daou/book/controller/UserController.java:39-44 | the redirect to the list is "redirect:/"; the create, edit, list and search-result views are not redirects |
| `Controllers.AddErrorMessage` | src/main/java/com/daou/book/controller/AbstractController.java:25-32 | the flash key "errorMessage" gets the message source's text for the code, the params and the locale; no other flash entry changes |
| `Controllers.AddFeedbackMessage` | src/main/java/com/daou/book/controller/AbstractController.java:34-41 | the flash key "feedbackMessage" gets the message source's text for the code, the params and the locale; no other flash entry changes |
| `Controllers.UserController.Delete` | src/main/java/com/daou/book/controller/UserController.java:56-69 | makes exactly one delete call and always answers "redirect:/". A stored user is removed and reported under `feedback.message.user.deleted` with its display name. A missing one is reported under `error.message.deleted.not.found` and the table is unchanged |
| `Controllers.UserController.Search` | src/main/java/com/daou/book/controller/UserController.java:71-81 | makes exactly one search call. With a search type, answers "user/searchResults" and puts the matching users under "users". Without one, the IllegalArgument failure propagates and the model is untouched |
| `Controllers.UserController.ShowCreateUserForm` | src/main/java/com/daou/book/controller/UserController.java:89-96 | answers "user/create" with a fresh form whose fields are all null under "user", and makes no service call |
| `Controllers.UserController.SubmitCreateUserForm` | src/main/java/com/daou/book/controller/UserController.java:106-119 | a form with field errors gets "user/create" back, with no service call and no change to the table or the flash map. A valid form causes exactly one create call, adds the new row, reports `feedback.message.user.created` with the display name, and answers "redirect:/" |
| `Controllers.UserController.ShowEditUserForm` | src/main/java/com/daou/book/controller/UserController.java:129-143 | makes exactly one findById call. A missing user is reported under `error.message.edited.not.found` and the answer is "redirect:/". Otherwise the answer is "user/edit", with a fresh form under "user" holding the user's id and names |
| `Controllers.UserController.SubmitEditUserForm` | src/main/java/com/daou/book/controller/UserController.java:153-171 | a form with field errors gets "user/edit" back, with no service call and nothing changed. Otherwise there is exactly one update call. A stored user is renamed, reported under `feedback.message.user.edited` with its new display name, and the answer is "redirect:/". A missing one is reported under `error.message.edited.not.found`, the table is unchanged, and the answer is "redirect:/". A null id makes the IllegalArgument failure escape, with the table and the flash map unchanged |
| `Controllers.UserController.ConstructFormObject` | src/main/java/com/daou/book/controller/UserController.java:173-181 | returns a fresh form holding the user's id, first name and last name |
| `Controllers.UserController.ShowList` | src/main/java/com/daou/book/controller/UserController.java:188-197 | makes exactly one findAll call and answers "user/list". It puts all stored users under "users" and search criteria with a null term and a null type under "searchCriteria" |

## Left out

- Persistence: the JPA repository, `JpaRepository` and the database are replaced by the in-memory table. Fresh ids come from a counter that starts at 1.
- The derived query `findByLastName` is taken as plain equality of the two references. Its generated text is not part of this model.
- SQL `LOWER` is modelled on ASCII letters only. The database's full Unicode case mapping is not modelled.
- Service.UserService.Create: null names are stored as given. The `nullable = false` column constraints would make the database refuse them at flush; database constraints are not modelled.
- Service.UserService.FindAll: returns the stored users as a set. The list order the database happens to return is not modelled.
- Service.UserService.FindUsersBySearchType: returns a set, for the same reason as `FindAll`.
- `@Version` optimistic locking is not modelled. The version starts at 0 and is never incremented here, because only the persistence layer maintains it and no code reads it.
- `@Transactional`: its only effect modelled is that a `UserNotFound` failure leaves the table unchanged. Concurrent requests, isolation and rollback of infrastructure failures are not modelled.
- The exact time at which the ORM flushes is not modelled. Its effect on a renamed user is applied when `Update` returns.
- `MessageSource` and `LocaleContextHolder` are not modelled. The message source is an uninterpreted function and the locale is a fixed value per controller.
- `new Date()` is not modelled: the clock reading is a parameter.
- Request mapping, HTTP, `@SessionAttributes` and data binding are not modelled. Binding errors other than the `@NotEmpty` violations, such as a non-numeric id, are not modelled either.
- Getters of `User` and `UserDTO` are direct field reads in the model.
- Logging, `toString` and the `users.size()` in the search handler's log line are not modelled.
- `UserService.java` is the interface of `UserServiceImpl`. It has no behaviour of its own, and the class stands in for it.
- `SearchDTO.java` and `SearchType.java` are not part of this model. Their fields and enum constants, as the tests use them, are modelled as the `SearchCriteria` and `SearchType` values.
