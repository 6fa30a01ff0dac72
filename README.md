# Customers API core, modelled in Dafny

This project models the core of a small customers CRUD web API (ASP.NET minimal API). A
*customer* is a company account with an id, a company name, an email address and an ordered
list of *projects*. A project has an id, a name and the id of a customer.

What is modelled:

- **The in-memory store** (`CustomerData`). It keeps an ordered list of customers, seeded with
  two fixtures, Fender and Gibson. Lookup, update and delete act on the first entry whose id
  matches. Update and delete do nothing when no entry matches. Add appends without any duplicate
  check. The repository holds three copies of this class with the same logic:
  `Customers/CustomerData.cs:4-68`, `Customers/CustomerEndpoints.cs:89-157` and
  `Program.cs:103-167`. Module `Store` models them once. Its class `CustomerData` changes a
  `seq<Customer>` field in place. Its methods scan the list with loops. Each method is proved
  against a specification function (`FirstIndexOf`, `Lookup`, `Replaced`, `Removed`).
- **The endpoint handlers** (modules `Endpoints` and `ProgramEndpoints`). They cover list, get,
  create, update and delete, with HTTP answers given as the datatype `Http.HttpResult`. The
  list, get, update and delete bodies are the same in `Program.cs` and
  `Customers/CustomerEndpoints.cs`, so they are modelled once, in `Endpoints`. The two create
  handlers differ:
  - the later one (`Endpoints.AddCustomer`) fixes the email and sends a welcome email;
  - the earlier one (`ProgramEndpoints.AddCustomer`) keeps the body's other fields.

  `Program.cs` puts the `ValidateCustomer` filter in front of create and update. It puts
  `WithParameterValidation` in front of delete. These pipelines are
  `ProgramEndpoints.AddCustomerFiltered`, `ProgramEndpoints.UpdateCustomerFiltered` and
  `Endpoints.DeleteCustomerValidated`.
- **The validators** (module `Filters`, and `Endpoints.Validate`).
  - `ValidateCustomer` checks the first argument that is a `Customer`.
  - `ValidationHelpers.ValidateAddCustomer` checks argument 0 only.
  - `DeleteRequest.Validate` rejects the empty Guid.
  - `DeleteRequest.Validate` appears twice, at `Program.cs:233-239` and
    `Customers/CustomerEndpoints.cs:169-175`, and is modelled once.
- **The welcome notifier** (module `Notifier`).
  - `EmailMessageFactory.GenerateWelcomeMessage` fills `{{CompanyName}}` into a fixed template
    in one left-to-right pass, as `String.Replace` does.
  - `CustomerEmailService.SendWelcomeEmail` renders the message, writes a log line and calls the
    sender once. As written, the log line's format makes `Console.WriteLine` throw before the
    sender is called (see "## Findings"). Module `CompositeFormat` models the format check
    involved.
- **Guid text** (module `Guids`). A Guid is the number that its 32 hex digits spell in text
  order. `Format` is `Guid.ToString()` (the lower-case `D` form). `Parse` is `Guid.Parse` on
  that form. The Location header of a created customer is `/customers/` followed by `Format`
  of its id.

Modelling choices:

- **One customer record.** The repository has three shapes of `Customer`:
  - `Program.cs:97` has id, name and projects;
  - `Customers/CustomerEndpoints.cs:83` adds `Email`;
  - `Customers/Customer.cs:4` adds `EmailAddress`.

  The model uses one `Customer(id, companyName, email, projects)`.
- **Nullable text.** C# strings may be null, and both filters test "null or empty". So the
  company name, email and project name are `Option<string>`. A null replacement in
  `String.Replace` deletes the pattern, so a null company name renders as "".
- **Fresh ids are parameters.** `Guid.NewGuid()` is replaced by the parameter `newId`.
  The fixture projects' ids are constructor parameters.
- **Update's signature.** The store's `Update` takes the `(id, customer)` signature of
  `ICustomerData`. It matches on `customer`'s own id and never reads `id`. The two other store
  copies have no `id` parameter. The update handlers pass the edited record's id.
- **Filters as functions.** A filter's `next` stage is a function parameter. "Returns next's
  result" is stated as `r == next(args)`. A filter's arguments are `CustomerValue(c)`,
  `NullValue` or `OtherValue`, as seen through `object`.
- **Exceptions.** `GetArgument<Customer>(0)` throws for an empty argument list and for a
  non-Customer value at position 0. The model returns `Unhandled(fault)` for these.
- **The email service.** The factory is a function value `Customer -> string`. The sender
  (`EmailSender`) records each call in a ghost log `sent`. The later create handler builds
  `new CustomerEmailService(GenerateWelcomeMessage, sender)` for each request. The source calls
  a parameterless constructor at `Customers/CustomerEndpoints.cs:45`, but the only constructor
  is the two-argument one at `Customers/CustomerEmailService.cs:14`.
- **Name checks.** `[MinLength(5)]` (`Program.cs:97`, `Customers/CustomerEndpoints.cs:83`) is
  not enforced on create or update. The filter checks only null-or-empty, so a one-character or
  blank name passes. The filter's problem key is "Company Name", with the message "CompanyName
  cannot be empty".

## Model

| member | source | states |
|---|---|---|
| Guids.Format | NimblePros.Customers.Web/Customers/CustomerEndpoints.cs:48 | Guid.ToString() gives 36 characters with hyphens at 8, 13, 18 and 23 and lower-case hex digits elsewhere |
| Guids.Parse | NimblePros.Customers.Web/Customers/CustomerData.cs:7-8 | Guid.Parse succeeds on the D form (any case); other forms are not modelled |
| Guids.ParseFormat | NimblePros.Customers.Web/Customers/CustomerData.cs:7-8 | parsing the text of a Guid gives back that Guid |
| Guids.FormatParse | NimblePros.Customers.Web/Customers/CustomerData.cs:7-8 | a lower-case D-form text parses, and formatting the result gives back the text |
| Guids.FormatInjective | NimblePros.Customers.Web/Customers/CustomerEndpoints.cs:48 | two Guids have the same text exactly when they are equal, so a location names one customer |
| Entities.Unassigned | NimblePros.Customers.Web/Customers/Customer.cs:9-22 | the parameterless constructor leaves Projects as the empty list from its initializer, the id empty, and the company name and the email null |
| Store.Seed | NimblePros.Customers.Web/Customers/CustomerData.cs:15-28 | the fixture list has two customers, Fender's id then Gibson's (distinct), each with email test@test.com and two projects |
| Store.FirstIndexOf | NimblePros.Customers.Web/Customers/CustomerData.cs:52 | FindIndex gives the lowest position whose id matches, or -1 exactly when no entry matches |
| Store.Lookup | NimblePros.Customers.Web/Customers/CustomerData.cs:36-39 | FirstOrDefault finds a customer exactly when some entry has the id, and what it finds has the id and is in the list |
| Store.Replaced | NimblePros.Customers.Web/Customers/CustomerData.cs:50-53 | the list after the indexed assignment keeps its length and every entry with another id, and holds the new customer exactly when its id was present |
| Store.Removed | NimblePros.Customers.Web/Customers/CustomerData.cs:61-63 | RemoveAt(FindIndex(...)) shortens the list by one exactly when the id is present, changes nothing otherwise, and every survivor is the entry at its old position or the next one |
| Store.SeedFixtures | NimblePros.Customers.Web/Customers/CustomerData.cs:7-28 | a fresh store holds exactly Fender then Gibson, under distinct fixed ids, each with email test@test.com and two projects, and each id finds its own fixture |
| Store.SeedOwnershipMismatch | NimblePros.Customers.Web/Customers/CustomerData.cs:17-27 | the fixtures do not satisfy "project.CustomerId is its owner's id": Telecaster under Fender carries Gibson's id, LesPaul under Gibson carries Fender's |
| Store.LookupAfterAdd | NimblePros.Customers.Web/Customers/CustomerData.cs:41-45 | after Add there is no duplicate check: a lookup finds what it found before, and finds the added customer only if its id was absent |
| Store.AddThenDelete | NimblePros.Customers.Web/Customers/CustomerData.cs:41-67 | deleting the id of a customer just added under a fresh id gives back the earlier list |
| Store.LookupAfterUpdate | NimblePros.Customers.Web/Customers/CustomerData.cs:47-57 | after Update(c), looking up c's id gives c if the id was present and nothing otherwise |
| Store.UpdateTouchesFirstOnly | NimblePros.Customers.Web/Customers/CustomerData.cs:50-53 | Update keeps the length and changes only the first entry with the id; later duplicates and all other entries stay |
| Store.UpdateUndo | NimblePros.Customers.Web/Customers/CustomerData.cs:47-57 | updating back with the previous record restores the list |
| Store.UpdateIdempotent | NimblePros.Customers.Web/Customers/CustomerData.cs:47-57 | updating twice with the same record is the same as updating once |
| Store.DeleteRemovesFirst | NimblePros.Customers.Web/Customers/CustomerData.cs:59-67 | DeleteById removes exactly the first entry with the id, so the length drops by one and the others keep their order; with no match the list is unchanged |
| Store.CountAfterDelete | NimblePros.Customers.Web/Customers/CustomerData.cs:59-67 | DeleteById removes one entry with the id, or none if absent, and no entry with any other id |
| Store.LookupAfterDelete | NimblePros.Customers.Web/Customers/CustomerData.cs:59-67 | after a delete, the id is still found exactly when it had at least two entries |
| Store.CustomerData.constructor | NimblePros.Customers.Web/Customers/CustomerData.cs:11-29 | a new store holds the two fixtures in order |
| Store.CustomerData.List | NimblePros.Customers.Web/Customers/CustomerData.cs:31-34 | List returns the stored customers in insertion order |
| Store.CustomerData.Any | NimblePros.Customers.Web/Customers/CustomerData.cs:50 | the Any scan is true exactly when some entry has the id |
| Store.CustomerData.FindIndex | NimblePros.Customers.Web/Customers/CustomerData.cs:52 | the FindIndex scan returns the first matching position, or -1 |
| Store.CustomerData.GetById | NimblePros.Customers.Web/Customers/CustomerData.cs:36-39 | GetById returns the first customer with the id, or none |
| Store.CustomerData.Add | NimblePros.Customers.Web/Customers/CustomerData.cs:41-45 | Add appends at the end and leaves every earlier entry in place |
| Store.CustomerData.Update | NimblePros.Customers.Web/Customers/CustomerData.cs:47-57 | Update ignores its id parameter and replaces the first entry with customer's own id; with no match the list is unchanged and no error is signalled |
| Store.CustomerData.DeleteById | NimblePros.Customers.Web/Customers/CustomerData.cs:59-67 | DeleteById removes the first entry with the id and is a no-op otherwise |
| Notifier.Replace | NimblePros.Customers.Web/Customers/CustomerEmailService.cs:67 | String.Replace keeps the length of the text when the replacement is as long as the pattern |
| Notifier.ReplaceWithoutPattern | NimblePros.Customers.Web/Customers/CustomerEmailService.cs:67 | a text in which the pattern's first character never occurs is returned unchanged |
| Notifier.ReplaceSkipsPrefix | NimblePros.Customers.Web/Customers/CustomerEmailService.cs:67 | Replace copies unchanged any prefix in which the pattern's first character does not occur |
| Notifier.ReplaceAtMatch | NimblePros.Customers.Web/Customers/CustomerEmailService.cs:67 | at an occurrence Replace emits the replacement and continues after the pattern |
| Notifier.ReplaceBySelf | NimblePros.Customers.Web/Customers/CustomerEmailService.cs:67 | replacing the pattern by itself leaves any text unchanged |
| Notifier.FillTemplate | NimblePros.Customers.Web/Customers/CustomerEmailService.cs:66-67 | filling the welcome template with any name gives "Welcome " + name + " to the Nimble Pros family!", and a name containing the placeholder is not expanded again |
| Notifier.GenerateWelcomeMessage | NimblePros.Customers.Web/Customers/CustomerEmailService.cs:64-69 | the welcome message is "Welcome " + company name + " to the Nimble Pros family!", with a null name giving "", and depends on nothing but the company name |
| Notifier.EmailSender.SendEmail | NimblePros.Customers.Web/Customers/CustomerEmailService.cs:32 | a call to the sender is one more entry in its log, with the four values passed |
| Notifier.CustomerEmailService.constructor | NimblePros.Customers.Web/Customers/CustomerEmailService.cs:14-18 | the service keeps the message factory and the sender it is given |
| CompositeFormat.HolesOpenWithIndex | NimblePros.Customers.Web/Customers/CustomerEmailService.cs:30 | the item check of composite formatting, one rule only: a '{' that is not doubled must be followed by a digit; a format without '{' always passes |
| CompositeFormat.AttemptLogFormatThrows | NimblePros.Customers.Web/Customers/CustomerEmailService.cs:30 | the log line's format fails composite formatting's check, because its first item "{to}" does not start with an index |
| CompositeFormat.IndexedLogFormatPasses | NimblePros.Customers.Web/Customers/CustomerEmailService.cs:30 | the same log line with the items {0}, {1} and {2} passes that check |
| Notifier.CustomerEmailService.SendLogged | NimblePros.Customers.Web/Customers/CustomerEmailService.cs:20-33 | with a format that passes the check, exactly one send with the four values; with one that fails, FormatException and no send |
| Notifier.CustomerEmailService.SendWelcomeEmailAsWritten | NimblePros.Customers.Web/Customers/CustomerEmailService.cs:20-33 | as written, SendWelcomeEmail throws at the log line and the sender is never called |
| Notifier.CustomerEmailService.SendWelcomeEmail | NimblePros.Customers.Web/Customers/CustomerEmailService.cs:20-33 | with the log line's holes indexed: exactly one send, from "crazy_dotnet" to the customer's email with subject "Welcome to Nimble Pros!" and the factory's message as body |
| Filters.FirstCustomer | NimblePros.Customers.Web/Customers/ValidateCustomer.cs:8 | the filter picks the first argument that is a Customer, and finds none exactly when no argument is one |
| Filters.CustomerProblem | NimblePros.Customers.Web/Customers/ValidateCustomer.cs:10-16 | the filter rejects exactly when the first Customer argument has a null or empty name, and the rejection is the "Company Name" problem |
| Filters.ValidateCustomer | NimblePros.Customers.Web/Customers/ValidateCustomer.cs:5-19 | a null or empty name gives the single-key problem "Company Name": "CompanyName cannot be empty" without next; otherwise, or with no Customer argument, the result is next's |
| Filters.ValidateAddCustomer | NimblePros.Customers.Web/Customers/ValidationHelpers.cs:20-31 | only position 0 is read: a null there passes to next, an empty name gives the "Id": "Id cannot be null." problem, another type or no arguments throws |
| Filters.BlankNamePasses | NimblePros.Customers.Web/Customers/ValidateCustomer.cs:10 | only emptiness is checked: a one-character blank name passes to next |
| Filters.FiltersAgreeOnCustomerFirst | NimblePros.Customers.Web/Customers/ValidationHelpers.cs:22-30 | with the customer first, both filters make the same decision and differ only in the problem's key and message |
| Filters.PositionalFilterFailsOnUpdateShape | NimblePros.Customers.Web/Customers/ValidationHelpers.cs:17-22 | on update's argument order (route id first) the positional filter throws an invalid cast, while ValidateCustomer still checks the body |
| Filters.PositionalFilterMissesLaterCustomer | NimblePros.Customers.Web/Customers/ValidationHelpers.cs:22-23 | a null at position 0 hides a later customer with an empty name from the positional filter, but not from ValidateCustomer |
| Endpoints.Location | NimblePros.Customers.Web/Customers/CustomerEndpoints.cs:48 | the location is "/customers/" followed by 36 characters that parse back to the new id |
| Endpoints.NewCustomer | NimblePros.Customers.Web/Customers/CustomerEndpoints.cs:42 | the created record has the fresh id, no projects, email test@test.com and the body's company name |
| Endpoints.NewCustomerUsesOnlyName | NimblePros.Customers.Web/Customers/CustomerEndpoints.cs:42 | the client's id, projects and email are discarded: bodies with the same name create the same record |
| Endpoints.Edited | NimblePros.Customers.Web/Customers/CustomerEndpoints.cs:57 | the updated record keeps the existing id and email and takes only company name and projects from the body |
| Endpoints.EditedIgnoresBodyIdAndEmail | NimblePros.Customers.Web/Customers/CustomerEndpoints.cs:57 | the body's id and email do not affect the updated record |
| Endpoints.GetAfterCreate | NimblePros.Customers.Web/Customers/CustomerEndpoints.cs:40-48 | a customer created under an id not yet stored is what a get of that id then returns |
| Endpoints.ListCustomers | NimblePros.Customers.Web/Customers/CustomerEndpoints.cs:24-28 | GET /customers answers with the whole stored list in order |
| Endpoints.GetCustomerById | NimblePros.Customers.Web/Customers/CustomerEndpoints.cs:31-35 | GET answers NotFound exactly when no customer has the id, and otherwise Ok with the first customer with that id |
| Endpoints.AddCustomer | NimblePros.Customers.Web/Customers/CustomerEndpoints.cs:40-49 | with the log line corrected, POST appends the new record, sends exactly one welcome email for it, and answers Created at "/customers/{newId}" with the stored record |
| Endpoints.AddCustomerAsWritten | NimblePros.Customers.Web/Customers/CustomerEndpoints.cs:40-49 | as written, POST appends the new record and answers Created, but the unawaited welcome task fails and no email is sent |
| Endpoints.WelcomeEmailOfNewCustomer | NimblePros.Customers.Web/Customers/CustomerEndpoints.cs:42-46 | the welcome email of a created customer goes from crazy_dotnet to test@test.com with the fixed subject and greets the body's company name |
| Endpoints.UpdateCustomer | NimblePros.Customers.Web/Customers/CustomerEndpoints.cs:52-62 | PUT of an absent id answers NotFound and leaves the store unchanged; otherwise it stores and returns the existing record with only name and projects replaced, at the first position with the id |
| Endpoints.Validate | NimblePros.Customers.Web/Customers/CustomerEndpoints.cs:169-175 | DeleteRequest.Validate yields the single error "Id is required." naming Id exactly when the id is the empty Guid, and nothing otherwise |
| Endpoints.DeleteCustomer | NimblePros.Customers.Web/Customers/CustomerEndpoints.cs:67-73 | DELETE always answers NoContent, and removes the first customer with the id if there is one |
| Endpoints.AddMessage | NimblePros.Customers.Web/Program.cs:85 | adding one validation result: every named member gets the message, earlier messages are kept, and other members are unchanged (layout assumed; see "## Left out") |
| Endpoints.ErrorMap | NimblePros.Customers.Web/Program.cs:85 | the problem's keys are exactly the member names of the validation results, and each key lists the message of every result naming it (layout assumed; see "## Left out") |
| Endpoints.DeleteCustomerValidated | NimblePros.Customers.Web/Program.cs:77-85 | behind parameter validation, the empty Guid is refused with the "Id" problem and leaves the store alone; any other id reaches the handler |
| ProgramEndpoints.NewCustomer | NimblePros.Customers.Web/Program.cs:54 | the earlier create keeps the body's other fields (the record at Program.cs:97 has no email) and sets only the fresh id and empty projects |
| ProgramEndpoints.AddCustomer | NimblePros.Customers.Web/Program.cs:49-57 | the earlier POST appends the new record and answers Created at "/customers/{newId}" |
| ProgramEndpoints.SeedAllNamed | NimblePros.Customers.Web/Program.cs:109-125 | the fixtures all have non-empty names, so a fresh store satisfies the filter's invariant |
| ProgramEndpoints.NamedAfterStoring | NimblePros.Customers.Web/Program.cs:137-154 | appending or updating with a named customer keeps every stored name non-empty |
| ProgramEndpoints.RemovedKeepsNamed | NimblePros.Customers.Web/Program.cs:156-164 | deleting keeps every stored name non-empty, since every survivor was already stored |
| ProgramEndpoints.AddCustomerFiltered | NimblePros.Customers.Web/Program.cs:49-59 | POST behind ValidateCustomer answers the "Company Name" problem for a null or empty name without touching the store, and otherwise creates; no empty name ever reaches the store |
| ProgramEndpoints.UpdateCustomerFiltered | NimblePros.Customers.Web/Program.cs:61-74 | PUT behind ValidateCustomer finds the body after the route id, refuses a null or empty name without touching the store, and otherwise updates; no empty name ever reaches the store |

## Left out

- Hosting, routing and OpenAPI are not modelled: building the application, HTTPS redirection,
  route registration, route constraints and `app.Run` are framework plumbing. Only the handler
  bodies and the filters in front of them are modelled.
- `EFCoreCostumerData.cs`, the Entity Framework store, is not modelled. Its behaviour lives in
  the ORM library.
- SMTP sending (`MailKitEmailSenderService`, and its copy in `CustomerEmailService.cs`) is
  network I/O. The sender only records its calls.
- The text that `Console.WriteLine` prints is not modelled. Only the format check that decides
  whether the call throws is modelled (`CompositeFormat.HolesOpenWithIndex`). Its other checks,
  on the rest of an item and on a lone '}', are not modelled.
- `Guid.NewGuid()` randomness: fresh ids are parameters, and nothing in the source checks that
  they are unique.
- Asynchrony is not modelled. Every method is synchronous. The later create handler does not
  await `SendWelcomeEmail`, so an exception there never reaches the handler. The model returns it
  as a `SendOutcome`, which the handler ignores.
- Concurrent requests on the shared store are not modelled; there is no locking to model.
- `[MinLength(5)]`, `[MaxLength(15)]` and `[Required]` are not modelled as checks. They are
  annotations that the create and update routes do not enforce. For delete, `[Required]` on a
  Guid always holds.
- The commented-out legacy `SendWelcomeEmail` is not modelled; it is dead code.
- Aliasing is not modelled. In the source, records have setters, `List` hands out the live list,
  and `GetById` returns the stored object, so a caller could change the store through them. The
  model copies values.
- Null lists are not modelled. A PUT body whose `projects` is missing or null reaches the update
  handler, and the edited record stores a null `Projects` (`Customers/CustomerEndpoints.cs:57`,
  `Program.cs:66`). The model's `projects: seq<Project>` cannot express null. Only a null body is
  refused at binding.
- `Endpoints.ErrorMap`, `Endpoints.AddMessage`: the problem layout of `WithParameterValidation`
  (one key per member name, holding the messages in order) is an assumption about that library's
  behaviour. Its code is not part of this model.
- Guid.Parse is modelled only for the D form the fixtures use (32 hex digits with hyphens). The
  N, B, P and X forms, surrounding whitespace, and any leniency of .NET's parser inside a group
  (such as a "0x" or "+" prefix) are not modelled. On such texts `Guids.Parse` answers None
  where .NET may succeed.
- Guid byte order is not modelled. A Guid is identified with the number its text spells; .NET's
  internal byte order is not observable in this core.
- `ICustomerData`, `IEmailSenderService` and `IEmailMessageFactory` are not declared as
  interfaces. The store has one implementation here, the message factory is a function value,
  and the sender is one recording class.
- `Endpoints.AddCustomer`: the order of the two effects (store first, then email) is in the
  method body, but its contract states only the final store and the final log.
- `Store.CustomerData.constructor`: the copy in `Program.cs` has no email field. The model seeds
  both fixtures with test@test.com, as the other two copies do.

## Findings

| source | as written | input that shows it | evidently intended | confidence | as-written member | corrected member |
|---|---|---|---|---|---|---|
| NimblePros.Customers.Web/Customers/CustomerEmailService.cs:30 | `Console.WriteLine` is given a composite format with named holes (`{to}`, `{from}`, `{subject}`). `{to}` is not a valid format item, so the call throws FormatException. `SendEmailAsync` at line 32 is never reached. The create handler does not await the task, so the exception is lost and no email is sent | any POST /customers, e.g. a body with company name "Acme" | the log line uses indexed holes (or string interpolation), and exactly one welcome email is sent per created customer | not executed | Notifier.CustomerEmailService.SendWelcomeEmailAsWritten, with CompositeFormat.AttemptLogFormatThrows and Endpoints.AddCustomerAsWritten | Notifier.CustomerEmailService.SendWelcomeEmail, with CompositeFormat.IndexedLogFormatPasses and Endpoints.AddCustomer |
