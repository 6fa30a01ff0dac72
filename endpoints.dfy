/**
 * The bodies of the /customers handlers over the in-memory store. List, get, update and delete
 * are the same in both endpoint files; create here is the later one, which also fixes the
 * email and sends a welcome message.
 *
 * Guid.NewGuid() is replaced by the parameter newId, and the email service is built per request
 * from the message factory and the sender the handler is given.
 */
module Endpoints {
  import opened Wrappers
  import opened Guids
  import opened Entities
  import opened Store
  import opened Notifier
  import opened Http

  const CustomersPath := "/customers/"

  /** The Location of a created customer: "/customers/{id}", whose last segment reads back as the id. */
  function Location(id: Guid): (location: string)
    ensures |location| == |CustomersPath| + 36
    ensures location[..|CustomersPath|] == CustomersPath
    ensures Parse(location[|CustomersPath|..]) == Some(id)
  {
    ParseFormat(id);
    var location := CustomersPath + Format(id);
    assert location[|CustomersPath|..] == Format(id);
    location
  }

  /** `customer with { Id = newId, Projects = new(), Email = "test@test.com" }`. */
  function NewCustomer(body: Customer, newId: Guid): (c: Customer)
    ensures c.id == newId && c.projects == [] && c.email == Some(TestEmail)
    ensures c.companyName == body.companyName
  {
    body.(id := newId, projects := [], email := Some(TestEmail))
  }

  /** The client's id, projects and email do not matter to create: only the company name is kept. */
  lemma NewCustomerUsesOnlyName(body1: Customer, body2: Customer, newId: Guid)
    requires body1.companyName == body2.companyName
    ensures NewCustomer(body1, newId) == NewCustomer(body2, newId)
  {
  }

  /** `existingCustomer with { CompanyName = customer.CompanyName, Projects = customer.Projects }`. */
  function Edited(existing: Customer, body: Customer): (c: Customer)
    ensures c.id == existing.id && c.email == existing.email
    ensures c.companyName == body.companyName && c.projects == body.projects
  {
    existing.(companyName := body.companyName, projects := body.projects)
  }

  /** The body's id and email do not matter to update. */
  lemma EditedIgnoresBodyIdAndEmail(existing: Customer, body1: Customer, body2: Customer)
    requires body1.companyName == body2.companyName && body1.projects == body2.projects
    ensures Edited(existing, body1) == Edited(existing, body2)
  {
  }

  /** A customer created under an id no stored customer has is what a later get of that id returns. */
  lemma GetAfterCreate(s: seq<Customer>, body: Customer, newId: Guid)
    requires Lookup(s, newId).None?
    ensures Lookup(s + [NewCustomer(body, newId)], newId) == Some(NewCustomer(body, newId))
  {
    LookupAfterAdd(s, NewCustomer(body, newId), newId);
  }

  /** GET /customers: the whole list, in order. */
  method ListCustomers(data: CustomerData) returns (r: HttpResult)
    ensures r == OkList(data.customers)
  {
    var customers := data.List();
    r := OkList(customers);
  }

  /** GET /customers/{id}: Ok with the first customer with the id, or NotFound. */
  method GetCustomerById(id: Guid, data: CustomerData) returns (r: HttpResult)
    ensures r.NotFound? <==> forall j :: 0 <= j < |data.customers| ==> data.customers[j].id != id
    ensures r.Ok? <==> Lookup(data.customers, id).Some?
    ensures r.Ok? ==> r.customer == Lookup(data.customers, id).value && r.customer.id == id
  {
    var customer := data.GetById(id);
    if customer.Some? {
      r := Ok(customer.value);
    } else {
      r := NotFound;
    }
  }

  /** The message the welcome email of a new customer carries. */
  function WelcomeEmail(c: Customer): Email {
    Email(WelcomeFrom, c.email, WelcomeSubject, GenerateWelcomeMessage(c))
  }

  /**
   * POST /customers: stores the body under the new id with no projects and the test email,
   * then sends one welcome email to it, and answers Created at its location.
   */
  method AddCustomer(body: Customer, newId: Guid, data: CustomerData, sender: EmailSender) returns (r: HttpResult)
    modifies data, sender
    ensures data.customers == old(data.customers) + [NewCustomer(body, newId)]
    ensures sender.sent == old(sender.sent) + [WelcomeEmail(NewCustomer(body, newId))]
    ensures r == Created(Location(newId), NewCustomer(body, newId))
  {
    var newCustomer := NewCustomer(body, newId);
    data.Add(newCustomer);
    var customerEmailService := new CustomerEmailService(GenerateWelcomeMessage, sender);
    var _ := customerEmailService.SendWelcomeEmail(newCustomer);
    r := Created(Location(newCustomer.id), newCustomer);
  }

  /**
   * POST /customers as written: the welcome task is started and not awaited, so the
   * FormatException its log line throws never reaches the handler. The customer is stored and
   * Created is answered, but no email is sent.
   */
  method AddCustomerAsWritten(body: Customer, newId: Guid, data: CustomerData, sender: EmailSender) returns (r: HttpResult)
    modifies data, sender
    ensures data.customers == old(data.customers) + [NewCustomer(body, newId)]
    ensures sender.sent == old(sender.sent)
    ensures r == Created(Location(newId), NewCustomer(body, newId))
  {
    var newCustomer := NewCustomer(body, newId);
    data.Add(newCustomer);
    var customerEmailService := new CustomerEmailService(GenerateWelcomeMessage, sender);
    var _ := customerEmailService.SendWelcomeEmailAsWritten(newCustomer);
    r := Created(Location(newCustomer.id), newCustomer);
  }

  /** The welcome email goes to the test address and greets the company by the name in the body. */
  lemma WelcomeEmailOfNewCustomer(body: Customer, newId: Guid)
    ensures var e := WelcomeEmail(NewCustomer(body, newId));
      && e.from == "crazy_dotnet" && e.to == Some("test@test.com") && e.subject == "Welcome to Nimble Pros!"
      && e.body == "Welcome " + ReplacementText(body.companyName) + " to the Nimble Pros family!"
  {
  }

  /**
   * PUT /customers/{id}: NotFound, with the store unchanged, when no customer has the id;
   * otherwise the first such customer gets the body's name and projects, keeping its id and
   * email, and the edited record is stored and returned.
   */
  method UpdateCustomer(id: Guid, body: Customer, data: CustomerData) returns (r: HttpResult)
    modifies data
    ensures Lookup(old(data.customers), id).None? ==> r == NotFound && data.customers == old(data.customers)
    ensures Lookup(old(data.customers), id).Some? ==>
      var updated := Edited(Lookup(old(data.customers), id).value, body);
      && r == Ok(updated)
      && data.customers == old(data.customers)[FirstIndexOf(old(data.customers), id) := updated]
  {
    var existingCustomer := data.GetById(id);
    if existingCustomer.None? {
      return NotFound;
    }
    var updatedCustomer := Edited(existingCustomer.value, body);
    data.Update(updatedCustomer.id, updatedCustomer);
    r := Ok(updatedCustomer);
  }

  /** DELETE /customers/{id}, bound through [AsParameters]: the route id and the store. */
  datatype DeleteRequest = DeleteRequest(id: Guid, data: CustomerData)

  /** A System.ComponentModel.DataAnnotations.ValidationResult. */
  datatype ValidationResult = ValidationResult(errorMessage: string, memberNames: seq<string>)

  /** DeleteRequest.Validate: one error naming Id exactly when the id is Guid.Empty. */
  function Validate(request: DeleteRequest): (results: seq<ValidationResult>)
    ensures results == [] <==> request.id != Empty
    ensures results != [] ==> results == [ValidationResult("Id is required.", ["Id"])]
  {
    if request.id == Empty then [ValidationResult("Id is required.", ["Id"])] else []
  }

  /** DELETE handler: removes the first customer with the id, if any, and answers NoContent either way. */
  method DeleteCustomer(request: DeleteRequest) returns (r: HttpResult)
    modifies request.data
    ensures r == NoContent
    ensures request.data.customers == Removed(old(request.data.customers), request.id)
  {
    request.data.DeleteById(request.id);
    r := NoContent;
  }

  /**
   * The problem details WithParameterValidation reports: every member name some result names is
   * a key, and its messages include the message of every result naming it.
   */
  function ErrorMap(results: seq<ValidationResult>): (errors: map<string, seq<string>>)
    ensures forall n :: n in errors <==> exists i :: 0 <= i < |results| && n in results[i].memberNames
    ensures forall i, n :: 0 <= i < |results| && n in results[i].memberNames ==> results[i].errorMessage in errors[n]
  {
    if results == [] then map[]
    else
      var earlier, last := results[..|results| - 1], results[|results| - 1];
      assert forall i :: 0 <= i < |earlier| ==> earlier[i] == results[i];
      AddMessage(ErrorMap(earlier), last.memberNames, last.errorMessage)
  }

  /** Adds the message to each name's list, creating the lists of names not seen before. */
  function AddMessage(errors: map<string, seq<string>>, names: seq<string>, message: string): (r: map<string, seq<string>>)
    ensures forall n :: n in r <==> n in errors || n in names
    ensures forall n :: n in errors ==> errors[n] <= r[n]
    ensures forall n :: n in errors && n !in names ==> r[n] == errors[n]
    ensures forall n :: n in names ==> message in r[n]
    decreases |names|
  {
    if names == [] then errors
    else
      var previous := if names[0] in errors then errors[names[0]] else [];
      AddMessage(errors[names[0] := previous + [message]], names[1..], message)
  }

  /**
   * The delete route behind WithParameterValidation: Guid.Empty is refused with the "Id"
   * problem and leaves the store alone; any other id reaches the handler.
   */
  method DeleteCustomerValidated(request: DeleteRequest) returns (r: HttpResult)
    modifies request.data
    ensures request.id == Empty ==>
      r == ValidationProblem(map["Id" := ["Id is required."]]) && request.data.customers == old(request.data.customers)
    ensures request.id != Empty ==>
      r == NoContent && request.data.customers == Removed(old(request.data.customers), request.id)
  {
    var results := Validate(request);
    if results != [] {
      assert ErrorMap(results) == map["Id" := ["Id is required."]] by {
        var message := "Id is required.";
        assert results[..0] == [];
        assert ["Id"][1..] == [];
        var empty: map<string, seq<string>> := map[];
        var none: seq<string> := [];
        assert none + [message] == [message];
        assert AddMessage(empty, ["Id"], message) == AddMessage(empty["Id" := [message]], [], message);
      }
      return ValidationProblem(ErrorMap(results));
    }
    r := DeleteCustomer(request);
  }
}
