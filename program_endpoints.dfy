/**
 * The earlier endpoints declared in the application's entry file. Their create handler keeps
 * the body's other fields, sets no email and sends nothing; create and update run behind the
 * ValidateCustomer filter, so a null or empty company name never reaches the store.
 * The get, list, update and delete handler bodies are the ones modelled in Endpoints.
 */
module ProgramEndpoints {
  import opened Guids
  import opened Entities
  import opened Store
  import opened Http
  import opened Filters
  import Endpoints

  /** `customer with { Id = newId, Projects = new() }`: every other field is the body's. */
  function NewCustomer(body: Customer, newId: Guid): (c: Customer)
    ensures c.id == newId && c.projects == []
    ensures c.companyName == body.companyName && c.email == body.email
  {
    body.(id := newId, projects := [])
  }

  /** POST /customers (handler body): stores the body under the new id, with no projects. */
  method AddCustomer(body: Customer, newId: Guid, data: CustomerData) returns (r: HttpResult)
    modifies data
    ensures data.customers == old(data.customers) + [NewCustomer(body, newId)]
    ensures r == Created(Endpoints.Location(newId), NewCustomer(body, newId))
  {
    var newCustomer := NewCustomer(body, newId);
    data.Add(newCustomer);
    r := Created(Endpoints.Location(newCustomer.id), newCustomer);
  }

  /** Every stored customer has a company name that is neither null nor empty. */
  predicate AllNamed(s: seq<Customer>) {
    forall i :: 0 <= i < |s| ==> !IsNullOrEmpty(s[i].companyName)
  }

  /** The fixtures are named, so a fresh store starts out with the invariant. */
  lemma SeedAllNamed(stratocaster: Guid, telecaster: Guid, lesPaul: Guid, sg: Guid)
    ensures AllNamed(Seed(stratocaster, telecaster, lesPaul, sg))
  {
  }

  /** Replacing or appending a named customer keeps every customer named. */
  lemma NamedAfterStoring(s: seq<Customer>, c: Customer)
    requires AllNamed(s) && !IsNullOrEmpty(c.companyName)
    ensures AllNamed(s + [c]) && AllNamed(Replaced(s, c))
  {
    assert forall i :: 0 <= i < |s| ==> (s + [c])[i] == s[i];
  }

  /** Deleting never introduces an unnamed customer: every survivor was already in the store. */
  lemma RemovedKeepsNamed(s: seq<Customer>, id: Guid)
    requires AllNamed(s)
    ensures AllNamed(Removed(s, id))
  {
    var r := Removed(s, id);
    assert forall i :: 0 <= i < |r| ==> r[i] in s;
  }

  /**
   * POST /customers behind ValidateCustomer: the arguments are the body and the store; a null
   * or empty name is answered with the "Company Name" problem and the store is untouched.
   */
  method AddCustomerFiltered(body: Customer, newId: Guid, data: CustomerData) returns (r: HttpResult)
    modifies data
    ensures IsNullOrEmpty(body.companyName) ==> r == CompanyNameProblem && data.customers == old(data.customers)
    ensures !IsNullOrEmpty(body.companyName) ==>
      r == Created(Endpoints.Location(newId), NewCustomer(body, newId))
      && data.customers == old(data.customers) + [NewCustomer(body, newId)]
    ensures AllNamed(old(data.customers)) ==> AllNamed(data.customers)
  {
    var args := [CustomerValue(body), OtherValue];
    assert IsFirstCustomerAt(args, 0);
    var problem := CustomerProblem(args);
    if problem.Some? {
      return problem.value;
    }
    r := AddCustomer(body, newId, data);
    if AllNamed(old(data.customers)) {
      NamedAfterStoring(old(data.customers), NewCustomer(body, newId));
    }
  }

  /**
   * PUT /customers/{id} behind ValidateCustomer: the arguments are the route id, the body and
   * the store, and the filter finds the body as the first Customer.
   */
  method UpdateCustomerFiltered(id: Guid, body: Customer, data: CustomerData) returns (r: HttpResult)
    modifies data
    ensures IsNullOrEmpty(body.companyName) ==> r == CompanyNameProblem && data.customers == old(data.customers)
    ensures !IsNullOrEmpty(body.companyName) && Lookup(old(data.customers), id).None? ==>
      r == NotFound && data.customers == old(data.customers)
    ensures !IsNullOrEmpty(body.companyName) && Lookup(old(data.customers), id).Some? ==>
      var updated := Endpoints.Edited(Lookup(old(data.customers), id).value, body);
      && r == Ok(updated)
      && data.customers == old(data.customers)[FirstIndexOf(old(data.customers), id) := updated]
    ensures AllNamed(old(data.customers)) ==> AllNamed(data.customers)
  {
    var args := [OtherValue, CustomerValue(body), OtherValue];
    assert IsFirstCustomerAt(args, 1);
    var problem := CustomerProblem(args);
    if problem.Some? {
      return problem.value;
    }
    r := Endpoints.UpdateCustomer(id, body, data);
    if AllNamed(old(data.customers)) && Lookup(old(data.customers), id).Some? {
      var updated := Endpoints.Edited(Lookup(old(data.customers), id).value, body);
      assert data.customers == Replaced(old(data.customers), updated);
      NamedAfterStoring(old(data.customers), updated);
    }
  }
}
