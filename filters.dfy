/**
 * The endpoint filters that guard create and update: both reject a customer whose company name
 * is null or empty and otherwise hand the request to the next stage unchanged.
 * ValidateCustomer looks for the first argument that is a Customer; the older
 * ValidationHelpers.ValidateAddCustomer looks only at argument 0 and reports under "Id".
 *
 * The next stage is a function of the arguments, so "the result is next's" is stated as
 * equality with next(args).
 */
module Filters {
  import opened Wrappers
  import opened Entities
  import opened Http

  /** One bound argument of the endpoint, as the filter sees it through `object`. */
  datatype Argument = CustomerValue(customer: Customer) | NullValue | OtherValue

  /** Position i holds a Customer and no earlier position does. */
  predicate IsFirstCustomerAt(args: seq<Argument>, i: int) {
    && 0 <= i < |args|
    && args[i].CustomerValue?
    && forall j :: 0 <= j < i ==> !args[j].CustomerValue?
  }

  /** Arguments.FirstOrDefault(a => a is Customer) as Customer; a null argument is not a Customer. */
  function FirstCustomer(args: seq<Argument>): (r: Option<Customer>)
    ensures r.None? <==> forall i :: 0 <= i < |args| ==> !args[i].CustomerValue?
    ensures r.Some? ==> exists i :: IsFirstCustomerAt(args, i) && args[i].customer == r.value
  {
    if args == [] then None
    else if args[0].CustomerValue? then
      assert IsFirstCustomerAt(args, 0);
      Some(args[0].customer)
    else
      var r := FirstCustomer(args[1..]);
      if r.Some? then
        var i :| IsFirstCustomerAt(args[1..], i) && args[1..][i].customer == r.value;
        assert IsFirstCustomerAt(args, i + 1);
        r
      else r
  }

  const CompanyNameProblem := ValidationProblem(map["Company Name" := ["CompanyName cannot be empty"]])

  /** ValidateCustomer's decision: the problem to return, or None to call the next stage. */
  function CustomerProblem(args: seq<Argument>): (r: Option<HttpResult>)
    ensures r.Some? ==> r.value == CompanyNameProblem
    ensures r.Some? <==> exists i :: IsFirstCustomerAt(args, i) && IsNullOrEmpty(args[i].customer.companyName)
  {
    var c := FirstCustomer(args);
    if c.Some? && IsNullOrEmpty(c.value.companyName) then Some(CompanyNameProblem) else None
  }

  /**
   * ValidateCustomer.InvokeAsync: the first Customer argument decides; a null or empty company
   * name gives the "Company Name" problem without calling next; anything else, including
   * no Customer argument at all, gives next's result.
   */
  function ValidateCustomer(args: seq<Argument>, next: seq<Argument> -> HttpResult): (r: HttpResult)
    ensures forall i :: IsFirstCustomerAt(args, i) ==>
      r == if IsNullOrEmpty(args[i].customer.companyName) then CompanyNameProblem else next(args)
    ensures (forall i :: 0 <= i < |args| ==> !args[i].CustomerValue?) ==> r == next(args)
  {
    var problem := CustomerProblem(args);
    if problem.Some? then problem.value else next(args)
  }

  const IdProblem := ValidationProblem(map["Id" := ["Id cannot be null."]])

  /**
   * ValidationHelpers.ValidateAddCustomer: GetArgument<Customer>(0) reads position 0 only.
   * A null there passes; a value of another type makes the cast throw; no arguments at all
   * makes the index throw.
   */
  function ValidateAddCustomer(args: seq<Argument>, next: seq<Argument> -> HttpResult): (r: HttpResult)
    ensures |args| == 0 ==> r == Unhandled(ArgumentOutOfRange)
    ensures |args| > 0 && args[0].OtherValue? ==> r == Unhandled(InvalidCast)
    ensures |args| > 0 && args[0].NullValue? ==> r == next(args)
    ensures |args| > 0 && args[0].CustomerValue? ==>
      r == if IsNullOrEmpty(args[0].customer.companyName) then IdProblem else next(args)
  {
    if |args| == 0 then Unhandled(ArgumentOutOfRange)
    else match args[0]
      case OtherValue => Unhandled(InvalidCast)
      case NullValue => next(args)
      case CustomerValue(c) => if IsNullOrEmpty(c.companyName) then IdProblem else next(args)
  }

  /** Only emptiness is checked: a name of one character, even a blank, passes ValidateCustomer. */
  lemma BlankNamePasses(c: Customer, args: seq<Argument>, next: seq<Argument> -> HttpResult)
    requires c.companyName == Some(" ")
    requires |args| > 0 && args[0] == CustomerValue(c)
    ensures ValidateCustomer(args, next) == next(args)
  {
    assert IsFirstCustomerAt(args, 0);
  }

  /**
   * With the customer first, as in the create endpoint, the two filters make the same decision
   * and differ only in the key and message of the problem they report.
   */
  lemma FiltersAgreeOnCustomerFirst(c: Customer, rest: seq<Argument>, next: seq<Argument> -> HttpResult)
    ensures var args := [CustomerValue(c)] + rest;
      && (IsNullOrEmpty(c.companyName) ==> ValidateCustomer(args, next) == CompanyNameProblem && ValidateAddCustomer(args, next) == IdProblem)
      && (!IsNullOrEmpty(c.companyName) ==> ValidateCustomer(args, next) == next(args) && ValidateAddCustomer(args, next) == next(args))
  {
    assert IsFirstCustomerAt([CustomerValue(c)] + rest, 0);
  }

  /**
   * With the customer second, as in the update endpoint (route id first), the positional filter
   * casts the id to Customer and throws, while ValidateCustomer still checks the customer.
   */
  lemma PositionalFilterFailsOnUpdateShape(c: Customer, next: seq<Argument> -> HttpResult)
    ensures var args := [OtherValue, CustomerValue(c), OtherValue];
      && ValidateAddCustomer(args, next) == Unhandled(InvalidCast)
      && ValidateCustomer(args, next) == if IsNullOrEmpty(c.companyName) then CompanyNameProblem else next(args)
  {
    assert IsFirstCustomerAt([OtherValue, CustomerValue(c), OtherValue], 1);
  }

  /** A null at position 0 hides a later customer with an empty name from the positional filter only. */
  lemma PositionalFilterMissesLaterCustomer(c: Customer, next: seq<Argument> -> HttpResult)
    requires IsNullOrEmpty(c.companyName)
    ensures var args := [NullValue, CustomerValue(c)];
      && ValidateAddCustomer(args, next) == next(args)
      && ValidateCustomer(args, next) == CompanyNameProblem
  {
    assert IsFirstCustomerAt([NullValue, CustomerValue(c)], 1);
  }
}
