/** The HTTP results the handlers and filters produce, in place of the framework's result types. */
module Http {
  import opened Entities

  /** An exception that escapes a filter; the framework turns it into a server error. */
  datatype Fault = ArgumentOutOfRange | InvalidCast

  datatype HttpResult =
    | OkList(customers: seq<Customer>)                   // 200 with the customer list
    | Ok(customer: Customer)                             // 200 with one customer
    | Created(location: string, created: Customer)       // 201 with a Location header
    | NoContent                                          // 204
    | NotFound                                           // 404
    | ValidationProblem(errors: map<string, seq<string>>) // 400 with field -> messages
    | Unhandled(fault: Fault)                            // an exception thrown on the way
}
