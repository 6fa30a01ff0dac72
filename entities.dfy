/**
 * The two records of the customer API: a Customer owns an ordered list of Projects, and a
 * Project names the customer it belongs to by id. C# strings are references, so the text
 * fields may be null (None).
 */
module Entities {
  import opened Wrappers
  import opened Guids

  /** A project; its constructor stores the three values as given, with no check at all. */
  datatype Project = Project(id: Guid, projectName: Option<string>, customerId: Guid)

  /**
   * A customer; its public constructor stores the four values as given. The three copies of
   * the record in the repository differ only in which of these fields they carry.
   */
  datatype Customer = Customer(id: Guid, companyName: Option<string>, email: Option<string>, projects: seq<Project>)

  /** String.IsNullOrEmpty. */
  predicate IsNullOrEmpty(s: Option<string>) {
    s.None? || s.value == []
  }

  /**
   * The customer made by the private parameterless constructor kept for EF Core: no field is
   * assigned except Projects, whose initializer gives an empty list.
   */
  function Unassigned(): (c: Customer)
    ensures c.id == Empty && c.projects == []
    ensures c.companyName.None? && c.email.None? && IsNullOrEmpty(c.companyName)
  {
    Customer(Empty, None, None, [])
  }
}
