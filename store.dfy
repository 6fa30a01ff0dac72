/**
 * The in-memory customer store: an ordered list of customers seeded with two fixtures.
 * Lookup, update and delete act on the FIRST entry whose id matches; update and delete do
 * nothing when no entry matches; add appends without checking for a duplicate id.
 *
 * The functions below give the meaning of each operation on the list; the class
 * CustomerData performs the operations in place and is proved against them.
 */
module Store {
  import opened Wrappers
  import opened Guids
  import opened Entities

  /** The fixed ids of the two fixture customers. */
  const FenderId: Guid := 0x8903bfdd_d68f_4e95_8f6f_ee1757d93862
  const GibsonId: Guid := 0x58912e6e_d6d1_4bcc_8a68_3a889a1c0f84

  const TestEmail := "test@test.com"

  /**
   * The fixtures: Fender then Gibson, each with two projects. The project ids come from
   * Guid.NewGuid() and are parameters here.
   */
  function Seed(stratocaster: Guid, telecaster: Guid, lesPaul: Guid, sg: Guid): (s: seq<Customer>)
    ensures |s| == 2 && s[0].id == FenderId && s[1].id == GibsonId && FenderId != GibsonId
    ensures forall i :: 0 <= i < |s| ==> s[i].email == Some(TestEmail) && |s[i].projects| == 2
  {
    [ Customer(FenderId, Some("Fender"), Some(TestEmail),
        [Project(stratocaster, Some("Stratocaster"), FenderId), Project(telecaster, Some("Telecaster"), GibsonId)]),
      Customer(GibsonId, Some("Gibson"), Some(TestEmail),
        [Project(lesPaul, Some("LesPaul"), FenderId), Project(sg, Some("SG"), GibsonId)]) ]
  }

  /** List.FindIndex(c => c.Id == id): the position of the first match, or -1. */
  function FirstIndexOf(s: seq<Customer>, id: Guid): (k: int)
    ensures -1 <= k < |s|
    ensures 0 <= k ==> s[k].id == id && forall j :: 0 <= j < k ==> s[j].id != id
    ensures k == -1 ==> forall j :: 0 <= j < |s| ==> s[j].id != id
  {
    if |s| == 0 then -1
    else if s[0].id == id then 0
    else
      var k := FirstIndexOf(s[1..], id);
      if k == -1 then -1 else k + 1
  }

  /** List.FirstOrDefault(c => c.Id == id). */
  function Lookup(s: seq<Customer>, id: Guid): (r: Option<Customer>)
    ensures r.Some? <==> exists j :: 0 <= j < |s| && s[j].id == id
    ensures r.Some? ==> r.value.id == id && r.value in s
  {
    var k := FirstIndexOf(s, id);
    if k == -1 then None else Some(s[k])
  }

  /** The list after Update(customer): the first entry with customer's id replaced, if any. */
  function Replaced(s: seq<Customer>, c: Customer): (r: seq<Customer>)
    ensures |r| == |s|
    ensures forall j :: 0 <= j < |s| && s[j].id != c.id ==> r[j] == s[j]
    ensures c in r <==> Lookup(s, c.id).Some?
  {
    var k := FirstIndexOf(s, c.id);
    if k == -1 then
      assert forall j :: 0 <= j < |s| ==> s[j] != c;
      s
    else
      assert s[k := c][k] == c && s[k].id == c.id;
      s[k := c]
  }

  /** The list after DeleteById(id): the first entry with that id removed, if any. */
  function Removed(s: seq<Customer>, id: Guid): (r: seq<Customer>)
    ensures |r| == if Lookup(s, id).Some? then |s| - 1 else |s|
    ensures Lookup(s, id).None? ==> r == s
    ensures forall j :: 0 <= j < |r| ==> r[j] == s[j] || (j + 1 < |s| && r[j] == s[j + 1])
  {
    var k := FirstIndexOf(s, id);
    if k == -1 then s
    else
      DropAt(s, k);
      s[..k] + s[k + 1..]
  }

  /** Dropping position k: the entries before k stay, and the ones after it move down by one. */
  lemma DropAt<T>(s: seq<T>, k: int)
    requires 0 <= k < |s|
    ensures var r := s[..k] + s[k + 1..];
      && |r| == |s| - 1
      && (forall i :: 0 <= i < k ==> r[i] == s[i])
      && (forall i :: k <= i < |r| ==> r[i] == s[i + 1])
  {
  }

  /** How many entries carry the id. */
  function Count(s: seq<Customer>, id: Guid): (n: nat)
    ensures n <= |s|
    ensures n == 0 <==> FirstIndexOf(s, id) == -1
  {
    if s == [] then 0
    else (if s[0].id == id then 1 else 0) + Count(s[1..], id)
  }

  /** The first match is characterised by its two properties. */
  lemma FirstIndexUnique(s: seq<Customer>, id: Guid, k: int)
    requires 0 <= k < |s| && s[k].id == id
    requires forall j :: 0 <= j < k ==> s[j].id != id
    ensures FirstIndexOf(s, id) == k
  {
  }

  lemma {:induction false} CountAppend(s: seq<Customer>, t: seq<Customer>, id: Guid)
    ensures Count(s + t, id) == Count(s, id) + Count(t, id)
  {
    if s != [] {
      assert (s + t)[1..] == s[1..] + t;
      CountAppend(s[1..], t, id);
    } else {
      assert s + t == t;
    }
  }

  /** A fresh store holds Fender then Gibson, under distinct fixed ids, each with the test email and two projects. */
  lemma SeedFixtures(stratocaster: Guid, telecaster: Guid, lesPaul: Guid, sg: Guid)
    ensures var s := Seed(stratocaster, telecaster, lesPaul, sg);
      && |s| == 2
      && s[0].id == FenderId && s[0].companyName == Some("Fender")
      && s[1].id == GibsonId && s[1].companyName == Some("Gibson")
      && FenderId != GibsonId
      && (forall i :: 0 <= i < 2 ==> s[i].email == Some(TestEmail) && |s[i].projects| == 2)
      && Lookup(s, FenderId) == Some(s[0]) && Lookup(s, GibsonId) == Some(s[1])
  {
    var s := Seed(stratocaster, telecaster, lesPaul, sg);
    FirstIndexUnique(s, FenderId, 0);
    FirstIndexUnique(s, GibsonId, 1);
  }

  /**
   * The fixtures do not keep "a project's CustomerId is its owner's id": Telecaster is listed
   * under Fender with Gibson's id, and LesPaul under Gibson with Fender's.
   */
  lemma SeedOwnershipMismatch(stratocaster: Guid, telecaster: Guid, lesPaul: Guid, sg: Guid)
    ensures var s := Seed(stratocaster, telecaster, lesPaul, sg);
      && s[0].projects[1].projectName == Some("Telecaster") && s[0].projects[1].customerId != s[0].id
      && s[1].projects[0].projectName == Some("LesPaul") && s[1].projects[0].customerId != s[1].id
  {
  }

  /**
   * Add does not check for duplicates: after appending c, a lookup of any id finds what it
   * found before, and finds c only when no earlier entry had the id.
   */
  lemma {:induction false} LookupAfterAdd(s: seq<Customer>, c: Customer, id: Guid)
    ensures Lookup(s + [c], id) ==
      if Lookup(s, id).Some? then Lookup(s, id) else if c.id == id then Some(c) else None
  {
    var t := s + [c];
    var k := FirstIndexOf(s, id);
    if k != -1 {
      FirstIndexUnique(t, id, k);
    } else if c.id == id {
      FirstIndexUnique(t, id, |s|);
    } else {
      assert forall j :: 0 <= j < |t| ==> t[j].id != id by {
        forall j | 0 <= j < |t| ensures t[j].id != id {
          if j < |s| { assert t[j] == s[j]; }
        }
      }
    }
  }

  /** Deleting the id of a customer just added under a fresh id restores the list. */
  lemma AddThenDelete(s: seq<Customer>, c: Customer)
    requires Lookup(s, c.id).None?
    ensures Removed(s + [c], c.id) == s
  {
    FirstIndexUnique(s + [c], c.id, |s|);
    assert (s + [c])[..|s|] == s;
  }

  /** After Update(c), a lookup of c's id yields c when the id was present, and nothing otherwise. */
  lemma LookupAfterUpdate(s: seq<Customer>, c: Customer)
    ensures Lookup(Replaced(s, c), c.id) == if Lookup(s, c.id).Some? then Some(c) else None
  {
    var k := FirstIndexOf(s, c.id);
    if k != -1 {
      FirstIndexUnique(s[k := c], c.id, k);
    }
  }

  /**
   * Update keeps the length and touches only the first entry with the id: with duplicates,
   * later entries sharing the id are left as they were.
   */
  lemma UpdateTouchesFirstOnly(s: seq<Customer>, c: Customer, i: int)
    requires 0 <= i < |s|
    ensures |Replaced(s, c)| == |s|
    ensures Replaced(s, c)[i] == if i == FirstIndexOf(s, c.id) then c else s[i]
  {
  }

  /** Updating back with the previous record undoes an update. */
  lemma UpdateUndo(s: seq<Customer>, c: Customer)
    requires Lookup(s, c.id).Some?
    ensures Replaced(Replaced(s, c), Lookup(s, c.id).value) == s
  {
    var k := FirstIndexOf(s, c.id);
    FirstIndexUnique(s[k := c], c.id, k);
  }

  /** Updating twice with the same record is updating once. */
  lemma UpdateIdempotent(s: seq<Customer>, c: Customer)
    ensures Replaced(Replaced(s, c), c) == Replaced(s, c)
  {
    var k := FirstIndexOf(s, c.id);
    if k != -1 {
      FirstIndexUnique(s[k := c], c.id, k);
    }
  }

  /**
   * DeleteById removes exactly the first entry with the id: the length drops by one and the
   * other entries keep their order; with no match the list is unchanged.
   */
  lemma DeleteRemovesFirst(s: seq<Customer>, id: Guid)
    ensures var k := FirstIndexOf(s, id); var r := Removed(s, id);
      && (k == -1 ==> r == s)
      && (k != -1 ==>
            && |r| == |s| - 1
            && (forall i :: 0 <= i < k ==> r[i] == s[i])
            && (forall i :: k <= i < |r| ==> r[i] == s[i + 1]))
  {
    var k := FirstIndexOf(s, id);
    if k != -1 {
      DropAt(s, k);
    }
  }

  /** DeleteById removes one entry with the id (none if absent) and no entry with another id. */
  lemma CountAfterDelete(s: seq<Customer>, id: Guid, other: Guid)
    ensures Count(Removed(s, id), id) == if Count(s, id) == 0 then 0 else Count(s, id) - 1
    ensures other != id ==> Count(Removed(s, id), other) == Count(s, other)
  {
    var k := FirstIndexOf(s, id);
    if k != -1 {
      CountDropAt(s, k, id);
      CountDropAt(s, k, other);
    }
  }

  /** Dropping position k lowers the count of an id by one if the entry there has it, else not at all. */
  lemma CountDropAt(s: seq<Customer>, k: int, x: Guid)
    requires 0 <= k < |s|
    ensures Count(s[..k] + s[k + 1..], x) == Count(s, x) - (if s[k].id == x then 1 else 0)
  {
    var front, back := s[..k], s[k + 1..];
    assert s == front + ([s[k]] + back);
    CountAppend(front, [s[k]] + back, x);
    CountAppend([s[k]], back, x);
    CountAppend(front, back, x);
  }

  /** After deleting an id, a lookup of that id finds the next entry that shared it, if any. */
  lemma LookupAfterDelete(s: seq<Customer>, id: Guid)
    ensures Lookup(Removed(s, id), id).Some? <==> Count(s, id) >= 2
  {
    CountAfterDelete(s, id, id);
  }

  /** The store in place: a list of customers that its methods read and rewrite. */
  class CustomerData {
    var customers: seq<Customer>

    /** Seeds the two fixture customers. */
    constructor (stratocaster: Guid, telecaster: Guid, lesPaul: Guid, sg: Guid)
      ensures customers == Seed(stratocaster, telecaster, lesPaul, sg)
    {
      customers := Seed(stratocaster, telecaster, lesPaul, sg);
    }

    /** The stored customers, in insertion order. */
    method List() returns (r: seq<Customer>)
      ensures r == customers
    {
      r := customers;
    }

    /** List.Any(c => c.Id == id). */
    method Any(id: Guid) returns (found: bool)
      ensures found <==> exists j :: 0 <= j < |customers| && customers[j].id == id
    {
      var i := 0;
      while i < |customers|
        invariant 0 <= i <= |customers|
        invariant forall j :: 0 <= j < i ==> customers[j].id != id
      {
        if customers[i].id == id {
          return true;
        }
        i := i + 1;
      }
      return false;
    }

    /** List.FindIndex(c => c.Id == id): the first matching position, or -1. */
    method FindIndex(id: Guid) returns (index: int)
      ensures index == FirstIndexOf(customers, id)
    {
      var i := 0;
      while i < |customers|
        invariant 0 <= i <= |customers|
        invariant forall j :: 0 <= j < i ==> customers[j].id != id
      {
        if customers[i].id == id {
          FirstIndexUnique(customers, id, i);
          return i;
        }
        i := i + 1;
      }
      return -1;
    }

    /** The first customer with the id, or none. */
    method GetById(id: Guid) returns (r: Option<Customer>)
      ensures r == Lookup(customers, id)
    {
      var i := 0;
      while i < |customers|
        invariant 0 <= i <= |customers|
        invariant forall j :: 0 <= j < i ==> customers[j].id != id
      {
        if customers[i].id == id {
          FirstIndexUnique(customers, id, i);
          return Some(customers[i]);
        }
        i := i + 1;
      }
      return None;
    }

    /** Appends, with no duplicate check. */
    method Add(newCustomer: Customer)
      modifies this
      ensures customers == old(customers) + [newCustomer]
    {
      customers := customers + [newCustomer];
    }

    /** Replaces the first entry whose id is customer's own id; the id parameter is not used. */
    method Update(id: Guid, customer: Customer)
      modifies this
      ensures customers == Replaced(old(customers), customer)
    {
      var found := Any(customer.id);
      if found {
        var index := FindIndex(customer.id);
        customers := customers[index := customer];
      }
    }

    /** Removes the first entry with the id; nothing happens when there is none. */
    method DeleteById(id: Guid)
      modifies this
      ensures customers == Removed(old(customers), id)
    {
      var found := Any(id);
      if found {
        var index := FindIndex(id);
        customers := customers[..index] + customers[index + 1..];
      }
    }
  }
}
