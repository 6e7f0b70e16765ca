/** The fixed course catalog of the registration screen, and the lookup by id
    that the fee calculation uses (the `courses` array and `courses.find`). */
module Catalog {

  datatype Option<+T> = None | Some(value: T)

  /** One course on offer. Prices are whole rand amounts, held as reals so that
      the fee arithmetic built on them is exact. */
  datatype Course = Course(id: int, name: string, price: real)

  /** The seven courses, in the order the screen lists them. */
  const COURSES: seq<Course> := [
    Course(1, "First Aid", 1500.0),
    Course(2, "Sewing", 1500.0),
    Course(3, "Landscaping", 1500.0),
    Course(4, "Life Skills", 1500.0),
    Course(5, "Child Minding", 750.0),
    Course(6, "Cooking", 750.0),
    Course(7, "Garden Maintenance", 750.0)
  ]

  /** No two courses of `cs` share an id. */
  ghost predicate DistinctIds(cs: seq<Course>) {
    forall i, j :: 0 <= i < j < |cs| ==> cs[i].id != cs[j].id
  }

  /** The first course of `cs` whose id is `id`, or None when there is none,
      as `Array.prototype.find` with the predicate `c.id === id` returns it. */
  function Find(cs: seq<Course>, id: int): (r: Option<Course>)
    ensures r.None? <==> forall i :: 0 <= i < |cs| ==> cs[i].id != id
    ensures r.Some? ==> r.value in cs && r.value.id == id
  {
    if cs == [] then None
    else if cs[0].id == id then Some(cs[0])
    else
      var r := Find(cs[1..], id);
      assert forall i :: 1 <= i < |cs| ==> cs[i] == cs[1..][i - 1];
      r
  }

  /** When the course at position i is the first with id `id`, that is the
      course `find` returns, whatever follows it. */
  lemma {:induction false} FindFirst(cs: seq<Course>, id: int, i: nat)
    requires i < |cs| && cs[i].id == id
    requires forall j :: 0 <= j < i ==> cs[j].id != id
    ensures Find(cs, id) == Some(cs[i])
  {
    if i > 0 {
      assert cs[0].id != id;
      FindFirst(cs[1..], id, i - 1);
    }
  }

  /** Course number k of the catalog (counting from 0) has id k + 1; the first
      four cost 1500 and the last three 750. */
  lemma CatalogTable()
    ensures |COURSES| == 7
    ensures forall k :: 0 <= k < |COURSES| ==> COURSES[k].id == k + 1
    ensures forall k :: 0 <= k < |COURSES| ==> COURSES[k].price == if k < 4 then 1500.0 else 750.0
  {
    forall k | 0 <= k < |COURSES|
      ensures COURSES[k].id == k + 1
      ensures COURSES[k].price == if k < 4 then 1500.0 else 750.0
    {
      assert k == 0 || k == 1 || k == 2 || k == 3 || k == 4 || k == 5 || k == 6;
    }
  }

  /** The catalog's ids are unique, so `find` never has to choose between two matches. */
  lemma CatalogIdsDistinct()
    ensures DistinctIds(COURSES)
  {
    CatalogTable();
  }

  /** The course a catalog id finds is the one at position id - 1; any other id
      finds nothing. */
  lemma FindInCatalog(id: int)
    ensures 1 <= id <= 7 ==> Find(COURSES, id) == Some(COURSES[id - 1])
    ensures !(1 <= id <= 7) ==> Find(COURSES, id) == None
  {
    CatalogTable();
    if 1 <= id <= 7 {
      FindFirst(COURSES, id, id - 1);
    }
  }
}
