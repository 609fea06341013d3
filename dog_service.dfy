/**
 * DogService (testtask/Services/Implementations/DogService.cs): the
 * listing, a read-only function of the stored records and four loosely typed
 * parameters, and the creation of a record under a unique-name rule.
 */
module Services {
  import opened Wrappers
  import opened Runtime
  import opened DogDtos
  import opened Models
  import opened Sorting
  import opened Paging

  // The exceptions the service throws.

  const InvalidSortingInputs := Exception(ArgumentException, "Invalid sorting inputs", None)
  const InvalidAttributeName := Exception(ArgumentException, "Invalid attribute name", Some("attribute"))
  const InvalidOrderName := Exception(ArgumentException, "Invalid order name", Some("order"))
  const InvalidPagingInputs := Exception(ArgumentException, "Invalid paging inputs", None)
  const InvalidPageBounds := Exception(ArgumentOutOfRangeException, "Invalid pageNumber or/and pageSize", None)
  const NameAlreadyTaken := Exception(DuplicateNameException, "Name is already taken", None)

  /** The exceptions the listing can throw. */
  predicate IsListingError(e: Exception) {
    e in {InvalidSortingInputs, InvalidAttributeName, InvalidOrderName, InvalidPagingInputs, InvalidPageBounds}
  }

  // Sorting parameters.

  /** `char.ToUpper(attribute[0]) + attribute.Substring(1)` */
  function Capitalize(s: string): (r: string)
    ensures |r| == |s| && (s != [] ==> r[1..] == s[1..])
  {
    if s == [] then [] else [ToUpper(s[0])] + s[1..]
  }

  /**
   * The attribute strings that name property `p`: its identifier, and its
   * identifier with the first letter in lower case.
   */
  predicate Names(attribute: string, p: Property) {
    attribute == PropertyName(p) || attribute == CamelCase(PropertyName(p))
  }

  lemma {:induction false} CapitalizeNames(attribute: string, p: Property)
    ensures Capitalize(attribute) == PropertyName(p) <==> Names(attribute, p)
  {
    var n := PropertyName(p);
    assert 'A' <= n[0] <= 'Z';
    if Capitalize(attribute) == n {
      assert attribute != [] && ToUpper(attribute[0]) == n[0];
      assert attribute[0] == n[0] || attribute[0] as int == n[0] as int + 32;
      assert attribute == [attribute[0]] + n[1..];
      assert n == [n[0]] + n[1..];
      assert CamelCase(n) == [ToLower(n[0])] + n[1..];
    }
    if Names(attribute, p) {
      assert attribute[1..] == n[1..];
      assert Capitalize(attribute) == [ToUpper(attribute[0])] + n[1..];
      assert n == [n[0]] + n[1..];
    }
  }

  /** The sortable property an attribute names: first letter upper-cased, then looked up among DogDto's properties. */
  function ParseAttribute(attribute: string): (r: Option<Property>)
    ensures forall p :: r == Some(p) <==> Names(attribute, p)
  {
    var r := GetProperty(Capitalize(attribute));
    forall p ensures r == Some(p) <==> Names(attribute, p) {
      CapitalizeNames(attribute, p);
      if r.Some? && Names(attribute, p) {
        PropertyNameInjective(r.value, p);
      }
    }
    r
  }

  /** A validated sort instruction. */
  datatype SortSpec = SortSpec(property: Property, direction: Direction)

  /** The sort instruction the attribute and order parameters ask for, or the exception they raise. */
  function ParseSorting(attribute: string, order: string): (r: Result<Option<SortSpec>, Exception>)
    ensures r.Failure? ==> r.error in {InvalidSortingInputs, InvalidAttributeName, InvalidOrderName}
    ensures r == Success(None) <==> attribute == "" && order == ""
    ensures forall p :: r == Success(Some(SortSpec(p, Ascending))) <==> Names(attribute, p) && order == "asc"
    ensures forall p :: r == Success(Some(SortSpec(p, Descending))) <==> Names(attribute, p) && order == "desc"
  {
    if attribute != "" && order != "" then
      match ParseAttribute(attribute)
      case None => Failure(InvalidAttributeName)
      case Some(p) =>
        if order == "asc" then Success(Some(SortSpec(p, Ascending)))
        else if order == "desc" then Success(Some(SortSpec(p, Descending)))
        else Failure(InvalidOrderName)
    else if attribute != "" || order != "" then
      Failure(InvalidSortingInputs)
    else
      Success(None)
  }

  // Paging parameters.

  /** The page the pageNumber and pageSize parameters ask for, or the exception they raise. */
  function ParsePaging(pageNumber: Option<int32>, pageSize: Option<int32>): (r: Result<Option<Page>, Exception>)
    ensures r.Success? <==>
      (pageNumber.None? && pageSize.None?) ||
      (pageNumber.Some? && pageSize.Some? && pageNumber.value >= 1 && pageSize.value >= 1)
    ensures r.Success? && r.value.Some? ==>
      pageNumber.Some? && pageSize.Some? && r.value.value == Page(pageNumber.value, pageSize.value)
    ensures r.Success? && r.value.None? ==> pageNumber.None? && pageSize.None?
    ensures r.Failure? ==>
      r.error == if pageNumber.Some? && pageSize.Some? then InvalidPageBounds else InvalidPagingInputs
  {
    if pageNumber.Some? && pageSize.Some? then
      if pageNumber.value <= 0 || pageSize.value <= 0 then Failure(InvalidPageBounds)
      else Success(Some(Page(pageNumber.value, pageSize.value)))
    else if pageNumber.Some? || pageSize.Some? then
      Failure(InvalidPagingInputs)
    else
      Success(None)
  }

  // The listing.

  /** The records a validated request selects: ordered first (if asked), then windowed (if asked). */
  function Select(store: seq<Dog>, sort: Option<SortSpec>, page: Option<Page>): (r: seq<Dog>)
    ensures |r| <= |store|
    ensures sort.None? && page.None? ==> r == store
    ensures sort.None? && page.Some? ==> r == Window(store, page.value)
  {
    var ordered := if sort.Some? then OrderBy(store, sort.value.property, sort.value.direction) else store;
    if page.Some? then Window(ordered, page.value) else ordered
  }

  /** Without paging the selection is a permutation of the store; with a sort it is ordered, paged or not. */
  lemma SelectOrders(store: seq<Dog>, sort: Option<SortSpec>, page: Option<Page>)
    ensures page.None? ==> multiset(Select(store, sort, page)) == multiset(store)
    ensures sort.Some? ==> OrderedBy(sort.value.property, sort.value.direction, Select(store, sort, page))
  {
    if sort.Some? && page.Some? {
      var ordered := OrderBy(store, sort.value.property, sort.value.direction);
      var offset := Offset(page.value);
      WindowShape(ordered, page.value);
      OrderedBySlice(sort.value.property, sort.value.direction, ordered,
        Min(offset, |ordered|), Min(offset + page.value.size, |ordered|));
    }
  }

  /**
   * `GetDogsAsync(attribute, order, pageNumber, pageSize)` against a store
   * holding `store`. The sort parameters are checked before the paging
   * parameters; the first failing check decides the exception.
   */
  function GetDogs(store: seq<Dog>, attribute: string, order: string, pageNumber: Option<int32>, pageSize: Option<int32>)
    : (r: Result<seq<DogDto>, Exception>)
    ensures r.Failure? ==> IsListingError(r.error)
    ensures r.Success? ==> |r.value| <= |store|
  {
    match ParseSorting(attribute, order)
    case Failure(e) => Failure(e)
    case Success(sort) =>
      match ParsePaging(pageNumber, pageSize)
      case Failure(e) => Failure(e)
      case Success(page) => Success(ToDtos(Select(store, sort, page)))
  }

  // The creation.

  /** Some record carries exactly this name (ordinal, case-sensitive). */
  predicate NameTaken(dogs: seq<Dog>, name: string): (b: bool)
    ensures b <==> exists d :: d in dogs && d.name == name
  {
    exists i :: 0 <= i < |dogs| && dogs[i].name == name
  }

  /** No two records share a name. */
  predicate UniqueNames(dogs: seq<Dog>) {
    forall i, j :: 0 <= i < j < |dogs| ==> dogs[i].name != dogs[j].name
  }

  predicate DistinctIds(dogs: seq<Dog>) {
    forall i, j :: 0 <= i < j < |dogs| ==> dogs[i].id != dogs[j].id
  }

  /** `FirstOrDefaultAsync(d => d.Name == name)`: the first record with that name, or null. */
  function FirstWithName(dogs: seq<Dog>, name: string): (r: Option<Dog>)
    ensures r.Some? <==> NameTaken(dogs, name)
    ensures r.Some? ==> exists i :: (0 <= i < |dogs| && dogs[i] == r.value && r.value.name == name &&
      forall j :: 0 <= j < i ==> dogs[j].name != name)
  {
    if dogs == [] then None
    else if dogs[0].name == name then Some(dogs[0])
    else
      var r := FirstWithName(dogs[1..], name);
      assert NameTaken(dogs[1..], name) ==> NameTaken(dogs, name) by {
        if NameTaken(dogs[1..], name) {
          var i :| 0 <= i < |dogs[1..]| && dogs[1..][i].name == name;
          assert dogs[i + 1].name == name;
        }
      }
      assert NameTaken(dogs, name) ==> NameTaken(dogs[1..], name) by {
        if NameTaken(dogs, name) {
          var i :| 0 <= i < |dogs| && dogs[i].name == name;
          assert i > 0 && dogs[1..][i - 1].name == name;
        }
      }
      if r.Some? then
        var i :| 0 <= i < |dogs[1..]| && dogs[1..][i] == r.value && r.value.name == name &&
          forall j :: 0 <= j < i ==> dogs[1..][j].name != name;
        assert dogs[i + 1] == r.value;
        assert forall j :: 0 <= j < i + 1 ==> dogs[j].name != name by {
          forall j | 0 <= j < i + 1 ensures dogs[j].name != name {
            if j > 0 { assert dogs[j] == dogs[1..][j - 1]; }
          }
        }
        r
      else
        r
  }

  /** Appending a record whose name is not taken keeps the names unique. */
  lemma AppendKeepsNamesUnique(dogs: seq<Dog>, d: Dog)
    requires UniqueNames(dogs) && !NameTaken(dogs, d.name)
    ensures UniqueNames(dogs + [d])
  {
    var r := dogs + [d];
    forall i, j | 0 <= i < j < |r| ensures r[i].name != r[j].name {
      if j == |dogs| {
        assert r[i] == dogs[i];
      }
    }
  }

  /** The largest Id in use, or 0. */
  function MaxId(dogs: seq<Dog>): (m: int)
    ensures m >= 0
    ensures forall i :: 0 <= i < |dogs| ==> dogs[i].id <= m
  {
    if dogs == [] then 0
    else
      var m := MaxId(dogs[1..]);
      assert forall i :: 1 <= i < |dogs| ==> dogs[i] == dogs[1..][i - 1];
      if dogs[0].id > m then dogs[0].id else m
  }

  /** How the store's SaveChangesAsync ends: the row is committed, or it throws. */
  datatype SaveResult = Saved | Thrown(error: Exception)

  /**
   * The service together with the Dogs table of the database context it was
   * given. `nextId` is the identity the store assigns to the next row.
   */
  class DogService {
    var dogs: seq<Dog>
    var nextId: int

    ghost predicate Valid()
      reads this
    {
      DistinctIds(dogs) && forall i :: 0 <= i < |dogs| ==> dogs[i].id < nextId
    }

    constructor (table: seq<Dog>)
      requires DistinctIds(table)
      ensures Valid() && dogs == table
    {
      dogs := table;
      nextId := MaxId(table) + 1;
    }

    /**
     * `CreateDogAsync(dto)`. `save` is how the store's commit ends; it is
     * reached only when the name pre-check passes.
     */
    method CreateDog(dto: DogDto, save: SaveResult) returns (r: Outcome<Exception>)
      requires Valid()
      modifies this
      ensures Valid()
      ensures NameTaken(old(dogs), dto.name) ==> r == Fail(NameAlreadyTaken) && dogs == old(dogs)
      ensures !NameTaken(old(dogs), dto.name) && save == Saved ==>
        r == Pass && dogs == old(dogs) + [FromDto(dto, old(nextId))]
      ensures !NameTaken(old(dogs), dto.name) && save.Thrown? ==>
        r == Fail(if IsDbUpdateException(save.error.kind) then NameAlreadyTaken else save.error) &&
        dogs == old(dogs)
      ensures r.Fail? ==> nextId == old(nextId)
      ensures r == Pass ==> nextId == old(nextId) + 1
      ensures r == Pass ==> forall i :: 0 <= i < |old(dogs)| ==> dogs[i].id != dogs[|old(dogs)|].id
      ensures UniqueNames(old(dogs)) ==> UniqueNames(dogs)
      ensures (forall i :: 0 <= i < |old(dogs)| ==> DogDtos.Valid(ToDto(old(dogs)[i]))) && DogDtos.Valid(dto) ==>
        forall i :: 0 <= i < |dogs| ==> DogDtos.Valid(ToDto(dogs[i]))
    {
      var nameTaken := FirstWithName(dogs, dto.name);
      if nameTaken.Some? {
        return Fail(NameAlreadyTaken);
      }
      var dog := FromDto(dto, nextId);
      match save
      case Saved =>
        if UniqueNames(dogs) {
          AppendKeepsNamesUnique(dogs, dog);
        }
        dogs := dogs + [dog];
        nextId := nextId + 1;
        r := Pass;
      case Thrown(e) =>
        r := Fail(if IsDbUpdateException(e.kind) then NameAlreadyTaken else e);
    }
  }
}
