/**
 * What GetDogsAsync promises its callers, stated over all stores and all
 * parameter values: which requests fail and with which exception, and what
 * a successful listing holds.
 */
module ListingProperties {
  import opened Wrappers
  import opened Runtime
  import opened DogDtos
  import opened Models
  import opened Sorting
  import opened Paging
  import opened Services

  /** The order parameter that asks for direction `dir`. */
  function OrderName(dir: Direction): string {
    if dir == Ascending then "asc" else "desc"
  }

  /** The attribute and order parameters are acceptable: both empty, or a property name and "asc"/"desc". */
  predicate ValidSorting(attribute: string, order: string) {
    (attribute == "" && order == "") ||
    ((exists p :: Names(attribute, p)) && (order == "asc" || order == "desc"))
  }

  /** The paging parameters are acceptable: both absent, or both present and positive. */
  predicate ValidPaging(pageNumber: Option<int32>, pageSize: Option<int32>) {
    (pageNumber.None? && pageSize.None?) ||
    (pageNumber.Some? && pageSize.Some? && pageNumber.value >= 1 && pageSize.value >= 1)
  }

  /** A listing succeeds exactly when both pairs of parameters are acceptable. */
  lemma ListingSucceedsIff(store: seq<Dog>, attribute: string, order: string, pageNumber: Option<int32>, pageSize: Option<int32>)
    ensures GetDogs(store, attribute, order, pageNumber, pageSize).Success? <==>
      ValidSorting(attribute, order) && ValidPaging(pageNumber, pageSize)
  {
    var s := ParseSorting(attribute, order);
    if ValidSorting(attribute, order) && !(attribute == "" && order == "") {
      var p :| Names(attribute, p);
      assert s == Success(Some(SortSpec(p, if order == "asc" then Ascending else Descending)));
    }
    if s.Success? && s.value.Some? {
      assert Names(attribute, s.value.value.property);
    }
  }

  /** Exactly one of attribute and order given: "Invalid sorting inputs", whatever the paging parameters. */
  lemma OneSortParameterFails(store: seq<Dog>, attribute: string, order: string, pageNumber: Option<int32>, pageSize: Option<int32>)
    requires (attribute == "") != (order == "")
    ensures GetDogs(store, attribute, order, pageNumber, pageSize) == Failure(InvalidSortingInputs)
  {
  }

  /**
   * Both given and the attribute names no property: "Invalid attribute name"
   * for parameter "attribute", whatever the order and paging parameters, so
   * a bad attribute wins over a bad order.
   */
  lemma UnknownAttributeFails(store: seq<Dog>, attribute: string, order: string, pageNumber: Option<int32>, pageSize: Option<int32>)
    requires attribute != "" && order != ""
    requires forall p :: !Names(attribute, p)
    ensures GetDogs(store, attribute, order, pageNumber, pageSize) == Failure(InvalidAttributeName)
  {
    assert ParseAttribute(attribute).None?;
  }

  /** A known attribute with an order other than exactly "asc" or "desc": "Invalid order name" for parameter "order". */
  lemma UnknownOrderFails(store: seq<Dog>, attribute: string, order: string, pageNumber: Option<int32>, pageSize: Option<int32>, p: Property)
    requires Names(attribute, p)
    requires order != "" && order != "asc" && order != "desc"
    ensures GetDogs(store, attribute, order, pageNumber, pageSize) == Failure(InvalidOrderName)
  {
    assert ParseAttribute(attribute) == Some(p);
  }

  /**
   * The paging parameters are looked at only once the sorting parameters
   * pass: then one of them alone fails with "Invalid paging inputs", and both
   * given with one not positive fail with ArgumentOutOfRangeException.
   */
  lemma PagingCheckedAfterSorting(store: seq<Dog>, attribute: string, order: string, pageNumber: Option<int32>, pageSize: Option<int32>)
    requires ValidSorting(attribute, order)
    ensures pageNumber.Some? != pageSize.Some? ==>
      GetDogs(store, attribute, order, pageNumber, pageSize) == Failure(InvalidPagingInputs)
    ensures pageNumber.Some? && pageSize.Some? && (pageNumber.value <= 0 || pageSize.value <= 0) ==>
      GetDogs(store, attribute, order, pageNumber, pageSize) == Failure(InvalidPageBounds)
  {
    ListingSucceedsIff(store, attribute, order, None, None);
    assert ParseSorting(attribute, order).Success?;
  }

  /** Without any parameters the listing is every stored record, in store order, without its Id. */
  lemma NoParametersListsEverything(store: seq<Dog>)
    ensures GetDogs(store, "", "", None, None) == Success(ToDtos(store))
  {
  }

  /**
   * The paging parameters are acceptable and `listing` is `ordered`, windowed when paging is given, each record
   * projected to its DTO; `ordered` is a permutation of the store, ordered by
   * the requested property when one is given and the store itself otherwise.
   */
  predicate PageOfOrdering(store: seq<Dog>, attribute: string, order: string, pageNumber: Option<int32>, pageSize: Option<int32>,
                           ordered: seq<Dog>, listing: seq<DogDto>)
  {
    && ValidPaging(pageNumber, pageSize)
    && multiset(ordered) == multiset(store)
    && (attribute == "" ==> ordered == store)
    && (forall p, dir :: Names(attribute, p) && order == OrderName(dir) ==> OrderedBy(p, dir, ordered))
    && listing == ToDtos(if pageNumber.Some? then Window(ordered, Page(pageNumber.value, pageSize.value)) else ordered)
  }

  /** A successful listing is a page of some ordering of the whole store. */
  lemma ListingIsPageOfOrderedStore(store: seq<Dog>, attribute: string, order: string, pageNumber: Option<int32>, pageSize: Option<int32>)
    requires GetDogs(store, attribute, order, pageNumber, pageSize).Success?
    ensures exists ordered: seq<Dog> ::
      PageOfOrdering(store, attribute, order, pageNumber, pageSize, ordered, GetDogs(store, attribute, order, pageNumber, pageSize).value)
  {
    var sort := ParseSorting(attribute, order).value;
    var ordered := if sort.Some? then OrderBy(store, sort.value.property, sort.value.direction) else store;
    forall p, dir | Names(attribute, p) && order == OrderName(dir)
      ensures OrderedBy(p, dir, ordered)
    {
      assert ParseSorting(attribute, order) == Success(Some(SortSpec(p, dir)));
    }
    assert PageOfOrdering(store, attribute, order, pageNumber, pageSize, ordered, GetDogs(store, attribute, order, pageNumber, pageSize).value);
  }

  /** With a sort, the DTOs come out ordered by the requested property in the requested direction. */
  lemma SortedListingIsOrdered(store: seq<Dog>, attribute: string, order: string, pageNumber: Option<int32>, pageSize: Option<int32>,
                               p: Property, dir: Direction)
    requires Names(attribute, p) && order == OrderName(dir)
    requires GetDogs(store, attribute, order, pageNumber, pageSize).Success?
    ensures DtosOrderedBy(p, dir, GetDogs(store, attribute, order, pageNumber, pageSize).value)
  {
    assert ParseSorting(attribute, order) == Success(Some(SortSpec(p, dir)));
    var ordered := OrderBy(store, p, dir);
    if pageNumber.Some? {
      var page := Page(pageNumber.value, pageSize.value);
      WindowShape(ordered, page);
      OrderedBySlice(p, dir, ordered, Min(Offset(page), |ordered|), Min(Offset(page) + page.size, |ordered|));
      OrderedByProjects(p, dir, Window(ordered, page));
    } else {
      OrderedByProjects(p, dir, ordered);
    }
  }

  /**
   * The size of a successful listing: the whole store without paging,
   * otherwise min(pageSize, what remains after skipping pageSize*(pageNumber-1)).
   */
  lemma ListingLength(store: seq<Dog>, attribute: string, order: string, pageNumber: Option<int32>, pageSize: Option<int32>)
    requires GetDogs(store, attribute, order, pageNumber, pageSize).Success?
    ensures |GetDogs(store, attribute, order, pageNumber, pageSize).value| ==
      if pageNumber.Some? then
        Min(pageSize.value, Max(0, |store| - pageSize.value * (pageNumber.value - 1)))
      else
        |store|
  {
    var sort := ParseSorting(attribute, order).value;
    var page := ParsePaging(pageNumber, pageSize).value;
    var ordered := if sort.Some? then OrderBy(store, sort.value.property, sort.value.direction) else store;
    var selected := Select(store, sort, page);
    assert GetDogs(store, attribute, order, pageNumber, pageSize).value == ToDtos(selected);
    assert |ordered| == |store|;
    if page.Some? {
      assert selected == Window(ordered, page.value);
    } else {
      assert selected == ordered;
    }
  }

  /** A page of the unsorted listing is the same slice of the store. */
  lemma UnsortedPageIsSliceOfStore(store: seq<Dog>, number: pos32, size: pos32, k: nat)
    requires k < |GetDogs(store, "", "", Some(number as int32), Some(size as int32)).value|
    ensures GetDogs(store, "", "", Some(number as int32), Some(size as int32)).value[k] == ToDto(store[size * (number - 1) + k])
  {
    WindowShape(store, Page(number, size));
  }
}
