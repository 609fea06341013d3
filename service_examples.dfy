/**
 * The scenarios of the service's unit tests and the database seed, run
 * through the model: a store of Charlie, Buddy and Rocky, in that order.
 */
module ServiceExamples {
  import opened Wrappers
  import opened Runtime
  import opened DogDtos
  import opened Models
  import opened Sorting
  import opened Paging
  import opened Services
  import opened ListingProperties

  const Charlie := Dog(1, "Charlie", "Black", 15, 20)
  const Buddy := Dog(2, "Buddy", "Brown", 5, 25)
  const Rocky := Dog(3, "Rocky", "White", 10, 15)
  const Store := [Charlie, Buddy, Rocky]

  /**
   * An ordered permutation of three records with distinct keys is the one
   * ordering of them; this pins the sorted listing down without relying on
   * how ties would be broken.
   */
  lemma {:induction false} OrderedTriple(p: Property, dir: Direction, s: seq<Dog>, a: Dog, b: Dog, c: Dog)
    requires multiset(s) == multiset{a, b, c} && OrderedBy(p, dir, s)
    requires KeyOf(p, a).Number? && KeyOf(p, b).Number? && KeyOf(p, c).Number?
    requires Precedes(dir, KeyOf(p, a), KeyOf(p, b)) && KeyOf(p, a) != KeyOf(p, b)
    requires Precedes(dir, KeyOf(p, b), KeyOf(p, c)) && KeyOf(p, b) != KeyOf(p, c)
    ensures s == [a, b, c]
  {
    assert |s| == 3 by {
      assert |multiset(s)| == 3;
    }
    assert s[0] in multiset(s) && s[1] in multiset(s) && s[2] in multiset(s);
  }

  /** A store of three records with distinct keys has one sorted order. */
  lemma SortedThree(store: seq<Dog>, p: Property, dir: Direction, a: Dog, b: Dog, c: Dog)
    requires multiset{a, b, c} == multiset(store)
    requires KeyOf(p, a).Number? && KeyOf(p, b).Number? && KeyOf(p, c).Number?
    requires Precedes(dir, KeyOf(p, a), KeyOf(p, b)) && KeyOf(p, a) != KeyOf(p, b)
    requires Precedes(dir, KeyOf(p, b), KeyOf(p, c)) && KeyOf(p, b) != KeyOf(p, c)
    ensures OrderBy(store, p, dir) == [a, b, c]
  {
    OrderedTriple(p, dir, OrderBy(store, p, dir), a, b, c);
  }

  /** "weight" is accepted through its upper-cased first letter; "Height" names no property. */
  lemma KnownAttributes()
    ensures ParseAttribute("TailLength") == Some(TailLength)
    ensures ParseAttribute("Weight") == Some(Weight)
    ensures ParseAttribute("weight") == Some(Weight)
    ensures ParseAttribute("Height") == None
  {
    assert Names("TailLength", TailLength);
    assert Names("Weight", Weight);
    assert Names("weight", Weight);
    assert forall p :: !Names("Height", p);
  }

  /** A sorted request without paging over three records with distinct keys lists them in key order. */
  lemma SortedListingOfThree(store: seq<Dog>, attribute: string, order: string, p: Property, dir: Direction, a: Dog, b: Dog, c: Dog)
    requires ParseAttribute(attribute) == Some(p) && order == OrderName(dir)
    requires multiset{a, b, c} == multiset(store)
    requires KeyOf(p, a).Number? && KeyOf(p, b).Number? && KeyOf(p, c).Number?
    requires Precedes(dir, KeyOf(p, a), KeyOf(p, b)) && KeyOf(p, a) != KeyOf(p, b)
    requires Precedes(dir, KeyOf(p, b), KeyOf(p, c)) && KeyOf(p, b) != KeyOf(p, c)
    ensures GetDogs(store, attribute, order, None, None) == Success(ToDtos([a, b, c]))
  {
    SortedThree(store, p, dir, a, b, c);
  }

  /** The same request paged to its second page of size one lists the middle record. */
  lemma SortedSecondOfThree(store: seq<Dog>, attribute: string, order: string, p: Property, dir: Direction, a: Dog, b: Dog, c: Dog)
    requires ParseAttribute(attribute) == Some(p) && order == OrderName(dir)
    requires multiset{a, b, c} == multiset(store)
    requires KeyOf(p, a).Number? && KeyOf(p, b).Number? && KeyOf(p, c).Number?
    requires Precedes(dir, KeyOf(p, a), KeyOf(p, b)) && KeyOf(p, a) != KeyOf(p, b)
    requires Precedes(dir, KeyOf(p, b), KeyOf(p, c)) && KeyOf(p, b) != KeyOf(p, c)
    ensures GetDogs(store, attribute, order, Some(2), Some(1)) == Success(ToDtos([b]))
  {
    SortedPage(store, attribute, order, 2, 1, p, dir);
    SortedThree(store, p, dir, a, b, c);
    SecondPageOfOne(a, b, c);
  }

  /** A sorted and paged request lists that page of the sorted store. */
  lemma SortedPage(store: seq<Dog>, attribute: string, order: string, number: pos32, size: pos32, p: Property, dir: Direction)
    requires ParseAttribute(attribute) == Some(p) && order == OrderName(dir)
    ensures GetDogs(store, attribute, order, Some(number as int32), Some(size as int32)) ==
      Success(ToDtos(Window(OrderBy(store, p, dir), Page(number, size))))
  {
  }

  /** The second page of size one holds the second record. */
  lemma SecondPageOfOne(a: Dog, b: Dog, c: Dog)
    ensures Window([a, b, c], Page(2, 1)) == [b]
  {
  }

  lemma SortedByTailLengthDescending()
    ensures GetDogs(Store, "TailLength", "desc", None, None) == Success(ToDtos([Charlie, Rocky, Buddy]))
  {
    KnownAttributes();
    SortedListingOfThree(Store, "TailLength", "desc", TailLength, Descending, Charlie, Rocky, Buddy);
  }

  lemma SortedByLowerCaseWeightAscending()
    ensures GetDogs(Store, "weight", "asc", None, None) == Success(ToDtos([Rocky, Charlie, Buddy]))
  {
    KnownAttributes();
    SortedListingOfThree(Store, "weight", "asc", Weight, Ascending, Rocky, Charlie, Buddy);
  }

  lemma SortedThenPaged()
    ensures GetDogs(Store, "Weight", "desc", Some(2), Some(1)) == Success(ToDtos([Charlie]))
  {
    KnownAttributes();
    SortedSecondOfThree(Store, "Weight", "desc", Weight, Descending, Buddy, Charlie, Rocky);
  }

  lemma UnsortedPages()
    ensures GetDogs(Store, "", "", Some(2), Some(1)) == Success(ToDtos([Buddy]))
    ensures GetDogs(Store, "", "", Some(2), Some(2)) == Success(ToDtos([Rocky]))
  {
    assert Window(Store, Page(2, 1)) == [Buddy];
    assert Window(Store, Page(2, 2)) == [Rocky];
  }

  lemma RejectedRequests()
    ensures GetDogs(Store, "Weight", "", None, None) == Failure(InvalidSortingInputs)
    ensures GetDogs(Store, "Height", "desc", None, None) == Failure(InvalidAttributeName)
    ensures GetDogs(Store, "Weight", "sc", None, None) == Failure(InvalidOrderName)
    ensures GetDogs(Store, "", "", None, Some(1)) == Failure(InvalidPagingInputs)
    ensures GetDogs(Store, "", "", Some(0), Some(1)) == Failure(InvalidPageBounds)
    ensures GetDogs(Store, "", "", Some(1), Some(0)) == Failure(InvalidPageBounds)
  {
    KnownAttributes();
  }

  /** The JSON key of TailLength is not a sort attribute; the other wire names are. */
  lemma WireNamesAsAttributes()
    ensures forall p :: !Names(WireName(TailLength), p)
    ensures Names(WireName(Name), Name) && Names(WireName(Color), Color) && Names(WireName(Weight), Weight)
  {
  }

  /** Creating a second "Charlie" fails with the duplicate-name exception and stores nothing. */
  method CreateDuplicateName() returns (r: Outcome<Exception>, stored: seq<Dog>)
    ensures r == Fail(NameAlreadyTaken) && stored == Store
  {
    var service := new DogService(Store);
    r := service.CreateDog(DogDto("Charlie", "Pink", 10, 10), Saved);
    assert NameTaken(Store, "Charlie") by {
      assert Store[0].name == "Charlie";
    }
    stored := service.dogs;
  }

  const Neo := Dog(1, "Neo", "red&amber", 22, 32)
  const Jessy := Dog(2, "Jessy", "black&white", 7, 14)

  /** Starting from the database seed, a new name is stored under the next Id and listed last. */
  method CreateThenList() returns (r: Outcome<Exception>, listing: seq<DogDto>)
    ensures r == Pass
    ensures listing == [ToDto(Neo), ToDto(Jessy), DogDto("TestName", "TestColor", 10, 10)]
  {
    var service := new DogService([Neo, Jessy]);
    r := service.CreateDog(DogDto("TestName", "TestColor", 10, 10), Saved);
    assert !NameTaken([Neo, Jessy], "TestName");
    listing := GetDogs(service.dogs, "", "", None, None).value;
  }

  /**
   * A commit that fails with a subclass of DbUpdateException is reported as a
   * taken name as well; a failure of an unrelated class passes through. Either
   * way nothing is stored.
   */
  method CreateWithFailedCommit() returns (concurrency: Outcome<Exception>, other: Outcome<Exception>, stored: seq<Dog>)
    ensures concurrency == Fail(NameAlreadyTaken)
    ensures other == Fail(Exception(OtherException("InvalidOperationException", Unrelated), "closed", None))
    ensures stored == [Neo, Jessy]
  {
    var service := new DogService([Neo, Jessy]);
    assert !NameTaken([Neo, Jessy], "TestName");
    concurrency := service.CreateDog(DogDto("TestName", "TestColor", 10, 10),
      Thrown(Exception(OtherException("DbUpdateConcurrencyException", DbUpdateFamily), "conflict", None)));
    other := service.CreateDog(DogDto("TestName", "TestColor", 10, 10),
      Thrown(Exception(OtherException("InvalidOperationException", Unrelated), "closed", None)));
    stored := service.dogs;
  }
}
