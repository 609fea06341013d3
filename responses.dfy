/**
 * The service's exceptions as the exception middleware answers them: every
 * listing error is a 400, a taken name is a 409.
 */
module Responses {
  import opened Wrappers
  import opened Runtime
  import opened DogDtos
  import opened Models
  import opened Services
  import opened ExceptionMiddleware

  /** Any exception GetDogsAsync throws is answered with 400 Bad Request and its message. */
  lemma ListingErrorIsBadRequest(store: seq<Dog>, attribute: string, order: string, pageNumber: Option<int32>, pageSize: Option<int32>)
    requires GetDogs(store, attribute, order, pageNumber, pageSize).Failure?
    ensures var e := GetDogs(store, attribute, order, pageNumber, pageSize).error;
      HandleException(e) == ErrorResponse("application/json", 400, ErrorBody(e.Message()))
  {
  }

  /** The `error` field of each listing error's response; the parameter name is appended where one was given. */
  lemma ListingErrorBodies()
    ensures HandleException(InvalidSortingInputs).body.error == "Invalid sorting inputs"
    ensures HandleException(InvalidAttributeName).body.error == "Invalid attribute name" + " (Parameter 'attribute')"
    ensures HandleException(InvalidOrderName).body.error == "Invalid order name" + " (Parameter 'order')"
    ensures HandleException(InvalidPagingInputs).body.error == "Invalid paging inputs"
    ensures HandleException(InvalidPageBounds).body.error == "Invalid pageNumber or/and pageSize"
  {
    ParameterSuffix("Invalid attribute name", "attribute");
    assert " (Parameter '" + "attribute" + "')" == " (Parameter 'attribute')";
    ParameterSuffix("Invalid order name", "order");
    assert " (Parameter '" + "order" + "')" == " (Parameter 'order')";
  }

  /** An ArgumentException naming a parameter reports it after the text. */
  lemma ParameterSuffix(text: string, param: string)
    requires param != ""
    ensures Exception(ArgumentException, text, Some(param)).Message() == text + (" (Parameter '" + param + "')")
  {
  }

  /** A taken name, whether found by the pre-check or reported by the store's commit, is a 409 Conflict. */
  lemma DuplicateNameIsConflict()
    ensures HandleException(NameAlreadyTaken) == ErrorResponse("application/json", 409, ErrorBody("Name is already taken"))
  {
  }

  /**
   * POST /dog end to end: CreateDogAsync, then the controller's 201 Created
   * or the middleware's answer to the exception.
   */
  method CreateAndRespond(service: DogService, dto: DogDto, save: SaveResult) returns (status: int)
    requires service.Valid()
    modifies service
    ensures service.Valid()
    ensures NameTaken(old(service.dogs), dto.name) ==> status == 409
    ensures !NameTaken(old(service.dogs), dto.name) && save == Saved ==> status == 201
    ensures save.Thrown? && IsDbUpdateException(save.error.kind) ==> status == 409
    ensures status == 201 <==> service.dogs != old(service.dogs)
  {
    var r := service.CreateDog(dto, save);
    if r.Pass? {
      status := 201;
    } else {
      status := HandleException(r.error).statusCode;
    }
  }
}
