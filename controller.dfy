/**
 * The four endpoints of the registry, from the point where the request body
 * has been read and has passed validation: the empty-batch guard, delegation
 * to the service, and the status of each successful answer.
 */
module Controller {
  import opened Wrappers
  import opened Entity
  import opened Responses
  import opened Http
  import opened ExceptionHandler
  import opened Repository
  import opened Service

  const EmptyBatchMessage := "Request body is required and cannot be empty for batch saving."

  class TrainingCenterController {
    const service: TrainingCenterService

    constructor (service: TrainingCenterService)
      ensures this.service == service
    {
      this.service := service;
    }

    /**
     * The batch endpoint: an empty batch is refused before the service is called;
     * otherwise the service's list is answered unchanged with 201.
     */
    method CreateTrainingCenters(dtos: seq<Option<TrainingCenterRequest>>, times: seq<Instant>)
      returns (r: Result<ResponseEntity<seq<TrainingCenterResponse>>, Exception>)
      requires service.repository.Valid() && |times| == |dtos|
      modifies service.repository
      ensures service.repository.Valid()
      ensures dtos == [] ==> r == Failure(EmptyRequestBody(EmptyBatchMessage)) && unchanged(service.repository)
      ensures dtos != [] && !AllAddressed(dtos) ==> r == Failure(NullPointer) && unchanged(service.repository)
      ensures dtos != [] && AllAddressed(dtos) ==>
                var rows := PersistedBatch(dtos, old(service.repository.nextId), times);
                && r == Success(ResponseEntity(Created, MapToResponses(rows)))
                && service.repository.rows == old(service.repository.rows) + rows
    {
      if |dtos| == 0 {
        return Failure(EmptyRequestBody(EmptyBatchMessage));
      }
      var saved := service.SaveAllTrainingCenters(dtos, times);
      if saved.Failure? {
        return Failure(saved.error);
      }
      r := Success(ResponseEntity(Created, saved.value));
    }

    /** The single-save endpoint: the service's result, with 201. */
    method CreateTrainingCenter(dto: TrainingCenterRequest, now: Instant)
      returns (r: Result<ResponseEntity<TrainingCenterResponse>, Exception>)
      requires service.repository.Valid()
      modifies service.repository
      ensures service.repository.Valid()
      ensures dto.address.None? ==> r == Failure(NullPointer) && unchanged(service.repository)
      ensures dto.address.Some? ==>
                var row := Persisted(ConvertToEntity(dto), old(service.repository.nextId), now);
                && r == Success(ResponseEntity(Created, ConvertToResponseDto(row)))
                && service.repository.rows == old(service.repository.rows) + [row]
    {
      var saved := service.SaveTrainingCenter(dto, now);
      if saved.Failure? {
        return Failure(saved.error);
      }
      r := Success(ResponseEntity(Created, saved.value));
    }

    /** Every stored training center, in the store's order, with 200. */
    function GetAllTrainingCenters(): (r: ResponseEntity<seq<TrainingCenterResponse>>)
      reads service.repository
      ensures r.status == Ok && StatusCode(r.status) == 200
      ensures |r.body| == |service.repository.rows|
      ensures forall i :: 0 <= i < |r.body| ==> StateOf(r.body[i]) == service.repository.rows[i]
    {
      ResponseEntity(Ok, service.GetAllTrainingCenters())
    }

    /** The filter endpoint: the three optional parameters reach the store query unchanged; the answer has 200. */
    function FilterTrainingCenters(course: Option<string>, city: Option<string>, state: Option<string>)
      : (r: ResponseEntity<seq<TrainingCenterResponse>>)
      reads service.repository
      ensures r.status == Ok && StatusCode(r.status) == 200
      ensures var found := service.repository.filterQuery(course, city, state, service.repository.rows);
              && |r.body| == |found|
              && forall i :: 0 <= i < |r.body| ==> StateOf(r.body[i]) == found[i]
    {
      ResponseEntity(Ok, service.FilterTrainingCenters(course, city, state))
    }
  }

  /** An empty batch ends as a 400 carrying the guard's message. */
  lemma EmptyBatchAnswer()
    ensures Handle(EmptyRequestBody(EmptyBatchMessage)) == ResponseEntity(BadRequest, ExceptionHandler.Text(EmptyBatchMessage))
    ensures StatusCode(Handle(EmptyRequestBody(EmptyBatchMessage)).status) == 400
  {
  }

  /** A request that passed validation without an address ends as a 500 with the generic text. */
  lemma MissingAddressAnswer()
    ensures Handle(NullPointer) == ResponseEntity(InternalServerError, ExceptionHandler.Text(GenericErrorText))
    ensures StatusCode(Handle(NullPointer).status) == 500
  {
  }
}
