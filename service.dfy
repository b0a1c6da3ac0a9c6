/**
 * The training center service: the structural copies between request, entity
 * and response, and the four flows over the store.
 */
module Service {
  import opened Wrappers
  import opened Entity
  import opened Responses
  import opened Repository
  import opened ExceptionHandler
  import AddressRequestRules
  import CenterRequestRules

  type TrainingCenterRequest = CenterRequestRules.TrainingCenterRequest

  /** The failure of dereferencing a request's missing address. */
  const NullPointer := Unhandled("NullPointerException")

  /** The request a response describes: the inverse of the copy from request to response. */
  function RequestOf(r: TrainingCenterResponse): TrainingCenterRequest {
    CenterRequestRules.TrainingCenterRequest(
      r.centerName, r.centerCode, r.studentCapacity, r.coursesOffered, r.contactEmail, r.contactPhone,
      Some(AddressRequestRules.AddressRequest(r.address.detailedAddress, r.address.city, r.address.state, r.address.pincode)))
  }

  /** The entity state a response describes: the inverse of the copy from entity to response. */
  function StateOf(r: TrainingCenterResponse): TrainingCenterState {
    TrainingCenterState(
      r.id, r.centerName, r.centerCode, r.studentCapacity, r.coursesOffered, r.contactEmail, r.contactPhone,
      Address(r.address.detailedAddress, r.address.city, r.address.state, r.address.pincode),
      r.createdOn)
  }

  /**
   * A request as a new, not yet persisted entity: every request field and every
   * address field copied unchanged, no identity and no creation time. The address
   * is dereferenced unconditionally, so it must be present.
   */
  function ConvertToEntity(dto: TrainingCenterRequest): (e: TrainingCenterState)
    requires dto.address.Some?
    ensures e.id.None? && e.createdOn.None?
    ensures RequestOf(ConvertToResponseDto(e)) == dto
  {
    var a := dto.address.value;
    TrainingCenterState(
      None, dto.centerName, dto.centerCode, dto.studentCapacity, dto.coursesOffered,
      dto.contactEmail, dto.contactPhone,
      Address(a.detailedAddress, a.city, a.state, a.pincode),
      None)
  }

  /** An entity as a response: every field, identity and creation time included, with the address copied field by field. */
  function ConvertToResponseDto(e: TrainingCenterState): (r: TrainingCenterResponse)
    ensures StateOf(r) == e
  {
    TrainingCenterResponse(
      e.id, e.centerName, e.centerCode, e.studentCapacity, e.coursesOffered,
      e.contactEmail, e.contactPhone,
      AddressResponse(e.address.detailedAddress, e.address.city, e.address.state, e.address.pincode),
      e.createdOn)
  }

  /** The response of a request once persisted carries the request back, with the stored identity and time. */
  lemma RoundTrip(dto: TrainingCenterRequest, id: int, now: Instant)
    requires dto.address.Some?
    ensures var r := ConvertToResponseDto(Persisted(ConvertToEntity(dto), id, now));
            RequestOf(r) == dto && r.id == Some(id) && r.createdOn == Some(now)
  {
    assert RequestOf(ConvertToResponseDto(ConvertToEntity(dto))) == dto;
  }

  /** The copy into an entity is field by field: each field takes its namesake's value, none exchanged. */
  lemma EntityCopiesFieldByField(dto: TrainingCenterRequest)
    requires dto.address.Some?
    ensures var e := ConvertToEntity(dto);
            var a := dto.address.value;
            && e.centerName == dto.centerName && e.centerCode == dto.centerCode
            && e.studentCapacity == dto.studentCapacity && e.coursesOffered == dto.coursesOffered
            && e.contactEmail == dto.contactEmail && e.contactPhone == dto.contactPhone
            && e.address.detailedAddress == a.detailedAddress && e.address.city == a.city
            && e.address.state == a.state && e.address.pincode == a.pincode
  {
  }

  /** The copy into a response is field by field: each field takes its namesake's value, none exchanged. */
  lemma ResponseCopiesFieldByField(e: TrainingCenterState)
    ensures var r := ConvertToResponseDto(e);
            && r.id == e.id && r.createdOn == e.createdOn
            && r.centerName == e.centerName && r.centerCode == e.centerCode
            && r.studentCapacity == e.studentCapacity && r.coursesOffered == e.coursesOffered
            && r.contactEmail == e.contactEmail && r.contactPhone == e.contactPhone
            && r.address.detailedAddress == e.address.detailedAddress && r.address.city == e.address.city
            && r.address.state == e.address.state && r.address.pincode == e.address.pincode
  {
  }

  /** Distinct requests become distinct entities. */
  lemma ConvertToEntityInjective(a: TrainingCenterRequest, b: TrainingCenterRequest)
    requires a.address.Some? && b.address.Some? && ConvertToEntity(a) == ConvertToEntity(b)
    ensures a == b
  {
    assert RequestOf(ConvertToResponseDto(ConvertToEntity(a))) == a;
  }

  /** The response stream over a list of entities: one response per entity, in the same order. */
  function MapToResponses(es: seq<TrainingCenterState>): (rs: seq<TrainingCenterResponse>)
    ensures |rs| == |es|
    ensures forall i :: 0 <= i < |es| ==> StateOf(rs[i]) == es[i]
  {
    seq(|es|, i requires 0 <= i < |es| => ConvertToResponseDto(es[i]))
  }

  /** Every element of a batch is a request (not null) and has an address, so each can be converted. */
  predicate AllAddressed(dtos: seq<Option<TrainingCenterRequest>>) {
    forall i :: 0 <= i < |dtos| ==> dtos[i].Some? && dtos[i].value.address.Some?
  }

  /** The rows a batch of requests becomes when persisted from identity `firstId` on, the i-th at time `times[i]`. */
  function PersistedBatch(dtos: seq<Option<TrainingCenterRequest>>, firstId: int, times: seq<Instant>): (rows: seq<TrainingCenterState>)
    requires AllAddressed(dtos) && |times| == |dtos|
    ensures |rows| == |dtos|
    ensures forall i :: 0 <= i < |dtos| ==>
              && rows[i].id == Some(firstId + i)
              && rows[i].createdOn == Some(times[i])
              && Some(RequestOf(ConvertToResponseDto(rows[i]))) == dtos[i]
  {
    seq(|dtos|, i requires 0 <= i < |dtos| => Persisted(ConvertToEntity(dtos[i].value), firstId + i, times[i]))
  }

  /**
   * The conversion stream of a batch: one new entity per request, in order; the
   * first null element or request without an address stops it.
   */
  method NewEntities(dtos: seq<Option<TrainingCenterRequest>>) returns (r: Option<seq<TrainingCenter>>)
    ensures r.None? <==> !AllAddressed(dtos)
    ensures r.Some? ==>
              && |r.value| == |dtos|
              && (forall i :: 0 <= i < |dtos| ==> fresh(r.value[i]) && r.value[i].State() == ConvertToEntity(dtos[i].value))
              && (forall i, j :: 0 <= i < j < |dtos| ==> r.value[i] != r.value[j])
  {
    var entities: seq<TrainingCenter> := [];
    for i := 0 to |dtos|
      invariant |entities| == i
      invariant forall j :: 0 <= j < i ==> dtos[j].Some? && dtos[j].value.address.Some?
      invariant forall j :: 0 <= j < i ==> fresh(entities[j]) && entities[j].State() == ConvertToEntity(dtos[j].value)
      invariant forall j, k :: 0 <= j < k < i ==> entities[j] != entities[k]
    {
      if dtos[i].None? || dtos[i].value.address.None? {
        return None;
      }
      var entity := new TrainingCenter(ConvertToEntity(dtos[i].value));
      entities := entities + [entity];
    }
    r := Some(entities);
  }

  class TrainingCenterService {
    const repository: TrainingCenterRepository

    constructor (repository: TrainingCenterRepository)
      ensures this.repository == repository
    {
      this.repository := repository;
    }

    /**
     * Saves one request: converts it, lets the store persist it, and answers the
     * mapping of the entity the store returned, so the stored identity and time
     * are present. A request without an address fails before the store is touched.
     */
    method SaveTrainingCenter(dto: TrainingCenterRequest, now: Instant) returns (r: Result<TrainingCenterResponse, Exception>)
      requires repository.Valid()
      modifies repository
      ensures repository.Valid()
      ensures dto.address.None? ==> r == Failure(NullPointer) && unchanged(repository)
      ensures dto.address.Some? ==>
                var row := Persisted(ConvertToEntity(dto), old(repository.nextId), now);
                && r == Success(ConvertToResponseDto(row))
                && repository.rows == old(repository.rows) + [row]
                && repository.nextId == old(repository.nextId) + 1
    {
      if dto.address.None? {
        return Failure(NullPointer);
      }
      var entity := new TrainingCenter(ConvertToEntity(dto));
      var saved := repository.Save(entity, now);
      r := Success(ConvertToResponseDto(saved.State()));
    }

    /**
     * Saves a batch: converts every request first, so a null element or a request
     * without an address fails the whole batch before the store is touched; then lets the store persist
     * all of them and answers one response per saved entity, in the store's order.
     */
    method SaveAllTrainingCenters(dtos: seq<Option<TrainingCenterRequest>>, times: seq<Instant>)
      returns (r: Result<seq<TrainingCenterResponse>, Exception>)
      requires repository.Valid() && |times| == |dtos|
      modifies repository
      ensures repository.Valid()
      ensures !AllAddressed(dtos) ==> r == Failure(NullPointer) && unchanged(repository)
      ensures AllAddressed(dtos) ==>
                var rows := PersistedBatch(dtos, old(repository.nextId), times);
                && r == Success(MapToResponses(rows))
                && repository.rows == old(repository.rows) + rows
                && repository.nextId == old(repository.nextId) + |dtos|
    {
      var built := NewEntities(dtos);
      if built.None? {
        return Failure(NullPointer);
      }
      var entities := built.value;
      var saved := repository.SaveAll(entities, times);
      var states := seq(|saved|, i requires 0 <= i < |saved| reads saved => saved[i].State());
      ghost var rows := PersistedBatch(dtos, old(repository.nextId), times);
      assert forall i :: 0 <= i < |rows| ==> states[i] == rows[i];
      assert states == rows;
      r := Success(MapToResponses(states));
    }

    /** Every stored training center, one response per row, in the store's order. */
    function GetAllTrainingCenters(): (rs: seq<TrainingCenterResponse>)
      reads repository
      ensures |rs| == |repository.rows|
      ensures forall i :: 0 <= i < |rs| ==> StateOf(rs[i]) == repository.rows[i]
    {
      MapToResponses(repository.FindAll())
    }

    /** The store's filter query, given course, city and state unchanged, one response per row it returns. */
    function FilterTrainingCenters(course: Option<string>, city: Option<string>, state: Option<string>): (rs: seq<TrainingCenterResponse>)
      reads repository
      ensures var found := repository.filterQuery(course, city, state, repository.rows);
              && |rs| == |found|
              && forall i :: 0 <= i < |rs| ==> StateOf(rs[i]) == found[i]
    {
      MapToResponses(repository.FilterTrainingCenters(course, city, state))
    }
  }
}
