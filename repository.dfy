/**
 * The store behind the repository interface, modelled abstractly: a sequence of
 * persisted rows and an identity counter. Its filter query is a parameter of
 * the store, since its matching rule is not part of this model.
 */
module Repository {
  import opened Wrappers
  import opened Entity

  /** The store's filter query over course, city and state (each possibly null), applied to the stored rows. */
  type FilterQuery = (Option<string>, Option<string>, Option<string>, seq<TrainingCenterState>) -> seq<TrainingCenterState>

  /** `s` as persisted with identity `id` at time `now`. */
  function Persisted(s: TrainingCenterState, id: int, now: Instant): TrainingCenterState {
    s.(id := Some(id), createdOn := Some(now))
  }

  class TrainingCenterRepository {
    var rows: seq<TrainingCenterState>
    var nextId: int
    const filterQuery: FilterQuery

    /** Every row has a positive identity below the counter and a creation time; identities increase with insertion. */
    ghost predicate Valid()
      reads this
    {
      && 1 <= nextId
      && (forall i :: 0 <= i < |rows| ==>
            rows[i].id.Some? && 1 <= rows[i].id.value < nextId && rows[i].createdOn.Some?)
      && (forall i, j :: 0 <= i < j < |rows| ==> rows[i].id.value < rows[j].id.value)
    }

    constructor (filterQuery: FilterQuery)
      ensures Valid() && rows == [] && nextId == 1 && this.filterQuery == filterQuery
    {
      rows := [];
      nextId := 1;
      this.filterQuery := filterQuery;
    }

    /**
     * Persists a new entity in place: runs its pre-persist callback, gives it the
     * next identity and stores its row; the entity itself is returned.
     */
    method Save(e: TrainingCenter, now: Instant) returns (saved: TrainingCenter)
      requires Valid() && e.id.None?
      modifies this, e
      ensures Valid() && saved == e
      ensures e.State() == Persisted(old(e.State()), old(nextId), now)
      ensures rows == old(rows) + [e.State()] && nextId == old(nextId) + 1
      ensures forall i :: 0 <= i < |old(rows)| ==> old(rows)[i].id != e.id
    {
      e.PrePersist(now);
      e.SetId(nextId);
      rows := rows + [e.State()];
      nextId := nextId + 1;
      saved := e;
    }

    /** Persists distinct new entities in order, with consecutive identities, the i-th at time `times[i]`. */
    method SaveAll(es: seq<TrainingCenter>, times: seq<Instant>) returns (saved: seq<TrainingCenter>)
      requires Valid() && |times| == |es|
      requires forall i, j :: 0 <= i < j < |es| ==> es[i] != es[j]
      requires forall i :: 0 <= i < |es| ==> es[i].id.None?
      modifies this, es
      ensures Valid() && saved == es
      ensures nextId == old(nextId) + |es|
      ensures forall i :: 0 <= i < |es| ==> es[i].State() == Persisted(old(es[i].State()), old(nextId) + i, times[i])
      ensures |rows| == |old(rows)| + |es| && rows[..|old(rows)|] == old(rows)
      ensures forall i :: 0 <= i < |es| ==> rows[|old(rows)| + i] == es[i].State()
    {
      var i := 0;
      while i < |es|
        invariant 0 <= i <= |es|
        invariant Valid()
        invariant nextId == old(nextId) + i
        invariant forall j :: 0 <= j < i ==> es[j].State() == Persisted(old(es[j].State()), old(nextId) + j, times[j])
        invariant forall j :: i <= j < |es| ==> es[j].State() == old(es[j].State())
        invariant |rows| == |old(rows)| + i && rows[..|old(rows)|] == old(rows)
        invariant forall j :: 0 <= j < i ==> rows[|old(rows)| + j] == es[j].State()
      {
        var _ := Save(es[i], times[i]);
        i := i + 1;
      }
      saved := es;
    }

    /** All stored rows, in insertion order. */
    function FindAll(): seq<TrainingCenterState>
      reads this
    {
      rows
    }

    /** The store's filter query, given the three criteria unchanged. */
    function FilterTrainingCenters(course: Option<string>, city: Option<string>, state: Option<string>): seq<TrainingCenterState>
      reads this
    {
      filterQuery(course, city, state, rows)
    }
  }
}
