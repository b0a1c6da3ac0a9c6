/**
 * The persisted training center: an object whose fields the persistence
 * callback and the store update in place, and the value of those fields.
 */
module Entity {
  import opened Wrappers

  /** A point on the server clock, in some fixed unit since a fixed epoch. */
  type Instant = int

  /** The embedded address: a value owned by exactly one training center. */
  datatype Address = Address(
    detailedAddress: Option<string>,
    city: Option<string>,
    state: Option<string>,
    pincode: Option<string>)

  /** The values of all fields of a training center; `id` and `createdOn` are null until it is persisted. */
  datatype TrainingCenterState = TrainingCenterState(
    id: Option<int>,
    centerName: Option<string>,
    centerCode: Option<string>,
    studentCapacity: Option<int>,
    coursesOffered: Option<seq<string>>,
    contactEmail: Option<string>,
    contactPhone: Option<string>,
    address: Address,
    createdOn: Option<Instant>)

  class TrainingCenter {
    var id: Option<int>
    var centerName: Option<string>
    var centerCode: Option<string>
    var studentCapacity: Option<int>
    var coursesOffered: Option<seq<string>>
    var contactEmail: Option<string>
    var contactPhone: Option<string>
    var address: Address
    var createdOn: Option<Instant>

    function State(): TrainingCenterState
      reads this
    {
      TrainingCenterState(id, centerName, centerCode, studentCapacity, coursesOffered,
                          contactEmail, contactPhone, address, createdOn)
    }

    /** The builder: every field set from `s`. */
    constructor (s: TrainingCenterState)
      ensures State() == s
    {
      id := s.id;
      centerName := s.centerName;
      centerCode := s.centerCode;
      studentCapacity := s.studentCapacity;
      coursesOffered := s.coursesOffered;
      contactEmail := s.contactEmail;
      contactPhone := s.contactPhone;
      address := s.address;
      createdOn := s.createdOn;
    }

    /** The pre-persist callback: stamps the creation time, replacing any earlier one, and touches nothing else. */
    method PrePersist(now: Instant)
      modifies this
      ensures createdOn == Some(now)
      ensures State() == old(State()).(createdOn := Some(now))
    {
      createdOn := Some(now);
    }

    /** The setter the store uses to write the generated identity. */
    method SetId(generated: int)
      modifies this
      ensures State() == old(State()).(id := Some(generated))
    {
      id := Some(generated);
    }
  }
}
