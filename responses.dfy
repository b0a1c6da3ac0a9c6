/** The records the registry answers with: a training center as stored, with its identity and creation time. */
module Responses {
  import opened Wrappers
  import opened Entity

  datatype AddressResponse = AddressResponse(
    detailedAddress: Option<string>,
    city: Option<string>,
    state: Option<string>,
    pincode: Option<string>)

  datatype TrainingCenterResponse = TrainingCenterResponse(
    id: Option<int>,
    centerName: Option<string>,
    centerCode: Option<string>,
    studentCapacity: Option<int>,
    coursesOffered: Option<seq<string>>,
    contactEmail: Option<string>,
    contactPhone: Option<string>,
    address: AddressResponse,
    createdOn: Option<Instant>)
}
