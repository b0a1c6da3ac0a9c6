/**
 * The address part of a create request and its validation rules: the four
 * fields of AddressRequestDTO with their constraint annotations.
 */
module AddressRequestRules {
  import opened Wrappers
  import opened Patterns
  import opened Constraints

  datatype AddressRequest = AddressRequest(
    detailedAddress: Option<string>,
    city: Option<string>,
    state: Option<string>,
    pincode: Option<string>)

  const DetailedAddressMandatory := "Detailed address is mandatory"
  const CityMandatory := "City is mandatory"
  const CityLettersOnly := "City must contain only letters and spaces"
  const StateMandatory := "State is mandatory"
  const StateLettersOnly := "State must contain only letters and spaces"
  const PincodeMandatory := "Pincode is mandatory"

  const DetailedAddressConstraints: seq<TextConstraint> := [NotBlank(DetailedAddressMandatory)]
  const CityConstraints: seq<TextConstraint> := [NotBlank(CityMandatory), Pattern(LettersAndSpaces, CityLettersOnly)]
  const StateConstraints: seq<TextConstraint> := [NotBlank(StateMandatory), Pattern(LettersAndSpaces, StateLettersOnly)]
  const PincodeConstraints: seq<TextConstraint> := [NotBlank(PincodeMandatory)]

  /** The failed constraints of each field of `a`, with field names written under `path` (such as "address."). */
  function AddressSections(path: string, a: AddressRequest): seq<Section> {
    [ Section(path + "detailedAddress", TextMessages(DetailedAddressConstraints, a.detailedAddress)),
      Section(path + "city", TextMessages(CityConstraints, a.city)),
      Section(path + "state", TextMessages(StateConstraints, a.state)),
      Section(path + "pincode", TextMessages(PincodeConstraints, a.pincode)) ]
  }

  /** Every violation of `a`; no failed constraint hides another. */
  function AddressViolations(path: string, a: AddressRequest): seq<Violation> {
    Report(AddressSections(path, a))
  }

  /** A value made only of ASCII letters and `\s`, with at least one letter. */
  predicate IsPlaceName(v: Option<string>) {
    v.Some? && !IsBlank(v) && IsLettersAndSpaces(v.value)
  }

  /** What an acceptable address is, field by field. */
  predicate AddressValid(a: AddressRequest) {
    && !IsBlank(a.detailedAddress)
    && IsPlaceName(a.city)
    && IsPlaceName(a.state)
    && !IsBlank(a.pincode)
  }

  /** The messages of a one- and a two-constraint field, spelled out. */
  lemma TextMessagesOne(c: TextConstraint, v: Option<string>)
    ensures TextMessages([c], v) == if TextHolds(c, v) then [] else [c.message]
  {
    assert [c][1..] == [];
  }

  lemma TextMessagesTwo(c: TextConstraint, d: TextConstraint, v: Option<string>)
    ensures TextMessages([c, d], v) ==
      (if TextHolds(c, v) then [] else [c.message]) + (if TextHolds(d, v) then [] else [d.message])
  {
    assert [c, d][1..] == [d];
    TextMessagesOne(d, v);
  }

  /** The messages of a place-name field: mandatory when blank, letters-only when present and not matching. */
  lemma PlaceNameMessages(mandatory: string, lettersOnly: string, v: Option<string>)
    ensures TextMessages([NotBlank(mandatory), Pattern(LettersAndSpaces, lettersOnly)], v) ==
      (if IsBlank(v) then [mandatory] else []) + (if v.Some? && !IsLettersAndSpaces(v.value) then [lettersOnly] else [])
  {
    TextMessagesTwo(NotBlank(mandatory), Pattern(LettersAndSpaces, lettersOnly), v);
  }

  lemma AddressSectionsDistinct(path: string, a: AddressRequest)
    ensures DistinctFields(AddressSections(path, a))
  {
  }

  /** The detailed address reports exactly the messages of its own constraint. */
  lemma DetailedAddressMessages(path: string, a: AddressRequest)
    ensures MessagesFor(AddressViolations(path, a), path + "detailedAddress")
      == if IsBlank(a.detailedAddress) then [DetailedAddressMandatory] else []
  {
    AddressSectionsDistinct(path, a);
    MessagesForReport(AddressSections(path, a), 0);
    TextMessagesOne(NotBlank(DetailedAddressMandatory), a.detailedAddress);
  }

  /** The city reports exactly the messages of its own two constraints. */
  lemma CityMessages(path: string, a: AddressRequest)
    ensures MessagesFor(AddressViolations(path, a), path + "city")
      == (if IsBlank(a.city) then [CityMandatory] else [])
         + (if a.city.Some? && !IsLettersAndSpaces(a.city.value) then [CityLettersOnly] else [])
  {
    AddressSectionsDistinct(path, a);
    MessagesForReport(AddressSections(path, a), 1);
    PlaceNameMessages(CityMandatory, CityLettersOnly, a.city);
  }

  /** The state reports exactly the messages of its own two constraints. */
  lemma StateMessages(path: string, a: AddressRequest)
    ensures MessagesFor(AddressViolations(path, a), path + "state")
      == (if IsBlank(a.state) then [StateMandatory] else [])
         + (if a.state.Some? && !IsLettersAndSpaces(a.state.value) then [StateLettersOnly] else [])
  {
    AddressSectionsDistinct(path, a);
    MessagesForReport(AddressSections(path, a), 2);
    PlaceNameMessages(StateMandatory, StateLettersOnly, a.state);
  }

  /** The pincode reports exactly the messages of its own constraint. */
  lemma PincodeMessages(path: string, a: AddressRequest)
    ensures MessagesFor(AddressViolations(path, a), path + "pincode")
      == if IsBlank(a.pincode) then [PincodeMandatory] else []
  {
    AddressSectionsDistinct(path, a);
    MessagesForReport(AddressSections(path, a), 3);
    TextMessagesOne(NotBlank(PincodeMandatory), a.pincode);
  }

  /** The collected violations are empty exactly for an acceptable address. */
  lemma AddressViolationsEmptyIff(path: string, a: AddressRequest)
    ensures AddressViolations(path, a) == [] <==> AddressValid(a)
  {
    var sections := AddressSections(path, a);
    ReportEmpty(sections);
    assert sections[0].messages == TextMessages(DetailedAddressConstraints, a.detailedAddress);
    assert sections[1].messages == TextMessages(CityConstraints, a.city);
    assert sections[2].messages == TextMessages(StateConstraints, a.state);
    assert sections[3].messages == TextMessages(PincodeConstraints, a.pincode);
    TextMessagesOne(NotBlank(DetailedAddressMandatory), a.detailedAddress);
    PlaceNameMessages(CityMandatory, CityLettersOnly, a.city);
    PlaceNameMessages(StateMandatory, StateLettersOnly, a.state);
    TextMessagesOne(NotBlank(PincodeMandatory), a.pincode);
  }

  /** A blank detailed address (null, empty or whitespace) is reported as mandatory, and only then. */
  lemma DetailedAddressRule(path: string, a: AddressRequest)
    ensures DetailedAddressMandatory in MessagesFor(AddressViolations(path, a), path + "detailedAddress")
            <==> IsBlank(a.detailedAddress)
    ensures MessagesFor(AddressViolations(path, a), path + "detailedAddress") == []
            <==> !IsBlank(a.detailedAddress)
  {
    DetailedAddressMessages(path, a);
  }

  /** City is accepted exactly when it is a present, non-blank run of letters and `\s`. */
  lemma CityRule(path: string, a: AddressRequest)
    ensures MessagesFor(AddressViolations(path, a), path + "city") == [] <==> IsPlaceName(a.city)
    ensures CityMandatory in MessagesFor(AddressViolations(path, a), path + "city") <==> IsBlank(a.city)
    ensures CityLettersOnly in MessagesFor(AddressViolations(path, a), path + "city")
            <==> a.city.Some? && !IsLettersAndSpaces(a.city.value)
  {
    CityMessages(path, a);
  }

  /** State obeys the same two rules as city, with its own messages. */
  lemma StateRule(path: string, a: AddressRequest)
    ensures MessagesFor(AddressViolations(path, a), path + "state") == [] <==> IsPlaceName(a.state)
    ensures StateMandatory in MessagesFor(AddressViolations(path, a), path + "state") <==> IsBlank(a.state)
    ensures StateLettersOnly in MessagesFor(AddressViolations(path, a), path + "state")
            <==> a.state.Some? && !IsLettersAndSpaces(a.state.value)
  {
    StateMessages(path, a);
  }

  /** "New York" is a city; "New York 2" is reported only as not letters and spaces. */
  lemma CityExamples(path: string, a: AddressRequest)
    ensures a.city == Some("New York") ==> MessagesFor(AddressViolations(path, a), path + "city") == []
    ensures a.city == Some("New York 2") ==>
      MessagesFor(AddressViolations(path, a), path + "city") == [CityLettersOnly]
  {
    CityMessages(path, a);
    NewYorkIsPlaceName();
    NewYorkTwoIsNotPlaceName();
  }

  lemma NewYorkIsPlaceName()
    ensures IsPlaceName(Some("New York"))
  {
    var s := "New York";
    assert s[0] > ' ';
    assert forall i :: 0 <= i < |s| ==> IsAsciiLetter(s[i]) || IsRegexSpace(s[i]);
  }

  lemma NewYorkTwoIsNotPlaceName()
    ensures !IsBlank(Some("New York 2")) && !IsLettersAndSpaces("New York 2")
  {
    var s := "New York 2";
    assert s[0] > ' ';
    assert !IsAsciiLetter(s[9]) && !IsRegexSpace(s[9]);
  }

  /** A digit anywhere in a present city is reported by the letters-and-spaces rule. */
  lemma CityWithDigitRejected(path: string, a: AddressRequest, i: nat)
    requires a.city.Some? && i < |a.city.value| && IsAsciiDigit(a.city.value[i])
    ensures CityLettersOnly in MessagesFor(AddressViolations(path, a), path + "city")
  {
    CityRule(path, a);
  }

  /**
   * A whitespace-only city or state satisfies the letters-and-spaces pattern and is
   * reported only as mandatory; the empty string breaks both rules.
   */
  lemma WhitespaceOnlyPlaceNames(v: Option<string>)
    requires v.Some? && AllSpaces(v.value)
    ensures v.value != [] ==> TextMessages(CityConstraints, v) == [CityMandatory]
    ensures v.value != [] ==> TextMessages(StateConstraints, v) == [StateMandatory]
    ensures v.value == [] ==> TextMessages(CityConstraints, v) == [CityMandatory, CityLettersOnly]
    ensures v.value == [] ==> TextMessages(StateConstraints, v) == [StateMandatory, StateLettersOnly]
  {
    PlaceNameMessages(CityMandatory, CityLettersOnly, v);
    PlaceNameMessages(StateMandatory, StateLettersOnly, v);
  }

  /** Pincode only has to be non-blank: "10001" and any other non-blank value pass. */
  lemma PincodeRule(path: string, a: AddressRequest)
    ensures MessagesFor(AddressViolations(path, a), path + "pincode") == [] <==> !IsBlank(a.pincode)
    ensures a.pincode == Some("10001") ==> MessagesFor(AddressViolations(path, a), path + "pincode") == []
  {
    PincodeMessages(path, a);
    assert "10001"[0] > ' ';
  }
}
