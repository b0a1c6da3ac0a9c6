/**
 * The create request of a training center and its validation rules: the fields
 * of TrainingCenterRequestDTO with their constraint annotations, and the
 * collection of every violation of a request.
 */
module CenterRequestRules {
  import opened Wrappers
  import opened Patterns
  import opened Constraints
  import opened AddressRequestRules

  datatype TrainingCenterRequest = TrainingCenterRequest(
    centerName: Option<string>,
    centerCode: Option<string>,
    studentCapacity: Option<int>,
    coursesOffered: Option<seq<string>>,
    contactEmail: Option<string>,
    contactPhone: Option<string>,
    address: Option<AddressRequest>)

  const CenterNameMandatory := "Center name is mandatory"
  const CenterNameTooLong := "Center name should be less than 40 characters"
  const CenterCodeMandatory := "Center code is mandatory"
  const CenterCodeShape := "Center code must be exactly 12 alphanumeric characters"
  const CapacityNull := "Student capacity cannot be null"
  const CapacityTooSmall := "Student capacity must be at least 1"
  const EmailInvalid := "Invalid email format"
  const PhoneMandatory := "Contact phone is mandatory"
  const PhoneInvalid := "Invalid phone number format"

  const CenterNameConstraints: seq<TextConstraint> := [NotBlank(CenterNameMandatory), Length(40, CenterNameTooLong)]
  const CenterCodeConstraints: seq<TextConstraint> := [NotBlank(CenterCodeMandatory), Pattern(AlphanumericCode, CenterCodeShape)]
  const StudentCapacityConstraints: seq<NumberConstraint> := [NotNull(CapacityNull), Min(1, CapacityTooSmall)]
  const ContactPhoneConstraints: seq<TextConstraint> := [NotBlank(PhoneMandatory), Pattern(IndianMobile, PhoneInvalid)]

  /** `@Email`, whose syntax check `isEmail` belongs to the validator implementation. */
  function ContactEmailConstraints(isEmail: string -> bool): seq<TextConstraint> {
    [Email(isEmail, EmailInvalid)]
  }

  /** The failed constraints of each field of the request itself; `coursesOffered` has none. */
  function CenterSections(r: TrainingCenterRequest, isEmail: string -> bool): seq<Section> {
    [ Section("centerName", TextMessages(CenterNameConstraints, r.centerName)),
      Section("centerCode", TextMessages(CenterCodeConstraints, r.centerCode)),
      Section("studentCapacity", NumberMessages(StudentCapacityConstraints, r.studentCapacity)),
      Section("contactEmail", TextMessages(ContactEmailConstraints(isEmail), r.contactEmail)),
      Section("contactPhone", TextMessages(ContactPhoneConstraints, r.contactPhone)) ]
  }

  /** `@Valid` cascades into the address only when one is present. */
  function RequestSections(r: TrainingCenterRequest, isEmail: string -> bool): seq<Section> {
    CenterSections(r, isEmail) + (if r.address.Some? then AddressSections("address.", r.address.value) else [])
  }

  /** Every violation of a request, collected rather than stopping at the first. */
  function Violations(r: TrainingCenterRequest, isEmail: string -> bool): seq<Violation> {
    Report(RequestSections(r, isEmail))
  }

  /** What acceptable values of the request's own fields are. */
  predicate CenterFieldsValid(r: TrainingCenterRequest, isEmail: string -> bool) {
    && !IsBlank(r.centerName) && |r.centerName.value| <= 40
    && r.centerCode.Some? && IsCenterCode(r.centerCode.value)
    && r.studentCapacity.Some? && r.studentCapacity.value >= 1
    && (r.contactEmail.None? || isEmail(r.contactEmail.value))
    && r.contactPhone.Some? && MatchesPhone(r.contactPhone.value)
  }

  /** What an acceptable request is: acceptable fields, and an acceptable address if one is given. */
  predicate RequestValid(r: TrainingCenterRequest, isEmail: string -> bool) {
    CenterFieldsValid(r, isEmail) && (r.address.Some? ==> AddressValid(r.address.value))
  }

  const CenterFieldNames: seq<string> := ["centerName", "centerCode", "studentCapacity", "contactEmail", "contactPhone"]

  lemma CenterFieldNamesDistinct()
    ensures forall i, j :: 0 <= i < j < |CenterFieldNames| ==> CenterFieldNames[i] != CenterFieldNames[j]
    ensures forall i :: 0 <= i < |CenterFieldNames| ==> |CenterFieldNames[i]| < 8 || CenterFieldNames[i][..8] != "address."
  {
    var names := CenterFieldNames;
    assert names[0][6] != names[1][6] && names[3][7] != names[4][7];
    forall i, j | 0 <= i < j < |names| ensures names[i] != names[j] {
      assert |names[i]| != |names[j]| || names[i][6] != names[j][6] || names[i][7] != names[j][7];
    }
    forall i | 0 <= i < |names| ensures names[i][0] != 'a' {
    }
  }

  lemma RequestSectionsDistinct(r: TrainingCenterRequest, isEmail: string -> bool)
    ensures DistinctFields(RequestSections(r, isEmail))
  {
    var c := CenterSections(r, isEmail);
    CenterSectionsDistinct(r, isEmail);
    if r.address.Some? {
      var a := AddressSections("address.", r.address.value);
      AddressSectionsDistinct("address.", r.address.value);
      CenterAndAddressNamesDiffer(r, isEmail);
      DistinctFieldsConcat(c, a);
    } else {
      assert RequestSections(r, isEmail) == c + [];
      assert c + [] == c;
    }
  }

  lemma CenterSectionsDistinct(r: TrainingCenterRequest, isEmail: string -> bool)
    ensures DistinctFields(CenterSections(r, isEmail))
  {
    var c := CenterSections(r, isEmail);
    CenterFieldNamesDistinct();
    forall k | 0 <= k < 5 ensures c[k].field == CenterFieldNames[k] {
    }
  }

  lemma CenterAndAddressNamesDiffer(r: TrainingCenterRequest, isEmail: string -> bool)
    requires r.address.Some?
    ensures var c := CenterSections(r, isEmail);
            var a := AddressSections("address.", r.address.value);
            forall i, j :: 0 <= i < |c| && 0 <= j < |a| ==> c[i].field != a[j].field
  {
    var c := CenterSections(r, isEmail);
    var a := AddressSections("address.", r.address.value);
    CenterFieldNamesDistinct();
    forall i, j | 0 <= i < |c| && 0 <= j < |a| ensures c[i].field != a[j].field {
      assert c[i].field == CenterFieldNames[i];
      assert |a[j].field| >= 8 && a[j].field[..8] == "address.";
    }
  }

  lemma NumberMessagesOne(c: NumberConstraint, v: Option<int>)
    ensures NumberMessages([c], v) == if NumberHolds(c, v) then [] else [c.message]
  {
    assert [c][1..] == [];
  }

  lemma NumberMessagesTwo(c: NumberConstraint, d: NumberConstraint, v: Option<int>)
    ensures NumberMessages([c, d], v) ==
      (if NumberHolds(c, v) then [] else [c.message]) + (if NumberHolds(d, v) then [] else [d.message])
  {
    assert [c, d][1..] == [d];
    NumberMessagesOne(d, v);
  }

  /** A 12-character alphanumeric code is never blank. */
  lemma CenterCodeNotBlank(s: string)
    requires IsCenterCode(s)
    ensures !IsBlank(Some(s))
  {
    assert !(s[0] <= ' ');
  }

  /** A matching phone number is never blank. */
  lemma PhoneNotBlank(s: string)
    requires MatchesPhone(s)
    ensures !IsBlank(Some(s))
  {
    assert s[|s| - 10..][0] == s[|s| - 10];
  }

  /** Center name: mandatory, and at most 40 characters even though the message says "less than 40". */
  lemma CenterNameMessages(r: TrainingCenterRequest, isEmail: string -> bool)
    ensures MessagesFor(Violations(r, isEmail), "centerName")
      == (if IsBlank(r.centerName) then [CenterNameMandatory] else [])
         + (if r.centerName.Some? && |r.centerName.value| > 40 then [CenterNameTooLong] else [])
  {
    RequestSectionsDistinct(r, isEmail);
    MessagesForReport(RequestSections(r, isEmail), 0);
    TextMessagesTwo(NotBlank(CenterNameMandatory), Length(40, CenterNameTooLong), r.centerName);
  }

  /** Center code: mandatory, and exactly 12 ASCII letters or digits. */
  lemma CenterCodeMessages(r: TrainingCenterRequest, isEmail: string -> bool)
    ensures MessagesFor(Violations(r, isEmail), "centerCode")
      == (if IsBlank(r.centerCode) then [CenterCodeMandatory] else [])
         + (if r.centerCode.Some? && !IsCenterCode(r.centerCode.value) then [CenterCodeShape] else [])
  {
    RequestSectionsDistinct(r, isEmail);
    MessagesForReport(RequestSections(r, isEmail), 1);
    TextMessagesTwo(NotBlank(CenterCodeMandatory), Pattern(AlphanumericCode, CenterCodeShape), r.centerCode);
  }

  /** Student capacity: null is reported as null only, a value below 1 as too small only. */
  lemma StudentCapacityMessages(r: TrainingCenterRequest, isEmail: string -> bool)
    ensures MessagesFor(Violations(r, isEmail), "studentCapacity")
      == if r.studentCapacity.None? then [CapacityNull]
         else if r.studentCapacity.value < 1 then [CapacityTooSmall]
         else []
  {
    RequestSectionsDistinct(r, isEmail);
    MessagesForReport(RequestSections(r, isEmail), 2);
    NumberMessagesTwo(NotNull(CapacityNull), Min(1, CapacityTooSmall), r.studentCapacity);
  }

  /** Contact email: optional; a present value is checked by the email syntax only. */
  lemma ContactEmailMessages(r: TrainingCenterRequest, isEmail: string -> bool)
    ensures MessagesFor(Violations(r, isEmail), "contactEmail")
      == if r.contactEmail.Some? && !isEmail(r.contactEmail.value) then [EmailInvalid] else []
  {
    RequestSectionsDistinct(r, isEmail);
    MessagesForReport(RequestSections(r, isEmail), 3);
    TextMessagesOne(Email(isEmail, EmailInvalid), r.contactEmail);
  }

  /** Contact phone: mandatory, and matching the Indian mobile pattern. */
  lemma ContactPhoneMessages(r: TrainingCenterRequest, isEmail: string -> bool)
    ensures MessagesFor(Violations(r, isEmail), "contactPhone")
      == (if IsBlank(r.contactPhone) then [PhoneMandatory] else [])
         + (if r.contactPhone.Some? && !MatchesPhone(r.contactPhone.value) then [PhoneInvalid] else [])
  {
    RequestSectionsDistinct(r, isEmail);
    MessagesForReport(RequestSections(r, isEmail), 4);
    TextMessagesTwo(NotBlank(PhoneMandatory), Pattern(IndianMobile, PhoneInvalid), r.contactPhone);
  }

  /** The violations split into those of the request's own fields and those of its address. */
  lemma ViolationsSplit(r: TrainingCenterRequest, isEmail: string -> bool)
    ensures Violations(r, isEmail) == Report(CenterSections(r, isEmail))
      + (if r.address.Some? then AddressViolations("address.", r.address.value) else [])
  {
    var a := if r.address.Some? then AddressSections("address.", r.address.value) else [];
    ReportConcat(CenterSections(r, isEmail), a);
  }

  lemma CenterSectionsEmptyIff(r: TrainingCenterRequest, isEmail: string -> bool)
    ensures Report(CenterSections(r, isEmail)) == [] <==> CenterFieldsValid(r, isEmail)
  {
    var c := CenterSections(r, isEmail);
    assert c[0].messages == [] <==> !IsBlank(r.centerName) && |r.centerName.value| <= 40 by {
      CenterNameAccepted(r.centerName);
    }
    assert c[1].messages == [] <==> r.centerCode.Some? && IsCenterCode(r.centerCode.value) by {
      CenterCodeAccepted(r.centerCode);
    }
    assert c[2].messages == [] <==> r.studentCapacity.Some? && r.studentCapacity.value >= 1 by {
      StudentCapacityAccepted(r.studentCapacity);
    }
    assert c[3].messages == [] <==> r.contactEmail.None? || isEmail(r.contactEmail.value) by {
      TextMessagesOne(Email(isEmail, EmailInvalid), r.contactEmail);
    }
    assert c[4].messages == [] <==> r.contactPhone.Some? && MatchesPhone(r.contactPhone.value) by {
      ContactPhoneAccepted(r.contactPhone);
    }
    FiveSectionsEmpty(c);
  }

  lemma FiveSectionsEmpty(c: seq<Section>)
    requires |c| == 5
    ensures Report(c) == [] <==>
      && c[0].messages == [] && c[1].messages == [] && c[2].messages == []
      && c[3].messages == [] && c[4].messages == []
  {
    ReportEmpty(c);
  }

  lemma CenterNameAccepted(v: Option<string>)
    ensures TextMessages(CenterNameConstraints, v) == [] <==> !IsBlank(v) && |v.value| <= 40
  {
    TextMessagesTwo(NotBlank(CenterNameMandatory), Length(40, CenterNameTooLong), v);
  }

  lemma CenterCodeAccepted(v: Option<string>)
    ensures TextMessages(CenterCodeConstraints, v) == [] <==> v.Some? && IsCenterCode(v.value)
  {
    TextMessagesTwo(NotBlank(CenterCodeMandatory), Pattern(AlphanumericCode, CenterCodeShape), v);
    if v.Some? && IsCenterCode(v.value) {
      CenterCodeNotBlank(v.value);
    }
  }

  lemma StudentCapacityAccepted(v: Option<int>)
    ensures NumberMessages(StudentCapacityConstraints, v) == [] <==> v.Some? && v.value >= 1
  {
    NumberMessagesTwo(NotNull(CapacityNull), Min(1, CapacityTooSmall), v);
  }

  lemma ContactPhoneAccepted(v: Option<string>)
    ensures TextMessages(ContactPhoneConstraints, v) == [] <==> v.Some? && MatchesPhone(v.value)
  {
    TextMessagesTwo(NotBlank(PhoneMandatory), Pattern(IndianMobile, PhoneInvalid), v);
    if v.Some? && MatchesPhone(v.value) {
      PhoneNotBlank(v.value);
    }
  }

  /** No violation is collected exactly when the request is acceptable. */
  lemma ViolationsEmptyIffValid(r: TrainingCenterRequest, isEmail: string -> bool)
    ensures Violations(r, isEmail) == [] <==> RequestValid(r, isEmail)
  {
    ViolationsSplit(r, isEmail);
    CenterSectionsEmptyIff(r, isEmail);
    if r.address.Some? {
      AddressViolationsEmptyIff("address.", r.address.value);
    }
  }

  /** A name of exactly 40 characters is accepted although the message speaks of "less than 40". */
  lemma CenterNameOfFortyAccepted(r: TrainingCenterRequest, isEmail: string -> bool)
    requires r.centerName.Some? && !IsBlank(r.centerName)
    ensures |r.centerName.value| <= 40 <==> MessagesFor(Violations(r, isEmail), "centerName") == []
    ensures |r.centerName.value| == 41 ==> MessagesFor(Violations(r, isEmail), "centerName") == [CenterNameTooLong]
  {
    CenterNameMessages(r, isEmail);
  }

  /** "ABC123456789" is a center code; 11 or 13 characters, or a character that is no ASCII letter or digit, is not. */
  lemma CenterCodeExamples(r: TrainingCenterRequest, isEmail: string -> bool)
    ensures r.centerCode == Some("ABC123456789") ==> MessagesFor(Violations(r, isEmail), "centerCode") == []
    ensures r.centerCode.Some? && !IsBlank(r.centerCode) && |r.centerCode.value| in {11, 13}
            ==> MessagesFor(Violations(r, isEmail), "centerCode") == [CenterCodeShape]
    ensures r.centerCode.Some? && !IsBlank(r.centerCode) && HasNonAlphanumeric(r.centerCode.value)
            ==> MessagesFor(Violations(r, isEmail), "centerCode") == [CenterCodeShape]
  {
    CenterCodeMessages(r, isEmail);
    var code := "ABC123456789";
    assert IsCenterCode(code) by {
      assert forall i :: 0 <= i < |code| ==> IsAsciiLetter(code[i]) || IsAsciiDigit(code[i]);
    }
    CenterCodeNotBlank(code);
  }

  predicate HasNonAlphanumeric(s: string) {
    exists i :: 0 <= i < |s| && !IsAsciiLetter(s[i]) && !IsAsciiDigit(s[i])
  }

  /** coursesOffered carries no constraint: nothing is ever reported under its name. */
  lemma CoursesOfferedUnconstrained(r: TrainingCenterRequest, isEmail: string -> bool)
    ensures MessagesFor(Violations(r, isEmail), "coursesOffered") == []
  {
    var s := RequestSections(r, isEmail);
    var c := CenterSections(r, isEmail);
    CenterSectionsNotCourses(r, isEmail);
    if r.address.Some? {
      var a := AddressSections("address.", r.address.value);
      AddressSectionsNotCourses(r.address.value);
      forall k | 0 <= k < |s| ensures s[k].field != "coursesOffered" {
        if k < |c| {
          assert s[k] == c[k];
        } else {
          assert s[k] == a[k - |c|];
        }
      }
    } else {
      assert s == c + [] == c;
    }
    MessagesForReportAbsent(s, "coursesOffered");
  }

  lemma CenterSectionsNotCourses(r: TrainingCenterRequest, isEmail: string -> bool)
    ensures forall k :: 0 <= k < |CenterSections(r, isEmail)| ==> CenterSections(r, isEmail)[k].field != "coursesOffered"
  {
    var c := CenterSections(r, isEmail);
    forall k | 0 <= k < |c| ensures c[k].field != "coursesOffered" {
      assert c[k].field == CenterFieldNames[k];
      assert |c[k].field| != |"coursesOffered"|;
    }
  }

  lemma AddressSectionsNotCourses(a: AddressRequest)
    ensures forall k :: 0 <= k < |AddressSections("address.", a)| ==> AddressSections("address.", a)[k].field != "coursesOffered"
  {
    var s := AddressSections("address.", a);
    forall k | 0 <= k < |s| ensures s[k].field != "coursesOffered" {
      assert s[k].field[0] == 'a';
    }
  }

  /** A null contactEmail is valid: `@Email` accepts null and nothing else constrains the field. */
  lemma NullEmailAccepted(r: TrainingCenterRequest, isEmail: string -> bool)
    requires r.contactEmail.None?
    ensures MessagesFor(Violations(r, isEmail), "contactEmail") == []
  {
    ContactEmailMessages(r, isEmail);
  }

  /** The phone is accepted exactly when present and matching the Indian mobile pattern. */
  lemma ContactPhoneRule(r: TrainingCenterRequest, isEmail: string -> bool)
    ensures MessagesFor(Violations(r, isEmail), "contactPhone") == []
            <==> r.contactPhone.Some? && MatchesPhone(r.contactPhone.value)
  {
    ContactPhoneMessages(r, isEmail);
    if r.contactPhone.Some? && MatchesPhone(r.contactPhone.value) {
      PhoneNotBlank(r.contactPhone.value);
    }
  }

  /**
   * `@Valid` without `@NotNull`: the address fields are reported as the address
   * rules say when an address is present, and nothing is reported under
   * "address." when it is absent.
   */
  lemma AddressCascade(r: TrainingCenterRequest, isEmail: string -> bool, field: string)
    ensures MessagesFor(Violations(r, isEmail), "address." + field)
      == if r.address.Some? then MessagesFor(AddressViolations("address.", r.address.value), "address." + field) else []
  {
    var f := "address." + field;
    ViolationsSplit(r, isEmail);
    var c := CenterSections(r, isEmail);
    CenterFieldNamesDistinct();
    assert forall k :: 0 <= k < 5 ==> c[k].field == CenterFieldNames[k];
    assert f[..8] == "address.";
    MessagesForReportAbsent(c, f);
    var a := if r.address.Some? then AddressViolations("address.", r.address.value) else [];
    MessagesForConcat(Report(c), a, f);
  }

  /** Violations of several fields are all reported together: collection is not fail-fast. */
  lemma CollectsEveryViolation(r: TrainingCenterRequest, isEmail: string -> bool)
    requires r.centerName.Some? && |r.centerName.value| > 40
    requires r.studentCapacity.Some? && r.studentCapacity.value < 1
    ensures Violation("centerName", CenterNameTooLong) in Violations(r, isEmail)
    ensures Violation("studentCapacity", CapacityTooSmall) in Violations(r, isEmail)
  {
    CenterNameMessages(r, isEmail);
    StudentCapacityMessages(r, isEmail);
    MessagesForMember(Violations(r, isEmail), "centerName", CenterNameTooLong);
    MessagesForMember(Violations(r, isEmail), "studentCapacity", CapacityTooSmall);
  }
}
