/**
 * The Jakarta Bean Validation constraints the request objects use, each as a
 * predicate over a possibly-null field value, and the collection of every
 * failed constraint of a field as (field, message) violations.
 */
module Constraints {
  import opened Wrappers
  import opened Patterns

  /** One reported field error: the field (or property path) and its message. */
  datatype Violation = Violation(field: string, message: string)

  /** `@NotBlank` fails on null and on every value that String.trim() empties: all characters at most U+0020. */
  predicate IsBlank(v: Option<string>) {
    v.None? || forall i :: 0 <= i < |v.value| ==> v.value[i] <= ' '
  }

  datatype TextPattern = LettersAndSpaces | AlphanumericCode | IndianMobile

  predicate Matches(p: TextPattern, s: string) {
    match p
    case LettersAndSpaces => IsLettersAndSpaces(s)
    case AlphanumericCode => IsCenterCode(s)
    case IndianMobile => MatchesPhone(s)
  }

  /** Constraints on a String field. The syntax check of `@Email` is a parameter. */
  datatype TextConstraint =
    | NotBlank(message: string)
    | Pattern(pattern: TextPattern, message: string)
    | Length(max: nat, message: string)
    | Email(isEmail: string -> bool, message: string)

  /** Constraints on an Integer field. */
  datatype NumberConstraint =
    | NotNull(message: string)
    | Min(bound: int, message: string)

  /** Only `@NotBlank` rejects null; `@Pattern`, `@Length` and `@Email` accept it. */
  predicate TextHolds(c: TextConstraint, v: Option<string>) {
    match c
    case NotBlank(_) => !IsBlank(v)
    case Pattern(p, _) => v.None? || Matches(p, v.value)
    case Length(max, _) => v.None? || |v.value| <= max
    case Email(isEmail, _) => v.None? || isEmail(v.value)
  }

  /** Only `@NotNull` rejects null; `@Min` accepts it. */
  predicate NumberHolds(c: NumberConstraint, v: Option<int>) {
    match c
    case NotNull(_) => v.Some?
    case Min(bound, _) => v.None? || v.value >= bound
  }

  /** The messages of the constraints in `cs` that fail, in declaration order; none is skipped. */
  function FailedMessages<C>(cs: seq<C>, holds: C -> bool, message: C -> string): (r: seq<string>)
    ensures |r| <= |cs|
    ensures r == [] <==> forall i :: 0 <= i < |cs| ==> holds(cs[i])
  {
    if cs == [] then []
    else
      var rest := FailedMessages(cs[1..], holds, message);
      assert forall i :: 1 <= i < |cs| ==> cs[i] == cs[1..][i - 1];
      (if holds(cs[0]) then [] else [message(cs[0])]) + rest
  }

  /** Every failed constraint is reported, and every reported message is that of a failed constraint. */
  lemma {:induction false} FailedMessagesComplete<C>(cs: seq<C>, holds: C -> bool, message: C -> string)
    ensures forall i :: 0 <= i < |cs| && !holds(cs[i]) ==> message(cs[i]) in FailedMessages(cs, holds, message)
    ensures forall m :: m in FailedMessages(cs, holds, message) ==>
      exists i :: 0 <= i < |cs| && !holds(cs[i]) && message(cs[i]) == m
  {
    if cs != [] {
      FailedMessagesComplete(cs[1..], holds, message);
      assert forall i :: 1 <= i < |cs| ==> cs[i] == cs[1..][i - 1];
      var r := FailedMessages(cs, holds, message);
      forall m | m in r
        ensures exists i :: 0 <= i < |cs| && !holds(cs[i]) && message(cs[i]) == m
      {
        if !(m in FailedMessages(cs[1..], holds, message)) {
          assert !holds(cs[0]) && message(cs[0]) == m;
        } else {
          var i :| 0 <= i < |cs[1..]| && !holds(cs[1..][i]) && message(cs[1..][i]) == m;
          assert cs[1..][i] == cs[i + 1];
        }
      }
    }
  }

  function TextMessages(cs: seq<TextConstraint>, v: Option<string>): seq<string> {
    FailedMessages(cs, c => TextHolds(c, v), (c: TextConstraint) => c.message)
  }

  function NumberMessages(cs: seq<NumberConstraint>, v: Option<int>): seq<string> {
    FailedMessages(cs, c => NumberHolds(c, v), (c: NumberConstraint) => c.message)
  }

  /** The messages reported under one field name. */
  function Tag(field: string, messages: seq<string>): (r: seq<Violation>)
    ensures |r| == |messages|
    ensures forall i :: 0 <= i < |r| ==> r[i] == Violation(field, messages[i])
  {
    if messages == [] then [] else [Violation(field, messages[0])] + Tag(field, messages[1..])
  }

  /** The messages reported for `field`, in report order. */
  function MessagesFor(vs: seq<Violation>, field: string): (r: seq<string>)
    ensures |r| <= |vs|
  {
    if vs == [] then []
    else (if vs[0].field == field then [vs[0].message] else []) + MessagesFor(vs[1..], field)
  }

  /** A message reported for a field comes from a violation of that field. */
  lemma {:induction false} MessagesForMember(vs: seq<Violation>, field: string, message: string)
    ensures message in MessagesFor(vs, field) <==> Violation(field, message) in vs
  {
    if vs != [] {
      MessagesForMember(vs[1..], field, message);
      assert vs == [vs[0]] + vs[1..];
    }
  }

  lemma {:induction false} MessagesForConcat(a: seq<Violation>, b: seq<Violation>, field: string)
    ensures MessagesFor(a + b, field) == MessagesFor(a, field) + MessagesFor(b, field)
  {
    if a == [] {
      assert a + b == b;
    } else {
      var head := if a[0].field == field then [a[0].message] else [];
      assert (a + b)[0] == a[0];
      assert (a + b)[1..] == a[1..] + b;
      MessagesForConcat(a[1..], b, field);
      calc {
        MessagesFor(a + b, field);
        head + MessagesFor(a[1..] + b, field);
        head + (MessagesFor(a[1..], field) + MessagesFor(b, field));
        (head + MessagesFor(a[1..], field)) + MessagesFor(b, field);
        MessagesFor(a, field) + MessagesFor(b, field);
      }
    }
  }

  lemma {:induction false} MessagesForTag(tagged: string, messages: seq<string>, field: string)
    ensures MessagesFor(Tag(tagged, messages), field) == if tagged == field then messages else []
  {
    if messages != [] {
      MessagesForTag(tagged, messages[1..], field);
    }
  }

  /** The messages of one field, to be reported under its name. */
  datatype Section = Section(field: string, messages: seq<string>)

  /** The violations of several fields, field after field. */
  function Report(sections: seq<Section>): seq<Violation> {
    if sections == [] then [] else Tag(sections[0].field, sections[0].messages) + Report(sections[1..])
  }

  predicate DistinctFields(sections: seq<Section>) {
    forall i, j :: 0 <= i < j < |sections| ==> sections[i].field != sections[j].field
  }

  /** Two lists of sections with distinct names, and no name shared between them, have distinct names together. */
  lemma DistinctFieldsConcat(a: seq<Section>, b: seq<Section>)
    requires DistinctFields(a) && DistinctFields(b)
    requires forall i, j :: 0 <= i < |a| && 0 <= j < |b| ==> a[i].field != b[j].field
    ensures DistinctFields(a + b)
  {
    var s := a + b;
    forall i, j | 0 <= i < j < |s| ensures s[i].field != s[j].field {
      if j < |a| {
        assert s[i] == a[i] && s[j] == a[j];
      } else if i < |a| {
        assert s[i] == a[i] && s[j] == b[j - |a|];
      } else {
        assert s[i] == b[i - |a|] && s[j] == b[j - |a|];
      }
    }
  }

  lemma {:induction false} ReportConcat(a: seq<Section>, b: seq<Section>)
    ensures Report(a + b) == Report(a) + Report(b)
  {
    if a == [] {
      assert a + b == b;
    } else {
      assert (a + b)[1..] == a[1..] + b;
      ReportConcat(a[1..], b);
    }
  }

  /** A report is empty exactly when no field has a message. */
  lemma {:induction false} ReportEmpty(sections: seq<Section>)
    ensures Report(sections) == [] <==> forall i :: 0 <= i < |sections| ==> sections[i].messages == []
  {
    if sections != [] {
      ReportEmpty(sections[1..]);
      assert forall i :: 1 <= i < |sections| ==> sections[i] == sections[1..][i - 1];
    }
  }

  /** A field not among the sections has no messages in the report. */
  lemma {:induction false} MessagesForReportAbsent(sections: seq<Section>, field: string)
    requires forall i :: 0 <= i < |sections| ==> sections[i].field != field
    ensures MessagesFor(Report(sections), field) == []
  {
    if sections != [] {
      MessagesForConcat(Tag(sections[0].field, sections[0].messages), Report(sections[1..]), field);
      MessagesForTag(sections[0].field, sections[0].messages, field);
      assert forall i :: 1 <= i < |sections| ==> sections[i] == sections[1..][i - 1];
      MessagesForReportAbsent(sections[1..], field);
    }
  }

  /** With distinct field names, each field's messages come back unchanged and in order. */
  lemma {:induction false} MessagesForReport(sections: seq<Section>, i: nat)
    requires DistinctFields(sections) && i < |sections|
    ensures MessagesFor(Report(sections), sections[i].field) == sections[i].messages
  {
    var f := sections[i].field;
    var rest := sections[1..];
    assert Report(sections) == Tag(sections[0].field, sections[0].messages) + Report(rest);
    MessagesForConcat(Tag(sections[0].field, sections[0].messages), Report(rest), f);
    MessagesForTag(sections[0].field, sections[0].messages, f);
    if i == 0 {
      forall k | 0 <= k < |rest| ensures rest[k].field != f {
        assert rest[k] == sections[k + 1];
      }
      MessagesForReportAbsent(rest, f);
    } else {
      forall j, k | 0 <= j < k < |rest| ensures rest[j].field != rest[k].field {
        assert rest[j] == sections[j + 1] && rest[k] == sections[k + 1];
      }
      assert rest[i - 1] == sections[i];
      MessagesForReport(rest, i - 1);
    }
  }
}
