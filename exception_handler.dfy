/**
 * The global exception handler: the exceptions the registry's endpoints raise,
 * the grouping of field errors into a map from field name to messages, and the
 * status and body chosen for each kind of exception.
 */
module ExceptionHandler {
  import opened Constraints
  import opened Http

  /**
   * The exceptions that reach the handler. Each validation exception carries its
   * reported errors, in reporting order, as (field or property path, message) pairs.
   */
  datatype Exception =
    | MethodArgumentNotValid(fieldErrors: seq<Violation>)
    | ConstraintViolation(violations: seq<Violation>)
    | EmptyRequestBody(message: string)
    | HttpMessageNotReadable(detail: string)
    | Unhandled(detail: string)

  /** The body of an error response: grouped field errors, or a plain text. */
  datatype ErrorBody = FieldErrors(errors: map<string, seq<string>>) | Text(text: string)

  type ErrorResponse = ResponseEntity<ErrorBody>

  const UnreadableBodyText := "Request body is required and cannot be empty or malformed."
  const GenericErrorText := "An unexpected error occurred. Please try again later."

  /** The field names some error in `errors` reports. */
  function FieldNames(errors: seq<Violation>): set<string> {
    set i | 0 <= i < |errors| :: errors[i].field
  }

  /**
   * The map the handler builds: each error's message appended, in turn, to the
   * list under its field, the list being created on the field's first error.
   */
  function Grouped(errors: seq<Violation>): (m: map<string, seq<string>>)
    ensures m.Keys == FieldNames(errors)
  {
    if errors == [] then map[]
    else
      var e := errors[|errors| - 1];
      var prefix := errors[..|errors| - 1];
      var m := Grouped(prefix);
      assert FieldNames(errors) == FieldNames(prefix) + {e.field} by {
        forall f | f in FieldNames(errors) ensures f in FieldNames(prefix) + {e.field} {
          var i :| 0 <= i < |errors| && errors[i].field == f;
          if i < |prefix| {
            assert prefix[i] == errors[i];
          }
        }
        forall f | f in FieldNames(prefix) ensures f in FieldNames(errors) {
          var i :| 0 <= i < |prefix| && prefix[i].field == f;
          assert errors[i] == prefix[i];
        }
      }
      m[e.field := (if e.field in m then m[e.field] else []) + [e.message]]
  }

  /**
   * The grouping as the handlers perform it, one error at a time, into a map
   * updated in place.
   */
  method GroupByField(errors: seq<Violation>) returns (m: map<string, seq<string>>)
    ensures m == Grouped(errors)
  {
    m := map[];
    for i := 0 to |errors|
      invariant m == Grouped(errors[..i])
    {
      assert errors[..i + 1][..i] == errors[..i];
      var e := errors[i];
      if e.field !in m {
        m := m[e.field := []];
      }
      m := m[e.field := m[e.field] + [e.message]];
    }
    assert errors[..|errors|] == errors;
  }

  /** Under each field, exactly that field's messages in reporting order; a field is a key only if it has a message. */
  lemma {:induction false} GroupedMessages(errors: seq<Violation>, field: string)
    ensures field in Grouped(errors) <==> MessagesFor(errors, field) != []
    ensures field in Grouped(errors) ==> Grouped(errors)[field] == MessagesFor(errors, field)
    decreases |errors|
  {
    if errors != [] {
      var e := errors[|errors| - 1];
      var prefix := errors[..|errors| - 1];
      assert errors == prefix + [e];
      GroupedMessages(prefix, field);
      MessagesForConcat(prefix, [e], field);
      assert MessagesFor([e], field) == if e.field == field then [e.message] else [] by {
        assert [e] == [e] + [];
      }
    }
  }

  /** The distinct field names of `errors`, in order of first report. */
  function FieldOrder(errors: seq<Violation>): (fs: seq<string>)
    ensures forall i, j :: 0 <= i < j < |fs| ==> fs[i] != fs[j]
    ensures forall f :: f in fs <==> f in Grouped(errors)
  {
    if errors == [] then []
    else
      var e := errors[|errors| - 1];
      var fs := FieldOrder(errors[..|errors| - 1]);
      if e.field in fs then fs else fs + [e.field]
  }

  /** The number of messages listed under the fields `fs` of `m`. */
  function TotalMessages(m: map<string, seq<string>>, fs: seq<string>): nat
    requires forall f :: f in fs ==> f in m
  {
    if fs == [] then 0 else TotalMessages(m, fs[..|fs| - 1]) + |m[fs[|fs| - 1]]|
  }

  lemma {:induction false} TotalMessagesFrame(m: map<string, seq<string>>, n: map<string, seq<string>>, fs: seq<string>)
    requires forall f :: f in fs ==> f in m && f in n && m[f] == n[f]
    ensures TotalMessages(m, fs) == TotalMessages(n, fs)
  {
    if fs != [] {
      TotalMessagesFrame(m, n, fs[..|fs| - 1]);
    }
  }

  lemma {:induction false} TotalMessagesUpdate(m: map<string, seq<string>>, fs: seq<string>, f: string, s: seq<string>)
    requires forall g :: g in fs ==> g in m
    requires forall i, j :: 0 <= i < j < |fs| ==> fs[i] != fs[j]
    requires f in fs
    ensures TotalMessages(m[f := s], fs) == TotalMessages(m, fs) - |m[f]| + |s|
  {
    var last := fs[|fs| - 1];
    var prefix := fs[..|fs| - 1];
    if last == f {
      assert f !in prefix;
      TotalMessagesFrame(m[f := s], m, prefix);
    } else {
      TotalMessagesUpdate(m, prefix, f, s);
    }
  }

  /** No error is lost or duplicated: the lists of the grouped map hold exactly as many messages as were reported. */
  lemma {:induction false} GroupedTotal(errors: seq<Violation>)
    ensures TotalMessages(Grouped(errors), FieldOrder(errors)) == |errors|
  {
    if errors != [] {
      GroupedTotal(errors[..|errors| - 1]);
      GroupedStep(errors);
    }
  }

  /** One more error adds exactly one message to the total. */
  lemma GroupedStep(errors: seq<Violation>)
    requires errors != []
    ensures var prefix := errors[..|errors| - 1];
            TotalMessages(Grouped(errors), FieldOrder(errors)) == TotalMessages(Grouped(prefix), FieldOrder(prefix)) + 1
  {
    var e := errors[|errors| - 1];
    var prefix := errors[..|errors| - 1];
    var g := Grouped(prefix);
    var fs := FieldOrder(prefix);
    if e.field in fs {
      assert Grouped(errors) == g[e.field := g[e.field] + [e.message]];
      assert FieldOrder(errors) == fs;
      TotalMessagesUpdate(g, fs, e.field, g[e.field] + [e.message]);
    } else {
      assert e.field !in g;
      assert [] + [e.message] == [e.message];
      assert Grouped(errors) == g[e.field := [e.message]];
      assert FieldOrder(errors) == fs + [e.field];
      TotalMessagesNewField(g, fs, e.field, e.message);
    }
  }

  /** Listing a new field with one message adds one to the total. */
  lemma TotalMessagesNewField(m: map<string, seq<string>>, fs: seq<string>, f: string, message: string)
    requires forall g :: g in fs ==> g in m
    requires f !in fs
    ensures TotalMessages(m[f := [message]], fs + [f]) == TotalMessages(m, fs) + 1
  {
    var m' := m[f := [message]];
    assert (fs + [f])[..|fs|] == fs;
    assert TotalMessages(m', fs + [f]) == TotalMessages(m', fs) + 1;
    TotalMessagesFrame(m', m, fs);
  }

  /** Validation failures of a request body: 400 with the grouped field errors. */
  method HandleValidationExceptions(ex: Exception) returns (r: ErrorResponse)
    requires ex.MethodArgumentNotValid?
    ensures r == Handle(ex)
  {
    var errors := GroupByField(ex.fieldErrors);
    r := ResponseEntity(BadRequest, FieldErrors(errors));
  }

  /** Parameter-level violations: 400 with the messages grouped by property path. */
  method HandleConstraintViolationException(ex: Exception) returns (r: ErrorResponse)
    requires ex.ConstraintViolation?
    ensures r == Handle(ex)
  {
    var errors := GroupByField(ex.violations);
    r := ResponseEntity(BadRequest, FieldErrors(errors));
  }

  /**
   * The response for each exception, as the most specific handler answers it;
   * anything without a handler of its own falls to the general one.
   */
  function Handle(ex: Exception): ErrorResponse {
    match ex
    case MethodArgumentNotValid(errors) => ResponseEntity(BadRequest, FieldErrors(Grouped(errors)))
    case ConstraintViolation(violations) => ResponseEntity(BadRequest, FieldErrors(Grouped(violations)))
    case EmptyRequestBody(message) => ResponseEntity(BadRequest, Text(message))
    case HttpMessageNotReadable(_) => ResponseEntity(BadRequest, Text(UnreadableBodyText))
    case Unhandled(_) => ResponseEntity(InternalServerError, Text(GenericErrorText))
  }

  /** Every exception the registry anticipates is a client error; only the unanticipated ones answer 500. */
  lemma StatusOfHandled(ex: Exception)
    ensures StatusCode(Handle(ex).status) == 400 <==> !ex.Unhandled?
    ensures StatusCode(Handle(ex).status) == 500 <==> ex.Unhandled?
  {
  }

  /** Both validation handlers answer with every reported message, grouped under its field. */
  lemma ValidationBody(ex: Exception, field: string)
    requires ex.MethodArgumentNotValid? || ex.ConstraintViolation?
    ensures Handle(ex).body.FieldErrors?
    ensures var errors := if ex.MethodArgumentNotValid? then ex.fieldErrors else ex.violations;
            && (field in Handle(ex).body.errors <==> MessagesFor(errors, field) != [])
            && (field in Handle(ex).body.errors ==> Handle(ex).body.errors[field] == MessagesFor(errors, field))
  {
    GroupedMessages(if ex.MethodArgumentNotValid? then ex.fieldErrors else ex.violations, field);
  }

  /** The empty-body error echoes its own message; an unreadable body gets a fixed text whatever the parser said. */
  lemma TextBodies(message: string, detail: string)
    ensures Handle(EmptyRequestBody(message)) == ResponseEntity(BadRequest, Text(message))
    ensures Handle(HttpMessageNotReadable(detail)) == ResponseEntity(BadRequest, Text(UnreadableBodyText))
  {
  }

  /** The 500 answer reveals nothing of the exception behind it. */
  lemma UnhandledRevealsNothing(a: string, b: string)
    ensures Handle(Unhandled(a)) == Handle(Unhandled(b))
    ensures Handle(Unhandled(a)).body == Text(GenericErrorText)
  {
  }
}
