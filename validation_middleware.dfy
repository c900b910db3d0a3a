/**
 * The request validation middleware
 * (backend/src/middleware/validation.middleware.ts): `formatErrors`, and
 * the handler `validateDto` returns, which either answers 400 with the
 * formatted errors or installs the validated body and passes the request on.
 */
module ValidationMiddleware {
  import opened Wrappers
  import opened Constraints
  import AuthDto

  /** `parts` joined with `separator` between neighbours. */
  function Join(parts: seq<string>, separator: string): string {
    if |parts| == 0 then ""
    else if |parts| == 1 then parts[0]
    else parts[0] + separator + Join(parts[1..], separator)
  }

  function TotalLength(parts: seq<string>): nat {
    if |parts| == 0 then 0 else |parts[0]| + TotalLength(parts[1..])
  }

  /** A join holds every part once and one separator between each two neighbours. */
  lemma {:induction false} JoinLength(parts: seq<string>, separator: string)
    requires |parts| > 0
    ensures |Join(parts, separator)| == TotalLength(parts) + (|parts| - 1) * |separator|
  {
    if |parts| > 1 {
      JoinLength(parts[1..], separator);
    }
  }

  /** Joining one more part appends the separator and that part. */
  lemma {:induction false} JoinAppend(parts: seq<string>, last: string, separator: string)
    requires |parts| > 0
    ensures Join(parts + [last], separator) == Join(parts, separator) + separator + last
  {
    if |parts| == 1 {
      assert (parts + [last])[1..] == [last];
    } else {
      assert (parts + [last])[1..] == parts[1..] + [last];
      JoinAppend(parts[1..], last, separator);
    }
  }

  /** One string per error, in order: the messages of its broken rules joined with ", ". */
  function FormatErrors(errors: seq<ValidationError>): (formatted: seq<string>)
    ensures |formatted| == |errors|
    ensures forall i :: 0 <= i < |errors| ==> formatted[i] == Join(errors[i].constraints, ", ")
  {
    seq(|errors|, i requires 0 <= i < |errors| => Join(errors[i].constraints, ", "))
  }

  /** An error without messages formats to the empty string, one with a single message to that message. */
  lemma FormatErrorsSmallCases(property: string, message: string)
    ensures FormatErrors([ValidationError(property, [])]) == [""]
    ensures FormatErrors([ValidationError(property, [message])]) == [message]
  {
  }

  /** The JSON body of a 400 answer. */
  datatype ErrorBody = ErrorBody(errors: seq<string>)

  /** One request/response exchange as far as the middleware sees it. */
  class Exchange<B> {
    /** `req.body`. */
    var body: B
    /** The status set on the response, if any. */
    var status: Option<int>
    /** The JSON sent, if any. */
    var sent: Option<ErrorBody>
    /** How often `next` was called. */
    var nextCalls: nat

    constructor (body: B)
      ensures this.body == body && status == None && sent == None && nextCalls == 0
    {
      this.body := body;
      status := None;
      sent := None;
      nextCalls := 0;
    }
  }

  /**
   * The handler of `validateDto`, given the transformed instance and what
   * `validate` reported for it. Any error answers 400 with the formatted
   * errors and neither replaces the body nor calls `next`; no error makes
   * the instance the body and calls `next` once.
   */
  method ValidateDto<B>(exchange: Exchange<B>, instance: B, errors: seq<ValidationError>)
    modifies exchange
    ensures |errors| > 0 ==>
      exchange.status == Some(400) && exchange.sent == Some(ErrorBody(FormatErrors(errors))) &&
      exchange.body == old(exchange.body) && exchange.nextCalls == old(exchange.nextCalls)
    ensures |errors| == 0 ==>
      exchange.body == instance && exchange.nextCalls == old(exchange.nextCalls) + 1 &&
      exchange.status == old(exchange.status) && exchange.sent == old(exchange.sent)
  {
    if |errors| > 0 {
      var formattedErrors := FormatErrors(errors);
      exchange.status := Some(400);
      exchange.sent := Some(ErrorBody(formattedErrors));
      return;
    }
    exchange.body := instance;
    exchange.nextCalls := exchange.nextCalls + 1;
  }

  /**
   * The middleware in front of registration: the request goes on exactly
   * when the body is a valid registration, and is otherwise answered 400.
   */
  method ValidateRegister(exchange: Exchange<AuthDto.RegisterBody>)
    modifies exchange
    ensures exchange.body == old(exchange.body)
    ensures exchange.nextCalls == old(exchange.nextCalls) + 1 <==> AuthDto.ValidRegister(old(exchange.body))
    ensures AuthDto.ValidRegister(old(exchange.body)) ==>
      exchange.status == old(exchange.status) && exchange.sent == old(exchange.sent)
    ensures !AuthDto.ValidRegister(old(exchange.body)) ==>
      exchange.nextCalls == old(exchange.nextCalls) &&
      exchange.status == Some(400) &&
      exchange.sent == Some(ErrorBody(FormatErrors(AuthDto.RegisterErrors(old(exchange.body)))))
  {
    var instance := exchange.body;
    AuthDto.RegisterAcceptedIff(instance);
    ValidateDto(exchange, instance, AuthDto.RegisterErrors(instance));
  }
}
