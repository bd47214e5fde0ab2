/** Shared vocabulary of the classroom application: identifiers, clock values,
    the error statuses the HTTP handlers answer with, and the three-valued
    visibility setting used by class privacy settings and gallery albums. */
module Common {

  /** Database identifiers (Mongo ObjectIds) are modelled as naturals; every
      collection draws from one id space, as ObjectIds are globally unique. */
  type UserId = nat
  type ClassId = nat
  type ChatId = nat
  type MessageId = nat
  type ItemId = nat

  /** A point in time, in milliseconds. The clock is always a parameter. */
  type Time = int

  datatype Option<+T> = None | Some(value: T)

  /** A present, non-empty string: JavaScript truthiness of a string value. */
  predicate Truthy(o: Option<string>)
  {
    o.Some? && o.value != ""
  }

  /** The status classes with which the handlers answer a failed request. */
  datatype HttpError = BadRequest | Unauthorized | Forbidden | NotFound | ServerError
  {
    function Code(): (c: int)
      ensures 400 <= c <= 500
      ensures c == 500 <==> this == ServerError
    {
      match this
      case BadRequest => 400
      case Unauthorized => 401
      case Forbidden => 403
      case NotFound => 404
      case ServerError => 500
    }
  }

  datatype Result<+T> = Ok(value: T) | Err(error: HttpError)

  /** Outcome of a handler that only changes state. */
  datatype Status = Done | Failed(error: HttpError)

  /** The `class_only` / `school` / `public` enumeration. */
  datatype Visibility = ClassOnly | School | Public

  function VisibilityName(v: Visibility): string
  {
    match v
    case ClassOnly => "class_only"
    case School => "school"
    case Public => "public"
  }

  /** Schema enum check: a string is a visibility exactly when it is one of the
      three names. */
  function ParseVisibility(s: string): (r: Option<Visibility>)
    ensures r.Some? ==> VisibilityName(r.value) == s
    ensures (exists v :: VisibilityName(v) == s) ==> r.Some?
  {
    if s == "class_only" then Some(ClassOnly)
    else if s == "school" then Some(School)
    else if s == "public" then Some(Public)
    else None
  }

  lemma VisibilityRoundTrip(v: Visibility)
    ensures ParseVisibility(VisibilityName(v)) == Some(v)
  {
  }
}
