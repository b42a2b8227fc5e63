/** The failures the views answer with, one constructor per kind of error response. */
module Responses {

  /** A serializer field; a 400 response names it by its JSON key, which is the constructor's
      name in snake case without `Field` (`ServiceTypeField` is `service_type`). */
  datatype FieldName = NameField | DescriptionField | ServiceTypeField | StatusField
                     | TenderField | OrganizationField | CreatorField | CreatedByField

  datatype Error =
    /** 400 with `{'error': message}`, from an explicit check in a view. */
    | BadRequest(message: string)
    /** 400 with the serializer's errors; `fields` are the failing fields in declaration order. */
    | Invalid(fields: seq<FieldName>)
    /** 404 with `{'error': message}`, or a raised `NotFound(message)`. */
    | NotFound(message: string)
    /** 404 raised by a generic view's object lookup when no row has the requested key. */
    | ObjectNotFound
    /** 403 `{'error': 'You do not have permission to edit this bid'}`. */
    | Forbidden
    /** A database constraint violation that no view catches (the server answers 500). */
    | IntegrityError

  /** The HTTP status code of an error response. */
  function HttpStatus(e: Error): (code: int)
    ensures 400 <= code < 600
  {
    match e
    case BadRequest(_) => 400
    case Invalid(_) => 400
    case NotFound(_) => 404
    case ObjectNotFound => 404
    case Forbidden => 403
    case IntegrityError => 500
  }

  /** The status code of a successful tender creation (`HTTP_201_CREATED`). */
  const TenderCreatedStatus: int := 201
  /** The status code of a successful bid creation and of every other success (`HTTP_200_OK`). */
  const SuccessStatus: int := 200
}
