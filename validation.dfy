/** The validation messages the system raises, and the shape of its error reports.
    A report maps each offending field name to the (first) message for it, as the
    framework's field-keyed validation errors do. */
module Validation {
  import opened Wrappers

  /** The five ordered rules of users/validators.py. */
  datatype PasswordViolation =
    | TooShort          // fewer than 8 characters
    | NotAlphanumeric   // some character is not alphanumeric
    | NoLetter          // no character other than a decimal digit
    | NoDigit           // no decimal digit
    | HasCyrillic       // a character of the range а-я, matched case-insensitively

  /** The supplier rules of SupplyChainMemberSerializer.validate. */
  datatype SupplierRule =
    | FactoryWithSupplier
    | RetailWithoutSupplier
    | RetailFromEntrepreneur
    | EntrepreneurWithoutSupplier

  datatype ContactField = Email | Country | City | Street | HouseNumber

  datatype FieldError =
    | Required                          // the key is missing from a full payload
    | Blank                             // an empty string where a value is required
    | TooLong(limit: nat)               // longer than the field's max_length
    | NotUnique                         // another row already holds this value
    | InvalidChoice                     // not one of the declared choices
    | DoesNotExist                      // a primary key that names no row
    | TooManyDigits                     // a decimal beyond max_digits / decimal_places
    | ContactInvalid(fields: set<ContactField>)  // errors inside the nested contact payload
    | Weak(violation: PasswordViolation)
    | SupplierRejected(rule: SupplierRule)
    | DebtUpdateForbidden
    | PasswordRequiredOnCreate
    | PasswordChangeElsewhere
    | WrongOldPassword
    | SameAsOldPassword

  /** Field name (as the API spells it) to message. */
  type Errors = map<string, FieldError>

  /** The report of one field: its key with the error when there is one, nothing otherwise. */
  function Report(key: string, e: Option<FieldError>): Errors {
    if e.Some? then map[key := e.value] else map[]
  }

  /** How a request fails: 403, 404, 400 with field errors, or 500. */
  datatype Failure = Forbidden | NotFound | Invalid(errors: Errors) | ServerError
}
