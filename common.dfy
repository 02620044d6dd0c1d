/** Outcomes shared by the handlers: the HTTP error responses of the account
    API reduced to a small enum, plus the usual Option and Result wrappers. */
module Common {

  datatype Option<+T> = None | Some(value: T)

  /** The request fields a validation error (HTTP 400) can name. */
  datatype Field =
    | RiderIdField | FundIdField
    | Email | Password | ConfirmPassword | FirstName | LastName
    | NewEmail | CurrentPassword | OldPassword | NewPassword | ConfirmNewPassword
    | Amount | EntryDate | Label
    | FundName | FundType | InvestedAmount | CurrentValue
    | NonField

  datatype Error =
    | Validation(fields: set<Field>)  // 400, with the fields at fault
    | NotFound                        // 404: unknown rider_id, fund or rider
    | ServerError                     // 500: a lookup that matched several rows
    | CandidatesExhausted             // the supplied rider-id draws ran out

  datatype Result<+T> = Ok(value: T) | Err(error: Error)

  datatype Outcome = Done | Failed(error: Error)
}
