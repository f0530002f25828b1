/**
  Small shared datatypes: optional values, results and the error sentinels that
  the article and contact packages distinguish with errors.Is.
 */
module Outcomes {

  datatype Option<+T> = None | Some(value: T)

  /** The error sentinels of internal/articles/model.go and internal/contacts/model.go. */
  datatype Error =
    | NotFound
    | Conflict
    | Validation
    | SlugTaken
    | InvalidTransition
    | CommitUnknown
    | Storage  // any other driver error, passed through unchanged

  datatype Result<+T> = Ok(value: T) | Err(error: Error)
}
