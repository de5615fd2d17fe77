/** The catalogue's vocabulary: results, errors and the product lifecycle
    (internal/core/domain/lifecycle.go). */
module Domain {
  datatype Option<+T> = None | Some(value: T)

  datatype Result<+T> = Ok(value: T) | Err(error: DomainError)

  /** The error values a command can answer with. `Internal` stands for every
      driver error the repository only wraps. */
  datatype DomainError = NotFound | Conflict | VersionConflict | InvalidTransition | InvalidInput | Internal

  datatype ProductStatus = Draft | Active | Archived

  /** `UnknownAction` is any action string outside the three constants. */
  datatype LifecycleAction = Publish | Archive | Restore | UnknownAction(name: string)

  /** The lifecycle table. No edge leads back to Draft, no edge is a self-loop,
      and a command that was just applied is not an edge from where it led. */
  function NextStatus(from: ProductStatus, action: LifecycleAction): (next: Result<ProductStatus>)
    ensures next.Ok? ==> next.value != Draft && next.value != from
    ensures next.Ok? ==> (next.value == Archived <==> action == Archive)
    ensures next.Err? ==> next.error == if action.UnknownAction? then InvalidInput else InvalidTransition
  {
    match action
    case Publish =>
      if from == Draft then Ok(Active) else Err(InvalidTransition)
    case Archive =>
      if from == Draft || from == Active then Ok(Archived) else Err(InvalidTransition)
    case Restore =>
      if from == Archived then Ok(Active) else Err(InvalidTransition)
    case UnknownAction(_) =>
      Err(InvalidInput)
  }
}
