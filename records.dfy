/** The persisted entities of the template store: users with their usage
    counters, and email templates. */
module Records {

  type UserId = string
  type WorkspaceId = string

  /** Internal primary key of an email row. The listing orders rows by it,
      largest first. */
  type EmailId = nat

  datatype Option<+T> = None | Some(value: T)

  /** A user row as far as this subsystem reads and writes it.
      `totalEmails` counts creations since the last tier change, `savedEmails`
      counts rows currently kept (it may go below zero: nothing clamps it). */
  datatype User = User(
    subscription: string,
    totalEmails: int,
    savedEmails: int,
    maxCapacity: bool
  )

  /** An email template row (its key is kept outside, as the map key). */
  datatype Email = Email(
    authorId: UserId,
    content: string,
    subject: string,
    category: string,
    uniqueIdentifier: string,
    workspaceId: Option<WorkspaceId>,
    isPublic: bool
  )
}
