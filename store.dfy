/** The server actions that read and write the user and email tables,
    modelled over an in-memory store. The session's user id, the database's
    new row id and the generated share token are parameters. */
module Store {
  import opened Records
  import Quota

  /** Why a save is refused. */
  datatype Error =
    | Unauthenticated   // no user id in the session: the database refuses the lookup
    | AccessDenied      // a workspace was named and the user is not a member of it
    | UserNotFound      // the session's user has no row: the transaction rolls back

  datatype Result<+T> = Ok(value: T) | Err(error: Error)

  /** A workspace id counts as given only when it is a non-empty string. */
  predicate WorkspaceGiven(workspaceId: Option<WorkspaceId>) {
    workspaceId.Some? && workspaceId.value != ""
  }

  /** The row a save inserts. */
  function NewEmail(
    author: UserId, response: string, subject: string, category: string,
    workspaceId: Option<WorkspaceId>, token: string): Email
  {
    Email(author, response, subject, category, token,
          if WorkspaceGiven(workspaceId) then workspaceId else None,
          WorkspaceGiven(workspaceId))
  }

  /** The user row after a save: counters from the quota calculation, one
      more saved template, the tier unchanged. */
  function Counted(u: User): (v: User)
    ensures v.subscription == u.subscription
    ensures v.totalEmails == u.totalEmails + 1
    ensures v.savedEmails == u.savedEmails + 1
    ensures v.maxCapacity <==> u.maxCapacity || Quota.Reached(u.subscription, u.totalEmails + 1)
  {
    var next := Quota.NextUsage(Some(Quota.SnapshotOf(u)));
    User(u.subscription, next.totalEmails, u.savedEmails + 1, next.maxCapacity)
  }

  /** The user row after `n` successive saves with no tier change between them. */
  function CountedTimes(u: User, n: nat): User {
    if n == 0 then u else Counted(CountedTimes(u, n - 1))
  }

  /** `n` saves advance the saved count by `n` and move the tier, total and
      latch exactly as `n` steps of the quota calculation do. */
  lemma {:induction false} RepeatedSaves(u: User, n: nat)
    ensures CountedTimes(u, n).savedEmails == u.savedEmails + n
    ensures Quota.SnapshotOf(CountedTimes(u, n)) == Quota.Saves(Quota.SnapshotOf(u), n)
  {
    if n > 0 {
      RepeatedSaves(u, n - 1);
    }
  }

  /** After a tier change, a user's latch turns on at the save that brings the
      total to the new tier's ceiling and not before. */
  lemma {:induction false} SavesAfterPayment(subscription: string, savedEmails: int, n: nat)
    ensures var u := CountedTimes(User(subscription, 0, savedEmails, false), n);
      && u.totalEmails == n
      && u.savedEmails == savedEmails + n
      && (u.maxCapacity <==> Quota.Reached(subscription, n))
  {
    var u0 := User(subscription, 0, savedEmails, false);
    RepeatedSaves(u0, n);
    Quota.SavesAfterReset(subscription, n);
  }

  /** Rows created by a save: a workspace id is present exactly when the row
      is public, and it is never empty. */
  predicate WellFormed(e: Email) {
    && (e.isPublic <==> e.workspaceId.Some?)
    && (e.workspaceId.Some? ==> e.workspaceId.value != "")
  }

  class EmailStore {
    var users: map<UserId, User>
    var emails: map<EmailId, Email>
    /** Workspace memberships, as (user, workspace) pairs; only read here. */
    var members: set<(UserId, WorkspaceId)>

    ghost predicate Valid()
      reads this
    {
      && (forall id :: id in emails ==> WellFormed(emails[id]))
      && (forall a, b :: a in emails && b in emails && a != b ==>
            emails[a].uniqueIdentifier != emails[b].uniqueIdentifier)
    }

    /** The share tokens in use. */
    ghost function Tokens(): set<string>
      reads this
    {
      set id | id in emails :: emails[id].uniqueIdentifier
    }

    constructor (users0: map<UserId, User>, members0: set<(UserId, WorkspaceId)>)
      ensures Valid()
      ensures users == users0 && members == members0 && emails == map[]
    {
      users := users0;
      emails := map[];
      members := members0;
    }

    /** The email row with the given id, if any. */
    function GetWithId(emailId: EmailId): (r: Option<Email>)
      reads this
      ensures r.Some? <==> emailId in emails
      ensures r.Some? ==> r.value == emails[emailId]
    {
      if emailId in emails then Some(emails[emailId]) else None
    }

    /** The email row carrying the given share token, if any; tokens are
        unique, so there is at most one. */
    function GetWithUniqueId(token: string): (r: Option<Email>)
      reads this
      requires Valid()
      ensures r.Some? <==> exists id :: id in emails && emails[id].uniqueIdentifier == token
      ensures r.Some? ==>
        r.value.uniqueIdentifier == token && exists id :: id in emails && emails[id] == r.value
    {
      if exists id :: id in emails && emails[id].uniqueIdentifier == token then
        var id :| id in emails && emails[id].uniqueIdentifier == token;
        Some(emails[id])
      else
        None
    }

    /** The session user's counters and tier; nothing without a session
        or without a row. */
    function FetchUserDetails(session: Option<UserId>): (r: Option<User>)
      reads this
      ensures r.Some? <==> session.Some? && session.value in users
      ensures r.Some? ==> r.value == users[session.value]
    {
      if session.Some? && session.value in users then Some(users[session.value]) else None
    }

    /** Saves a new template for the session's user. A named workspace is
        checked for membership first; then the user's snapshot is read and
        the row insert and the counter update happen together. The save is
        never refused for capacity: the latch only records it. */
    method HandleSave(
      session: Option<UserId>, response: string, subject: string, category: string,
      workspaceId: Option<WorkspaceId>, freshId: EmailId, token: string)
      returns (r: Result<Email>)
      requires Valid()
      requires freshId !in emails
      requires token !in Tokens()
      modifies this
      ensures Valid() && members == old(members)
      ensures r.Ok? <==>
        && session.Some?
        && (WorkspaceGiven(workspaceId) ==> (session.value, workspaceId.value) in members)
        && session.value in old(users)
      ensures r.Err? ==>
        && emails == old(emails) && users == old(users)
        && r.error == (if session.None? then Unauthenticated
                       else if WorkspaceGiven(workspaceId) && (session.value, workspaceId.value) !in members then AccessDenied
                       else UserNotFound)
      ensures r.Ok? ==>
        && r.value.authorId == session.value
        && r.value.content == response && r.value.subject == subject && r.value.category == category
        && r.value.uniqueIdentifier == token
        && r.value.workspaceId == (if WorkspaceGiven(workspaceId) then workspaceId else None)
        && (r.value.isPublic <==> WorkspaceGiven(workspaceId))
        && emails == old(emails)[freshId := r.value]
        && users == old(users)[session.value := Counted(old(users)[session.value])]
        && GetWithUniqueId(token) == Some(r.value)
        && FetchUserDetails(session) == Some(Counted(old(users)[session.value]))
    {
      if session.None? {
        return Err(Unauthenticated);
      }
      var uid := session.value;
      if WorkspaceGiven(workspaceId) && (uid, workspaceId.value) !in members {
        return Err(AccessDenied);
      }
      if uid !in users {
        return Err(UserNotFound);
      }
      var next := Quota.NextUsage(Some(Quota.SnapshotOf(users[uid])));
      var email := NewEmail(uid, response, subject, category, workspaceId, token);
      var before := users[uid];
      emails := emails[freshId := email];
      users := users[uid := User(before.subscription, next.totalEmails, before.savedEmails + 1, next.maxCapacity)];
      assert emails[freshId].uniqueIdentifier == token;
      return Ok(email);
    }

    /** Deletes a row by id, then takes one off the SESSION user's saved
        count (whoever wrote the row; no floor at zero). The two writes are
        separate: if the second fails, the row stays deleted. A missing id
        fails first and changes nothing. */
    method HandleDelete(session: Option<UserId>, emailId: EmailId) returns (r: Option<Email>)
      requires Valid()
      modifies this
      ensures Valid() && members == old(members)
      ensures emailId !in old(emails) ==> r.None? && emails == old(emails) && users == old(users)
      ensures emailId in old(emails) ==> emails == old(emails) - {emailId} && GetWithId(emailId).None?
      ensures emailId in old(emails) && session.Some? && session.value in old(users) ==>
        && r == Some(old(emails)[emailId])
        && users == old(users)[session.value := old(users)[session.value].(savedEmails := old(users)[session.value].savedEmails - 1)]
        && FetchUserDetails(session).Some?
        && FetchUserDetails(session).value.savedEmails == old(users)[session.value].savedEmails - 1
      ensures emailId in old(emails) && !(session.Some? && session.value in old(users)) ==>
        r.None? && users == old(users)
    {
      if emailId !in emails {
        return None;
      }
      var deleted := emails[emailId];
      emails := emails - {emailId};
      if session.None? || session.value !in users {
        return None;
      }
      var uid := session.value;
      users := users[uid := users[uid].(savedEmails := users[uid].savedEmails - 1)];
      return Some(deleted);
    }

    /** Replaces the subject and content of a row; every other field stays. */
    method EditTemplate(emailId: EmailId, subject: string, content: string) returns (r: Option<Email>)
      requires Valid()
      modifies this
      ensures Valid() && members == old(members) && users == old(users)
      ensures emailId !in old(emails) ==> r.None? && emails == old(emails)
      ensures emailId in old(emails) ==>
        && r.Some? && emails == old(emails)[emailId := r.value]
        && r.value.subject == subject && r.value.content == content
        && r.value.authorId == old(emails)[emailId].authorId
        && r.value.category == old(emails)[emailId].category
        && r.value.workspaceId == old(emails)[emailId].workspaceId
        && r.value.isPublic == old(emails)[emailId].isPublic
        && r.value.uniqueIdentifier == old(emails)[emailId].uniqueIdentifier
    {
      if emailId !in emails {
        return None;
      }
      var edited := emails[emailId].(subject := subject, content := content);
      emails := emails[emailId := edited];
      return Some(edited);
    }

    /** Records a paid tier: the new subscription, and the creation count and
        capacity latch reset, whatever they were. */
    method OnPaymentSuccess(subscription: string, id: UserId) returns (r: Option<User>)
      requires Valid()
      modifies this
      ensures Valid() && members == old(members) && emails == old(emails)
      ensures id !in old(users) ==> r.None? && users == old(users)
      ensures id in old(users) ==>
        && r == Some(User(subscription, 0, old(users)[id].savedEmails, false))
        && users == old(users)[id := r.value]
        && FetchUserDetails(Some(id)) == r
    {
      if id !in users {
        return None;
      }
      var updated := users[id].(subscription := subscription, maxCapacity := false, totalEmails := 0);
      users := users[id := updated];
      return Some(updated);
    }
  }
}
