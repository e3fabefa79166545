/** The database handle the account and user repositories hold, and the statements
    they send through it. */
module Sql {
  import opened Common
  import opened Entities
  import Backend

  /** The named SQL constants the repositories execute (their text is not modelled). */
  datatype Query =
    | InsertIntoAccounts | UpdateAccountsUsername | UpdateAccountsPassword | UpdateAccountsRole
    | InsertIntoUsers | InsertUsersConflict
    | UpdateUsersFirstname | UpdateUsersLastname | UpdateUsersImage | UpdateUsersPhoneNumber

  /** One executed statement: a query and its positional arguments. */
  datatype Stmt = Stmt(query: Query, args: seq<string>)

  /** A connection (`db.IDatabase` / `*gorm.DB`): writes go to its log, and each
      lookup by email answers from an oracle standing for the table's contents. */
  class Conn {
    const writes: Backend.WriteLog<Stmt>
    const accountByEmail: string -> Result<Account>
    const userByEmail: string -> Result<User>
    const userInfoByEmail: string -> Result<UserInfo>

    constructor (writes: Backend.WriteLog<Stmt>, accountByEmail: string -> Result<Account>,
                 userByEmail: string -> Result<User>, userInfoByEmail: string -> Result<UserInfo>)
      ensures this.writes == writes && this.accountByEmail == accountByEmail
      ensures this.userByEmail == userByEmail && this.userInfoByEmail == userInfoByEmail
    {
      this.writes := writes;
      this.accountByEmail := accountByEmail;
      this.userByEmail := userByEmail;
      this.userInfoByEmail := userInfoByEmail;
    }
  }

  /** The error every `SaveInfo` returns for a record without an email. */
  const MissingEmail := Message("missing key: email ")

  /** The statement `Insert` executes for an account created at `createdAt`. */
  function AccountInsert(acc: Account, createdAt: string): Stmt
  {
    Stmt(InsertIntoAccounts, [acc.username, acc.role, acc.email, acc.password, createdAt, acc.kind])
  }

  /** The updates `SaveInfo` plans for an account: one per non-empty field among
      username, password and role, in that order, each keyed by the email. */
  function AccountUpdates(acc: Account): seq<Stmt>
  {
    UpdateIfSet(UpdateAccountsUsername, acc.username, acc.email)
    + UpdateIfSet(UpdateAccountsPassword, acc.password, acc.email)
    + UpdateIfSet(UpdateAccountsRole, acc.role, acc.email)
  }

  /** At most three updates, each setting a non-empty value for the account's email;
      a field is updated exactly when it is set, and the updates keep the order
      username, password, role. */
  lemma AccountUpdatesShape(acc: Account)
    ensures var ws := AccountUpdates(acc);
      && |ws| <= 3
      && (forall i :: 0 <= i < |ws| ==> |ws[i].args| == 2 && ws[i].args[0] != "" && ws[i].args[1] == acc.email)
      && (Stmt(UpdateAccountsUsername, [acc.username, acc.email]) in ws <==> acc.username != "")
      && (Stmt(UpdateAccountsPassword, [acc.password, acc.email]) in ws <==> acc.password != "")
      && (Stmt(UpdateAccountsRole, [acc.role, acc.email]) in ws <==> acc.role != "")
      && (forall i :: 0 <= i < |ws| - 1 ==> QueryRank(ws[i].query) < QueryRank(ws[i + 1].query))
  {
  }

  /** The statement `Insert` executes for a user. */
  function UserInsert(user: User): Stmt
  {
    Stmt(InsertIntoUsers, [user.email, user.phoneNumber, user.firstName, user.lastName, user.image])
  }

  /** The statement `OAuth2SaveInfo` executes for a user (insert, or update on conflict). */
  function UserUpsert(user: User): Stmt
  {
    Stmt(InsertUsersConflict, [user.email, user.phoneNumber, user.firstName, user.lastName, user.image])
  }

  /** The updates `SaveInfo` plans for a user: one per non-empty field among first
      name, last name, image and phone number, in that order, each keyed by the email. */
  function UserUpdates(user: User): seq<Stmt>
  {
    UpdateIfSet(UpdateUsersFirstname, user.firstName, user.email)
    + UpdateIfSet(UpdateUsersLastname, user.lastName, user.email)
    + UpdateIfSet(UpdateUsersImage, user.image, user.email)
    + UpdateIfSet(UpdateUsersPhoneNumber, user.phoneNumber, user.email)
  }

  /** At most four updates, each setting a non-empty value for the user's email;
      a field is updated exactly when it is set. */
  lemma UserUpdatesShape(user: User)
    ensures var ws := UserUpdates(user);
      && |ws| <= 4
      && (forall i :: 0 <= i < |ws| ==> |ws[i].args| == 2 && ws[i].args[0] != "" && ws[i].args[1] == user.email)
      && (Stmt(UpdateUsersFirstname, [user.firstName, user.email]) in ws <==> user.firstName != "")
      && (Stmt(UpdateUsersLastname, [user.lastName, user.email]) in ws <==> user.lastName != "")
      && (Stmt(UpdateUsersImage, [user.image, user.email]) in ws <==> user.image != "")
      && (Stmt(UpdateUsersPhoneNumber, [user.phoneNumber, user.email]) in ws <==> user.phoneNumber != "")
  {
  }

  /** The user updates keep the order first name, last name, image, phone number. */
  lemma UserUpdatesOrdered(user: User)
    ensures var ws := UserUpdates(user);
      forall i :: 0 <= i < |ws| - 1 ==> QueryRank(ws[i].query) < QueryRank(ws[i + 1].query)
  {
    var a := UpdateIfSet(UpdateUsersFirstname, user.firstName, user.email);
    var b := UpdateIfSet(UpdateUsersLastname, user.lastName, user.email);
    var c := UpdateIfSet(UpdateUsersImage, user.image, user.email);
    RankedAppend([], UpdateUsersFirstname, user.firstName, user.email);
    RankedAppend([] + a, UpdateUsersLastname, user.lastName, user.email);
    RankedAppend([] + a + b, UpdateUsersImage, user.image, user.email);
    RankedAppend([] + a + b + c, UpdateUsersPhoneNumber, user.phoneNumber, user.email);
    assert [] + a == a;
  }

  /** The updates go out in strictly increasing rank, each ranked below `bound`. */
  ghost predicate RankedBelow(ws: seq<Stmt>, bound: nat)
  {
    && (forall i :: 0 <= i < |ws| - 1 ==> QueryRank(ws[i].query) < QueryRank(ws[i + 1].query))
    && (forall i :: 0 <= i < |ws| ==> QueryRank(ws[i].query) < bound)
  }

  /** Adding the guarded update of a later-ranked field keeps the order. */
  lemma RankedAppend(ws: seq<Stmt>, q: Query, value: string, email: string)
    requires RankedBelow(ws, QueryRank(q))
    ensures RankedBelow(ws + UpdateIfSet(q, value, email), QueryRank(q) + 1)
  {
    var ext := ws + UpdateIfSet(q, value, email);
    forall i | 0 <= i < |ext| - 1
      ensures QueryRank(ext[i].query) < QueryRank(ext[i + 1].query)
    {
      assert ext[i] == ws[i];
    }
  }

  /** `if value != "" { Exec(q, value, email) }`: the update of one field, if it is set. */
  function UpdateIfSet(q: Query, value: string, email: string): (ws: seq<Stmt>)
    ensures ws == [] <==> value == ""
  {
    if value != "" then [Stmt(q, [value, email])] else []
  }

  /** `if value != "" { if err := Exec(q, value, email); err != nil { return err } }`:
      the update of one field, issued only when the field is set.  In terms of a
      plan of updates started on the log `before`, of which `issued` went out and
      succeeded: a failure settles the outcome of the plan, a success leaves the
      updates after this one pending. */
  method WriteIfSet(log: Backend.WriteLog<Stmt>, q: Query, value: string, email: string,
                    ghost plan: seq<Stmt>, ghost before: seq<Stmt>, ghost issued: seq<Stmt>, ghost rest: seq<Stmt>)
    returns (err: Option<Error>)
    requires log.entries == before + issued
    requires Backend.Pending(plan, log.reply, |before|, issued, UpdateIfSet(q, value, email) + rest)
    modifies log
    ensures log.entries == before + (issued + UpdateIfSet(q, value, email))
    ensures err == if value == "" then None else log.reply(|before + issued|, Stmt(q, [value, email])).err
    ensures err.Some? ==> Backend.Attempted(plan, log.reply, before, log.entries, err)
    ensures err.None? ==> Backend.Pending(plan, log.reply, |before|, issued + UpdateIfSet(q, value, email), rest)
  {
    err := None;
    if value != "" {
      var r := log.Exec(Stmt(q, [value, email]));
      err := r.err;
    }
    Backend.PendingIssueAtMostOne(plan, log.reply, |before|, issued, UpdateIfSet(q, value, email), rest);
  }

  /** The body of every `SaveInfo` on accounts: rejects an account without email
      before any write; otherwise issues the planned updates in order and stops at
      the first that fails. */
  method SaveAccount(log: Backend.WriteLog<Stmt>, acc: Account) returns (err: Option<Error>)
    modifies log
    ensures acc.email == "" ==> err == Some(MissingEmail) && log.entries == old(log.entries)
    ensures acc.email != "" ==> Backend.Attempted(AccountUpdates(acc), log.reply, old(log.entries), log.entries, err)
  {
    if acc.email == "" {
      return Some(MissingEmail);
    }
    ghost var before := log.entries;
    ghost var w1 := UpdateIfSet(UpdateAccountsUsername, acc.username, acc.email);
    ghost var w2 := UpdateIfSet(UpdateAccountsPassword, acc.password, acc.email);
    ghost var w3 := UpdateIfSet(UpdateAccountsRole, acc.role, acc.email);
    ghost var plan := AccountUpdates(acc);
    // The arguments below are written so that each call's requires is literally
    // the previous call's ensures.
    assert plan == w1 + (w2 + (w3 + [])) && before + [] == before;
    Backend.PendingStart(plan, log.reply, |before|);
    err := WriteIfSet(log, UpdateAccountsUsername, acc.username, acc.email, plan, before, [], w2 + (w3 + []));
    if err.Some? {
      return;
    }
    err := WriteIfSet(log, UpdateAccountsPassword, acc.password, acc.email, plan, before, [] + w1, w3 + []);
    if err.Some? {
      return;
    }
    err := WriteIfSet(log, UpdateAccountsRole, acc.role, acc.email, plan, before, [] + w1 + w2, []);
    if err.Some? {
      return;
    }
    Backend.PendingDone(plan, log.reply, |before|, [] + w1 + w2 + w3);
  }

  /** The body of `Users.SaveInfo`: rejects a user without email before any write;
      otherwise issues the planned updates in order and stops at the first that fails. */
  method SaveUser(log: Backend.WriteLog<Stmt>, user: User) returns (err: Option<Error>)
    modifies log
    ensures user.email == "" ==> err == Some(MissingEmail) && log.entries == old(log.entries)
    ensures user.email != "" ==> Backend.Attempted(UserUpdates(user), log.reply, old(log.entries), log.entries, err)
  {
    if user.email == "" {
      return Some(MissingEmail);
    }
    ghost var before := log.entries;
    ghost var w1 := UpdateIfSet(UpdateUsersFirstname, user.firstName, user.email);
    ghost var w2 := UpdateIfSet(UpdateUsersLastname, user.lastName, user.email);
    ghost var w3 := UpdateIfSet(UpdateUsersImage, user.image, user.email);
    ghost var w4 := UpdateIfSet(UpdateUsersPhoneNumber, user.phoneNumber, user.email);
    ghost var plan := UserUpdates(user);
    assert plan == w1 + (w2 + (w3 + (w4 + []))) && before + [] == before;
    Backend.PendingStart(plan, log.reply, |before|);
    err := WriteIfSet(log, UpdateUsersFirstname, user.firstName, user.email, plan, before, [], w2 + (w3 + (w4 + [])));
    if err.Some? {
      return;
    }
    err := WriteIfSet(log, UpdateUsersLastname, user.lastName, user.email, plan, before, [] + w1, w3 + (w4 + []));
    if err.Some? {
      return;
    }
    err := WriteIfSet(log, UpdateUsersImage, user.image, user.email, plan, before, [] + w1 + w2, w4 + []);
    if err.Some? {
      return;
    }
    err := WriteIfSet(log, UpdateUsersPhoneNumber, user.phoneNumber, user.email, plan, before, [] + w1 + w2 + w3, []);
    if err.Some? {
      return;
    }
    Backend.PendingDone(plan, log.reply, |before|, [] + w1 + w2 + w3 + w4);
  }

  /** A `SaveInfo` on an account that returned nil wrote exactly the fields that
      are set, and only those, in the order username, password, role. */
  lemma SavedAccountFields(acc: Account, reply: (nat, Stmt) -> Reply, before: seq<Stmt>, after: seq<Stmt>)
    requires Backend.Attempted(AccountUpdates(acc), reply, before, after, None)
    ensures after == before + AccountUpdates(acc)
    ensures Stmt(UpdateAccountsUsername, [acc.username, acc.email]) in after[|before|..] <==> acc.username != ""
    ensures Stmt(UpdateAccountsPassword, [acc.password, acc.email]) in after[|before|..] <==> acc.password != ""
    ensures Stmt(UpdateAccountsRole, [acc.role, acc.email]) in after[|before|..] <==> acc.role != ""
  {
    Backend.AttemptedOutcome(AccountUpdates(acc), reply, before, after, None);
    AccountUpdatesShape(acc);
    assert after == after[..|before|] + after[|before|..];
  }

  /** A `SaveInfo` on a user that returned nil wrote exactly the fields that are
      set, and only those, in the order first name, last name, image, phone. */
  lemma SavedUserFields(user: User, reply: (nat, Stmt) -> Reply, before: seq<Stmt>, after: seq<Stmt>)
    requires Backend.Attempted(UserUpdates(user), reply, before, after, None)
    ensures after == before + UserUpdates(user)
    ensures Stmt(UpdateUsersFirstname, [user.firstName, user.email]) in after[|before|..] <==> user.firstName != ""
    ensures Stmt(UpdateUsersLastname, [user.lastName, user.email]) in after[|before|..] <==> user.lastName != ""
    ensures Stmt(UpdateUsersImage, [user.image, user.email]) in after[|before|..] <==> user.image != ""
    ensures Stmt(UpdateUsersPhoneNumber, [user.phoneNumber, user.email]) in after[|before|..] <==> user.phoneNumber != ""
  {
    Backend.AttemptedOutcome(UserUpdates(user), reply, before, after, None);
    UserUpdatesShape(user);
    assert after == after[..|before|] + after[|before|..];
  }

  /** The position of an update in the order `SaveInfo` issues it. */
  function QueryRank(q: Query): nat
  {
    match q
    case UpdateAccountsUsername => 1
    case UpdateAccountsPassword => 2
    case UpdateAccountsRole => 3
    case UpdateUsersFirstname => 1
    case UpdateUsersLastname => 2
    case UpdateUsersImage => 3
    case UpdateUsersPhoneNumber => 4
    case _ => 0
  }
}
