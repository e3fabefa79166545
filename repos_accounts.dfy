/** The account repository over `db.IDatabase` (internal/core/repos/accounts):
    lookups return a fresh record, `Insert` is one write, `SaveInfo` a guarded
    sequence of updates. */
module ReposAccounts {
  import opened Common
  import opened Entities
  import opened Sql
  import Backend

  class Accounts {
    const db: Conn

    /** `New(conn)`. */
    constructor New(conn: Conn)
      ensures db == conn
    {
      db := conn;
    }

    /** `GetByEmail`: a fresh record holding the row on success, `(nil, err)` when
        the query or the row collection fails. */
    method GetByEmail(email: string) returns (r: AccountRecord?, err: Option<Error>)
      ensures db.accountByEmail(email).Ok? ==>
        err == None && r != null && fresh(r) && r.value == db.accountByEmail(email).value
      ensures db.accountByEmail(email).Err? ==>
        r == null && err == Some(db.accountByEmail(email).error)
    {
      match db.accountByEmail(email)
      case Err(e) =>
        r, err := null, Some(e);
      case Ok(row) =>
        r := new AccountRecord(row);
        err := None;
    }

    /** `Insert`: exactly one write of (username, role, email, password, createdAt,
        type); `createdAt` is the caller's clock reading in RFC 3339 form. */
    method Insert(acc: Account, createdAt: string) returns (err: Option<Error>)
      modifies db.writes
      ensures db.writes.entries == old(db.writes.entries) + [AccountInsert(acc, createdAt)]
      ensures err == db.writes.reply(old(|db.writes.entries|), AccountInsert(acc, createdAt)).err
    {
      var r := db.writes.Exec(AccountInsert(acc, createdAt));
      err := r.err;
    }

    /** `SaveInfo`: rejects an account without email before any write; otherwise
        issues the planned updates in order and stops at the first that fails. */
    method SaveInfo(acc: Account) returns (err: Option<Error>)
      modifies db.writes
      ensures acc.email == "" ==> err == Some(MissingEmail) && db.writes.entries == old(db.writes.entries)
      ensures acc.email != "" ==>
        Backend.Attempted(AccountUpdates(acc), db.writes.reply, old(db.writes.entries), db.writes.entries, err)
    {
      err := SaveAccount(db.writes, acc);
    }
  }
}
