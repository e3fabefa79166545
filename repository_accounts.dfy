/** The older account repository over gorm (internal/core/repository/accounts):
    the connection can be swapped for a transaction, and every lookup writes into
    one record the repository owns and returns that record. */
module RepositoryAccounts {
  import opened Common
  import opened Entities
  import opened Sql
  import Backend

  class Accounts {
    var conn: Conn
    /** The shared `data` buffer. */
    const data: AccountRecord

    /** `New()`: the connection comes from the caller, the buffer is fresh. */
    constructor New(conn: Conn)
      ensures this.conn == conn && fresh(data)
    {
      this.conn := conn;
      data := new AccountRecord(NoAccount);
    }

    /** `Use(tx)`: switches the connection and returns the receiver itself. */
    method Use(tx: Conn) returns (r: Accounts)
      modifies this
      ensures conn == tx && r == this
    {
      conn := tx;
      r := this;
    }

    /** `GetByEmail`: on success the row is copied into the shared buffer and the
        buffer itself is returned; on failure `(nil, err)`. */
    method GetByEmail(email: string) returns (r: AccountRecord?, err: Option<Error>)
      modifies data
      ensures conn.accountByEmail(email).Ok? ==>
        err == None && r == data && data.value == conn.accountByEmail(email).value
      ensures conn.accountByEmail(email).Err? ==>
        r == null && err == Some(conn.accountByEmail(email).error) && data.value == old(data.value)
    {
      match conn.accountByEmail(email)
      case Err(e) =>
        r, err := null, Some(e);
      case Ok(row) =>
        data.value := row;
        r, err := data, None;
    }

    /** Two successful lookups hand out the same record, which then holds the
        second row: the first caller's result has been overwritten. */
    method LookupTwice(first: string, second: string) returns (r1: AccountRecord?, r2: AccountRecord?)
      requires conn.accountByEmail(first).Ok? && conn.accountByEmail(second).Ok?
      modifies data
      ensures r1 == r2 && r1 != null
      ensures r1.value == conn.accountByEmail(second).value
    {
      var e1, e2;
      r1, e1 := GetByEmail(first);
      r2, e2 := GetByEmail(second);
    }

    /** `Insert`: exactly one write of (username, role, email, password, createdAt,
        type); `createdAt` is the caller's clock reading in RFC 3339 form. */
    method Insert(acc: Account, createdAt: string) returns (err: Option<Error>)
      modifies conn.writes
      ensures conn.writes.entries == old(conn.writes.entries) + [AccountInsert(acc, createdAt)]
      ensures err == conn.writes.reply(old(|conn.writes.entries|), AccountInsert(acc, createdAt)).err
    {
      var r := conn.writes.Exec(AccountInsert(acc, createdAt));
      err := r.err;
    }

    /** `SaveInfo`: the same guarded sequence of updates as the newer repository. */
    method SaveInfo(acc: Account) returns (err: Option<Error>)
      modifies conn.writes
      ensures acc.email == "" ==> err == Some(MissingEmail) && conn.writes.entries == old(conn.writes.entries)
      ensures acc.email != "" ==>
        Backend.Attempted(AccountUpdates(acc), conn.writes.reply, old(conn.writes.entries), conn.writes.entries, err)
    {
      err := SaveAccount(conn.writes, acc);
    }
  }
}
