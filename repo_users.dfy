/** The user repository over gorm (internal/repo): lookups by email write into one
    record the repository owns, `Info` allocates a new record every time, and the
    writes are single statements or `SaveInfo`'s guarded sequence. */
module RepoUsers {
  import opened Common
  import opened Entities
  import opened Sql
  import Backend

  class Users {
    const conn: Conn
    /** The shared `data` buffer. */
    const data: UserRecord

    /** `NewUsers()`: the connection comes from the caller, the buffer is fresh. */
    constructor New(conn: Conn)
      ensures this.conn == conn && fresh(data)
    {
      this.conn := conn;
      data := new UserRecord(NoUser);
    }

    /** `GetByEmail`: on success the row is copied into the shared buffer and the
        buffer itself is returned; on failure `(nil, err)`. */
    method GetByEmail(email: string) returns (r: UserRecord?, err: Option<Error>)
      modifies data
      ensures conn.userByEmail(email).Ok? ==>
        err == None && r == data && data.value == conn.userByEmail(email).value
      ensures conn.userByEmail(email).Err? ==>
        r == null && err == Some(conn.userByEmail(email).error) && data.value == old(data.value)
    {
      match conn.userByEmail(email)
      case Err(e) =>
        r, err := null, Some(e);
      case Ok(row) =>
        data.value := row;
        r, err := data, None;
    }

    /** `Info`: a newly allocated record on every successful call. */
    method Info(email: string) returns (r: UserInfoRecord?, err: Option<Error>)
      ensures conn.userInfoByEmail(email).Ok? ==>
        err == None && r != null && fresh(r) && r.value == conn.userInfoByEmail(email).value
      ensures conn.userInfoByEmail(email).Err? ==>
        r == null && err == Some(conn.userInfoByEmail(email).error)
    {
      match conn.userInfoByEmail(email)
      case Err(e) =>
        r, err := null, Some(e);
      case Ok(row) =>
        r := new UserInfoRecord(row);
        err := None;
    }

    /** Two successful `GetByEmail` calls return the same record, holding the second
        row, while two successful `Info` calls return two distinct records. */
    method SharedAndFresh(a: string, b: string) returns (g1: UserRecord?, g2: UserRecord?, i1: UserInfoRecord?, i2: UserInfoRecord?)
      requires conn.userByEmail(a).Ok? && conn.userByEmail(b).Ok?
      requires conn.userInfoByEmail(a).Ok? && conn.userInfoByEmail(b).Ok?
      modifies data
      ensures g1 == g2 && g1 != null && g1.value == conn.userByEmail(b).value
      ensures i1 != null && i2 != null && i1 != i2
      ensures i1.value == conn.userInfoByEmail(a).value && i2.value == conn.userInfoByEmail(b).value
    {
      var e;
      g1, e := GetByEmail(a);
      g2, e := GetByEmail(b);
      i1, e := Info(a);
      i2, e := Info(b);
    }

    /** `Insert`: one statement carrying (email, phone number, first name, last
        name, image); its error is returned. */
    method Insert(user: User) returns (err: Option<Error>)
      modifies conn.writes
      ensures conn.writes.entries == old(conn.writes.entries) + [UserInsert(user)]
      ensures err == conn.writes.reply(old(|conn.writes.entries|), UserInsert(user)).err
    {
      var r := conn.writes.Exec(UserInsert(user));
      err := r.err;
    }

    /** `OAuth2SaveInfo`: one insert-or-update statement with the same arguments. */
    method OAuth2SaveInfo(user: User) returns (err: Option<Error>)
      modifies conn.writes
      ensures conn.writes.entries == old(conn.writes.entries) + [UserUpsert(user)]
      ensures err == conn.writes.reply(old(|conn.writes.entries|), UserUpsert(user)).err
    {
      var r := conn.writes.Exec(UserUpsert(user));
      err := r.err;
    }

    /** `SaveInfo`: rejects a user without email before any write; otherwise issues
        the planned updates in order and stops at the first that fails. */
    method SaveInfo(user: User) returns (err: Option<Error>)
      modifies conn.writes
      ensures user.email == "" ==> err == Some(MissingEmail) && conn.writes.entries == old(conn.writes.entries)
      ensures user.email != "" ==>
        Backend.Attempted(UserUpdates(user), conn.writes.reply, old(conn.writes.entries), conn.writes.entries, err)
    {
      err := SaveUser(conn.writes, user);
    }
  }
}
