/** The rows the account and user repositories read and write, and the heap
    records (`*domain.Account`, `*model.User`, `*schema.UserInfo`) they return. */
module Entities {

  /** An `accounts` row. */
  datatype Account = Account(username: string, role: string, email: string, password: string, kind: string)

  /** The zero value `domain.Account{}`. */
  const NoAccount := Account("", "", "", "", "")

  /** A `users` row. */
  datatype User = User(userID: int, email: string, phoneNumber: string, firstName: string, lastName: string, image: string)

  /** The zero value `model.User{}`. */
  const NoUser := User(0, "", "", "", "", "")

  /** The joined user/account view read by `Users.Info`. */
  datatype UserInfo = UserInfo(id: int, email: string, phoneNumber: string, firstName: string,
                               lastName: string, image: string, username: string, role: string)

  /** An `Account` on the heap. */
  class AccountRecord {
    var value: Account
    constructor (value: Account)
      ensures this.value == value
    {
      this.value := value;
    }
  }

  /** A `User` on the heap. */
  class UserRecord {
    var value: User
    constructor (value: User)
      ensures this.value == value
    {
      this.value := value;
    }
  }

  /** A `UserInfo` on the heap. */
  class UserInfoRecord {
    var value: UserInfo
    constructor (value: UserInfo)
      ensures this.value == value
    {
      this.value := value;
    }
  }
}
