/** The cache decorator around the addresses repository
    (internal/core/repos/addresses/addresses.cache.go): it holds a cache but every
    operation is a plain call to the wrapped repository. */
module AddressesCache {
  import opened Common

  /** An `addresses` row. */
  datatype Address = Address(id: int, street: string, ward: string, district: string, city: string, userID: int)

  /** The wrapped repository (`IAddress`): what each operation answers. */
  datatype AddressRepo = AddressRepo(
    getByID: int -> Result<Address>,
    getByUserID: int -> Result<seq<Address>>,
    insert: Address -> Result<int>)

  /** `_cache`: the cache's content (serialized values by key) and the repository. */
  datatype Decorator = Decorator(cache: map<string, string>, address: AddressRepo)

  /** `useCache(cache, repo)`. */
  function UseCache(cache: map<string, string>, repo: AddressRepo): (d: Decorator)
    ensures d.cache == cache && d.address == repo
  {
    Decorator(cache, repo)
  }

  function GetByID(d: Decorator, id: int): Result<Address>
  {
    d.address.getByID(id)
  }

  function GetByUserID(d: Decorator, userID: int): Result<seq<Address>>
  {
    d.address.getByUserID(userID)
  }

  function Insert(d: Decorator, data: Address): Result<int>
  {
    d.address.insert(data)
  }

  /** Decorating changes nothing: every operation answers what the wrapped
      repository answers for the same argument, whatever the cache holds. */
  lemma Transparent(d: Decorator, other: map<string, string>, id: int, userID: int, data: Address)
    ensures var d' := d.(cache := other);
      && GetByID(d, id) == d.address.getByID(id) && GetByID(d', id) == GetByID(d, id)
      && GetByUserID(d, userID) == d.address.getByUserID(userID) && GetByUserID(d', userID) == GetByUserID(d, userID)
      && Insert(d, data) == d.address.insert(data) && Insert(d', data) == Insert(d, data)
  {
  }
}
