/** The cache decorator around the categories repository
    (internal/core/repos/categories/categories.cache.go): it holds a cache but every
    operation is a plain call to the wrapped repository. */
module CategoriesCache {
  import opened Common

  /** A `categories` row. */
  datatype Category = Category(id: int, name: string, description: string)

  /** The wrapped repository (`ICategories`): what each operation answers. */
  datatype CategoriesRepo = CategoriesRepo(
    getByID: int -> Result<Category>,
    getLimit: string -> Result<seq<Category>>,
    insert: Category -> Option<Error>,
    deleteByID: int -> Option<Error>,
    update: Category -> Option<Error>)

  /** `_cache`: the cache's content (serialized values by key) and the repository. */
  datatype Decorator = Decorator(cache: map<string, string>, category: CategoriesRepo)

  /** `useCache(cache, repo)`. */
  function UseCache(cache: map<string, string>, repo: CategoriesRepo): (d: Decorator)
    ensures d.cache == cache && d.category == repo
  {
    Decorator(cache, repo)
  }

  function GetByID(d: Decorator, id: int): Result<Category>
  {
    d.category.getByID(id)
  }

  function GetLimit(d: Decorator, limit: string): Result<seq<Category>>
  {
    d.category.getLimit(limit)
  }

  function Insert(d: Decorator, ctg: Category): Option<Error>
  {
    d.category.insert(ctg)
  }

  function DeleteByID(d: Decorator, id: int): Option<Error>
  {
    d.category.deleteByID(id)
  }

  function Update(d: Decorator, ctg: Category): Option<Error>
  {
    d.category.update(ctg)
  }

  /** Decorating changes nothing: every operation answers what the wrapped
      repository answers for the same argument, whatever the cache holds. */
  lemma Transparent(d: Decorator, other: map<string, string>, id: int, limit: string, ctg: Category)
    ensures var d' := d.(cache := other);
      && GetByID(d, id) == d.category.getByID(id) && GetByID(d', id) == GetByID(d, id)
      && GetLimit(d, limit) == d.category.getLimit(limit) && GetLimit(d', limit) == GetLimit(d, limit)
      && Insert(d, ctg) == d.category.insert(ctg) && Insert(d', ctg) == Insert(d, ctg)
      && DeleteByID(d, id) == d.category.deleteByID(id) && DeleteByID(d', id) == DeleteByID(d, id)
      && Update(d, ctg) == d.category.update(ctg) && Update(d', ctg) == Update(d, ctg)
  {
  }
}
