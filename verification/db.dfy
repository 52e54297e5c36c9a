/** The persisted rows the handlers read and write, and the stores that hold
    them. The database client itself is foreign: a store is a finite map, and a
    failing query is an input of the handler that issues it. */
module Db {
  import opened Outcomes
  import opened Js

  /** A user row; `password` holds the bcrypt digest written at signup. */
  datatype User = User(id: string, username: string, password: string)

  /** A website row as `create_url` writes it: both columns are copied from
      the request body without conversion. */
  datatype Website = Website(id: string, url: Value, userId: Option<Value>)

  /** The user table, keyed by its unique `username` column. */
  type UserTable = map<string, User>

  /** The website table, keyed by its `id` column. */
  type WebsiteTable = map<string, Website>

  /** Every row sits under its own username and no two rows share an id. */
  predicate UsersConsistent(users: UserTable) {
    && (forall u :: u in users ==> users[u].username == u)
    && (forall u, v :: u in users && v in users && users[u].id == users[v].id ==> u == v)
  }

  /** No user row carries `id` (the database's fresh-id guarantee). */
  predicate IdUnused(users: UserTable, id: string) {
    forall u :: u in users ==> users[u].id != id
  }

  /** Every website row sits under its own id. */
  predicate WebsitesConsistent(sites: WebsiteTable) {
    forall k :: k in sites ==> sites[k].id == k
  }

  /** `findUnique({ where: { username } })`. */
  function FindUser(users: UserTable, username: string): Option<User> {
    Lookup(users, username)
  }
}
