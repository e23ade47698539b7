# GraphQL repository server: resolver layer

A model of the request-handling layer of a small GraphQL server that keeps two
document collections, user accounts ("Users") and code-repository records
("Repositories"), and signs a session token on login.

- `wrappers.dfy` (module `Wrappers`): `Option` for a JavaScript value that may be
  absent, `Result` for a resolver that returns a value or throws.
- `repository_schema.dfy` (module `RepositorySchema`): the repository document of
  `model/Repository.js` (every field optional, as in a JavaScript object), the
  schema's required-field rule `Conforms`, and the unique index on `id`.
- `checks.dfy` (module `Checks`): the pure decisions of the resolvers in
  `index.js`: the truthiness guard of `createRepository`, the ordered checks of
  `createUser`, the lookup `User.findOne({ email })`, and the credential test of
  `login`; the error messages are the source's own strings.
- `store.dfy` (module `Server`): class `Store`, whose two fields are the two
  collections. The queries read them; `createRepository` and `createUser` check
  their arguments and then write at most one document; `login` only reads.
  `Store.Valid()` is the invariant the resolvers keep: every stored repository
  passes the schema and has its own id, and no two accounts share an email or an id.
- `scenario.dfy` (module `Scenario`): a client that walks through sign-up, a
  duplicate sign-up, logins with right and wrong credentials, and repository
  creation with the count. Every step is proved from the resolvers' contracts.

Collaborators the model cannot see are parameters:
- `bcrypt.hash(_, 10)` is a function `hash: string -> string`. The random salt is
  part of whichever function the caller passes.
- `bcrypt.compare` is `compare: (string, string) -> bool`.
- `jwt.sign(_, SECRET_KEY)` is `sign: Claims -> string`. The secret and the
  issued-at timestamp that `jwt.sign` adds are part of whichever function the
  caller passes.
- Each `uuidv4()` value is an `id` argument, required to be unused (and non-empty
  for repositories).

Behaviour of the code that the model keeps on purpose:
- The code's check for required fields is a truthiness test, so a count of `0` is
  rejected as "Missing required fields". The model keeps this behaviour.
  `Checks.ZeroCountRejected` shows a document the schema accepts but the resolver
  refuses.
- Email uniqueness is kept only by the resolver's `findOne` pre-check
  (index.js:85-88). `createUser` catches no fault from `save()`, so a store
  uniqueness fault would not become "Email already exists". The model follows the
  code and assumes calls run one after another.
- `allUsers` and `createUser` return the stored hash in `password`, as the code does.

## Model

| member | source | states |
|---|---|---|
| `RepositorySchema.InsertKeepsCollectionValid` | model/Repository.js:3-41 | adding a document that passes the schema and whose id is not taken keeps every document conforming and all ids pairwise distinct |
| `RepositorySchema.Conforms` | model/Repository.js:4-36 | a document that passes the schema has `id` and all seven required fields present; `ownerAvatarUrl` is not among the fields it demands |
| `RepositorySchema.AvatarUrlOptional` | model/Repository.js:37-40 | whether `ownerAvatarUrl` is present, and what it holds, never changes whether a document passes the schema |
| `Checks.WithId` | index.js:67 | `{ id: uuidv4(), ...args }` carries the fresh id, and its content equals the arguments field for field |
| `Checks.CheckRepository` | index.js:68-77 | the guard accepts exactly when the schema's required rule holds for the seven content fields and no count is zero; every rejection is "Missing required fields" |
| `Checks.CheckStricterThanSchema` | index.js:67-76 | a document `{id, ...args}` with a non-empty id that passes the guard has every schema-required field present |
| `Checks.ZeroCountRejected` | index.js:72-77 | there are arguments (zero forks) that the schema accepts and the guard rejects with "Missing required fields" |
| `Checks.AvatarUrlNotChecked` | index.js:67-76 | the guard's verdict does not depend on `ownerAvatarUrl` |
| `Checks.FindByEmail` | index.js:85 | the lookup returns a stored account with that email, or nothing when no stored account has it |
| `Checks.FindByEmailUnique` | index.js:107 | when emails are unique, the lookup of an account's email returns that very account |
| `Checks.CheckNewUser` | index.js:85-95 | existing email gives "Email already exists" whatever the password; otherwise a missing or empty password gives "Password is required", a length of 1 to 7 gives "Password must be at least 8 characters"; it passes exactly for a new email with a password of 8 or more characters |
| `Checks.Authenticate` | index.js:107-127 | a token is issued exactly when the account exists and `compare(password, hash)` holds; the token signs exactly that account's `{email, id}`; every failure is "Incorrect email or password" |
| `Checks.LoginFailuresIndistinguishable` | index.js:109-116 | an unknown email and a wrong password give the identical failure |
| `Server.Store.RepositoriesCount` | index.js:58-59 | returns the number of stored repositories |
| `Server.Store.AllRepositories` | index.js:60-61 | returns the stored repositories unchanged, each of which passes the schema |
| `Server.Store.AllUsers` | index.js:62-63 | returns the stored accounts unchanged; their emails are pairwise distinct |
| `Server.Store.Insert` | index.js:80 | `Repository.create`: a document failing the schema or reusing an id is refused and nothing changes; otherwise it is appended and returned |
| `Server.Store.Save` | index.js:99-104 | `newUser.save()`: appends the account and returns it, keeping emails and ids unique |
| `Server.Store.CreateRepository` | index.js:66-83 | fails exactly when a required field is absent or empty or a count is zero, with "Missing required fields" and no write; otherwise stores exactly the arguments plus the fresh id, one repository more, keeping the collection valid; accounts never change |
| `Server.Store.CreateUser` | index.js:84-105 | checks in the source's order (duplicate email, missing password, short password); on failure no account is written; on success exactly `{id, email, hash(password)}` is appended and emails stay unique; repositories never change |
| `Server.Store.Login` | index.js:106-128 | succeeds exactly when some stored account has the email and a matching password; the token value is `sign({email, id})` of that account; both failures give "Incorrect email or password"; nothing is written |

## Left out

- MongoDB connection setup and its logging (index.js:11-21): network I/O.
- The Apollo server and its listener on port 4000 (index.js:132-141): transport.
- The GraphQL type definitions (index.js:23-54) are not parsed. They only fix the argument types (strings and integers). The GraphQL layer rejects ill-typed arguments before a resolver runs.
- GraphQL `Int` is a 32-bit integer. The model uses unbounded integers, because out-of-range values never reach a resolver.
- The internals of bcrypt and jwt are not modelled, so nothing is proved about them: not hash irreversibility, and not that the stored hash differs from the plaintext.
- `uuidv4` randomness: ids are caller-supplied fresh values.
- The race between `findOne` and `save` in concurrent `createUser` calls is not modelled. Calls are sequential.
- The collection names and the extra fields that MongoDB adds to stored documents (`_id`, `__v`) are not modelled. Each resolver reads and writes one collection per record kind.
- model/User.js is not part of this model. `Server.Store.Save` is a plain append, and its schema validation, if any, is not modelled.
- An absent `SECRET_KEY` in `process.env`, which `jwt.sign` would reject, is not modelled. The secret is folded into `sign`.
- `createUser` and `login` take `email` as a present string, which `String!` guarantees.
- The `None` case of `createUser`'s `password` and of the seven `String!`/`Int!` fields of `RepositoryArgs` covers more than the source sees. GraphQL never delivers an absent value for a `String!` or `Int!` argument (index.js:49, index.js:51), so of the falsy cases only the empty string and `0` reach the resolvers' checks.
- `Server.Store.CreateUser`: the 8-character minimum is counted in Dafny characters (Unicode scalar values). JavaScript `.length` counts UTF-16 code units, so the two differ only for characters outside the Basic Multilingual Plane.
- MongoDB does not promise any particular order for `find({}).toArray()` and `findOne` without a sort (index.js:61, 63, 85, 107). The model takes the collections' natural order to be insertion order.
- Storage faults other than a schema violation or a duplicate id are not modelled.
