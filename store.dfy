/** The resolvers of index.js over the document store: the "Repositories" and
    "Users" collections are the fields of a Store object, the queries read them,
    and the mutations check their arguments and then write at most one document. */
module Server {
  import opened Wrappers
  import opened RepositorySchema
  import opened Checks

  /** An account email is not yet registered. */
  predicate EmailFree(users: seq<User>, email: string) {
    forall u :: u in users ==> u.email != email
  }

  /** A user id is not yet in use. */
  predicate UserIdFree(users: seq<User>, id: string) {
    forall u :: u in users ==> u.id != id
  }

  class Store {
    var repositories: seq<Repository>
    var users: seq<User>

    /** Every stored repository passes the schema and has its own id; no two
        accounts share an email or an id. */
    ghost predicate Valid()
      reads this
    {
      ValidCollection(repositories) && UniqueEmails(users) && UniqueUserIds(users)
    }

    /** An empty database. */
    constructor ()
      ensures Valid()
      ensures repositories == [] && users == []
    {
      repositories := [];
      users := [];
    }

    /** Query.repositoriesCount: the number of stored repositories. */
    method RepositoriesCount() returns (n: nat)
      ensures n == |repositories|
    {
      n := |repositories|;
    }

    /** Query.allRepositories: every stored repository, in insertion order. */
    method AllRepositories() returns (rs: seq<Repository>)
      requires Valid()
      ensures rs == repositories
      ensures forall d :: d in rs ==> Conforms(d)
    {
      rs := repositories;
    }

    /** Query.allUsers: every stored account, in insertion order (hashes included). */
    method AllUsers() returns (us: seq<User>)
      requires Valid()
      ensures us == users
      ensures UniqueEmails(us)
    {
      us := users;
    }

    /** `Repository.create(doc)`: Mongoose validates the document against the
        schema, the unique index refuses a taken id, and otherwise the document is
        appended. */
    method Insert(d: Repository) returns (r: Result<Repository, Error>)
      requires Valid()
      modifies this
      ensures Valid() && users == old(users)
      ensures !Conforms(d) ==> r == Failure(SchemaViolation)
      ensures Conforms(d) && IdTaken(old(repositories), d.id) ==> r == Failure(DuplicateKey)
      ensures r.Failure? ==> repositories == old(repositories)
      ensures r.Success? <==> Conforms(d) && !IdTaken(old(repositories), d.id)
      ensures r.Success? ==> r.value == d && repositories == old(repositories) + [d]
    {
      if !Conforms(d) {
        r := Failure(SchemaViolation);
      } else if IdTaken(repositories, d.id) {
        r := Failure(DuplicateKey);
      } else {
        InsertKeepsCollectionValid(repositories, d);
        repositories := repositories + [d];
        r := Success(d);
      }
    }

    /** `newUser.save()` for an account whose email and id are new. */
    method Save(u: User) returns (saved: User)
      requires Valid() && EmailFree(users, u.email) && UserIdFree(users, u.id)
      modifies this
      ensures Valid() && repositories == old(repositories)
      ensures saved == u && users == old(users) + [u]
    {
      users := users + [u];
      saved := u;
    }

    /** Mutation.createRepository. `id` is the value uuidv4 returns: non-empty and
        not yet used. The call fails with "Missing required fields" exactly when
        some required field is absent or empty or some count is zero; then nothing
        is written. Otherwise exactly the arguments plus the id are stored. */
    method CreateRepository(args: RepositoryArgs, id: string) returns (r: Result<Repository, Error>)
      requires Valid()
      requires id != "" && !IdTaken(repositories, Some(id))
      modifies this
      ensures Valid() && users == old(users)
      ensures r.Failure? <==> !ContentPresent(WithId(id, args)) || SomeCountIsZero(WithId(id, args))
      ensures r.Failure? ==> r.error == GraphQLError(MissingRequiredFields) && repositories == old(repositories)
      ensures r.Success? ==> r.value == WithId(id, args) && Conforms(r.value)
      ensures r.Success? ==> repositories == old(repositories) + [r.value]
    {
      var repository := WithId(id, args);
      var check := CheckRepository(repository);
      if check.Some? {
        r := Failure(check.value);
        return;
      }
      CheckStricterThanSchema(id, args);
      r := Insert(repository);
    }

    /** Mutation.createUser. `hash` stands for `bcrypt.hash(_, 10)` and `id` for the
        fresh uuidv4 value. A registered email fails whatever the password; then a
        missing or empty password, then one shorter than 8 characters; only a new
        email with a long enough password stores `{id, email, hash(password)}`. */
    method CreateUser(email: string, password: Option<string>, hash: string -> string, id: string)
      returns (r: Result<User, Error>)
      requires Valid() && UserIdFree(users, id)
      modifies this
      ensures Valid() && repositories == old(repositories)
      ensures !EmailFree(old(users), email) ==> r == Failure(GraphQLError(EmailAlreadyExists))
      ensures EmailFree(old(users), email) && !TruthyString(password)
              ==> r == Failure(GraphQLError(PasswordRequired))
      ensures EmailFree(old(users), email) && password.Some? && 0 < |password.value| < MinPasswordLength
              ==> r == Failure(GraphQLError(PasswordTooShort))
      ensures r.Success? <==> EmailFree(old(users), email) && password.Some? && |password.value| >= MinPasswordLength
      ensures r.Failure? ==> users == old(users)
      ensures r.Success? ==> r.value == User(id, email, hash(password.value))
      ensures r.Success? ==> users == old(users) + [r.value]
    {
      var user := FindByEmail(users, email);
      var check := CheckNewUser(user, password);
      if check.Some? {
        r := Failure(check.value);
        return;
      }
      var hashedPassword := hash(password.value);
      var saved := Save(User(id, email, hashedPassword));
      r := Success(saved);
    }

    /** Mutation.login. `compare` stands for `bcrypt.compare` and `sign` for
        `jwt.sign` with the secret key. It succeeds exactly when an account with
        this email exists and the password matches its hash, and then signs that
        account's email and id; every failure raises the same error. */
    method Login(email: string, password: string, compare: (string, string) -> bool, sign: Claims -> string)
      returns (r: Result<Token, Error>)
      requires Valid()
      ensures r.Success? <==> exists u :: u in users && u.email == email && compare(password, u.password)
      ensures r.Success? ==> exists u :: u in users && u.email == email && r.value == Token(sign(Claims(u.email, u.id)))
      ensures r.Failure? ==> r.error == GraphQLError(IncorrectCredentials)
    {
      var user := FindByEmail(users, email);
      r := Authenticate(user, password, compare, sign);
      if r.Failure? && user.Some? {
        forall u | u in users && u.email == email ensures !compare(password, u.password) {
          FindByEmailUnique(users, u);
        }
      }
    }
  }
}
