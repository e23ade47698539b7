/** The decisions the resolvers of index.js take before they touch the store: the
    required-field test of createRepository, the ordered checks of createUser, the
    account lookup `User.findOne({ email })` and the credential test of login. */
module Checks {
  import opened Wrappers
  import opened RepositorySchema

  /** What a resolver can throw. */
  datatype Error =
    | GraphQLError(message: string)  // raised by a resolver and shown to the client
    | SchemaViolation                // Mongoose refused a document that fails the schema
    | DuplicateKey                   // the unique index on `id` refused an insert

  const MissingRequiredFields := "Missing required fields"
  const EmailAlreadyExists := "Email already exists"
  const PasswordRequired := "Password is required"
  const PasswordTooShort := "Password must be at least 8 characters"
  const IncorrectCredentials := "Incorrect email or password"
  const MinPasswordLength := 8

  /** The arguments of the createRepository mutation; an argument the client left
      out (or sent as null) is None. */
  datatype RepositoryArgs = RepositoryArgs(
    fullName: Option<string>,
    description: Option<string>,
    language: Option<string>,
    forksCount: Option<int>,
    stargazersCount: Option<int>,
    ratingAverage: Option<int>,
    reviewCount: Option<int>,
    ownerAvatarUrl: Option<string>)

  /** The content of a document: every field but `id`. */
  function ArgsOf(d: Repository): RepositoryArgs {
    RepositoryArgs(d.fullName, d.description, d.language, d.forksCount,
                   d.stargazersCount, d.ratingAverage, d.reviewCount, d.ownerAvatarUrl)
  }

  /** `{ id: uuidv4(), ...args }`: the document built from the arguments and a fresh
      id. It carries that id, and its content is the arguments, field for field. */
  function WithId(id: string, args: RepositoryArgs): (d: Repository)
    ensures d.id == Some(id)
    ensures ArgsOf(d) == args
  {
    Repository(Some(id), args.fullName, args.description, args.language,
               args.forksCount, args.stargazersCount, args.ratingAverage,
               args.reviewCount, args.ownerAvatarUrl)
  }

  /** JavaScript truthiness of an optional string: absent and "" are falsy. */
  predicate TruthyString(v: Option<string>) {
    v.Some? && v.value != ""
  }

  /** JavaScript truthiness of an optional integer: absent and 0 are falsy. */
  predicate TruthyNumber(v: Option<int>) {
    v.Some? && v.value != 0
  }

  /** Some count field holds the number zero. */
  predicate SomeCountIsZero(d: Repository) {
    d.forksCount == Some(0) || d.stargazersCount == Some(0)
    || d.ratingAverage == Some(0) || d.reviewCount == Some(0)
  }

  /** The guard of createRepository: every one of the seven fields must be truthy.
      It accepts exactly the documents whose content the schema accepts and whose
      counts are all non-zero; `id` and `ownerAvatarUrl` play no part. */
  function CheckRepository(d: Repository): (r: Option<Error>)
    ensures r.None? <==> ContentPresent(d) && !SomeCountIsZero(d)
    ensures r.Some? ==> r.value == GraphQLError(MissingRequiredFields)
  {
    if !TruthyString(d.fullName) || !TruthyString(d.description) || !TruthyString(d.language)
       || !TruthyNumber(d.forksCount) || !TruthyNumber(d.ratingAverage)
       || !TruthyNumber(d.stargazersCount) || !TruthyNumber(d.reviewCount)
    then Some(GraphQLError(MissingRequiredFields))
    else None
  }

  /** The guard is at least as strict as the schema: a document it accepts, built
      with a non-empty id, passes Mongoose's validation. */
  lemma CheckStricterThanSchema(id: string, args: RepositoryArgs)
    requires id != "" && CheckRepository(WithId(id, args)).None?
    ensures Conforms(WithId(id, args))
  {
  }

  /** ... and strictly stricter: a repository with zero forks satisfies the schema,
      yet the guard reports it as missing a required field. */
  lemma ZeroCountRejected()
    ensures exists args: RepositoryArgs ::
      Conforms(WithId("0", args)) && CheckRepository(WithId("0", args)) == Some(GraphQLError(MissingRequiredFields))
  {
    var args := RepositoryArgs(Some("a/b"), Some("d"), Some("Dafny"), Some(0), Some(1), Some(1), Some(1), None);
    assert Conforms(WithId("0", args)) && SomeCountIsZero(WithId("0", args));
  }

  /** ownerAvatarUrl is never consulted: changing it never changes the verdict. */
  lemma AvatarUrlNotChecked(id: string, args: RepositoryArgs, url: Option<string>)
    ensures CheckRepository(WithId(id, args.(ownerAvatarUrl := url))) == CheckRepository(WithId(id, args))
  {
  }

  /** A stored account as the "Users" collection holds it; `password` is the
      stored bcrypt hash. */
  datatype User = User(id: string, email: string, password: string)

  /** No two accounts share an email. */
  ghost predicate UniqueEmails(users: seq<User>) {
    forall i, j :: 0 <= i < j < |users| ==> users[i].email != users[j].email
  }

  /** No two accounts share an id. */
  ghost predicate UniqueUserIds(users: seq<User>) {
    forall i, j :: 0 <= i < j < |users| ==> users[i].id != users[j].id
  }

  /** `User.findOne({ email })`: the first stored account with this email, if any. */
  function FindByEmail(users: seq<User>, email: string): (r: Option<User>)
    ensures r.Some? ==> r.value in users && r.value.email == email
    ensures r.None? ==> forall u :: u in users ==> u.email != email
  {
    if |users| == 0 then None
    else if users[0].email == email then Some(users[0])
    else FindByEmail(users[1..], email)
  }

  /** With unique emails, the lookup finds exactly the account that has the email. */
  lemma FindByEmailUnique(users: seq<User>, u: User)
    requires UniqueEmails(users) && u in users
    ensures FindByEmail(users, u.email) == Some(u)
  {
  }

  /** The checks of createUser, in the source's order: an existing account with the
      email, then a missing or empty password, then one shorter than 8 characters. */
  function CheckNewUser(existing: Option<User>, password: Option<string>): (r: Option<Error>)
    ensures existing.Some? ==> r == Some(GraphQLError(EmailAlreadyExists))
    ensures existing.None? && !TruthyString(password) ==> r == Some(GraphQLError(PasswordRequired))
    ensures existing.None? && password.Some? && 0 < |password.value| < MinPasswordLength
            ==> r == Some(GraphQLError(PasswordTooShort))
    ensures r.None? <==> existing.None? && password.Some? && |password.value| >= MinPasswordLength
  {
    if existing.Some? then Some(GraphQLError(EmailAlreadyExists))
    else if !TruthyString(password) then Some(GraphQLError(PasswordRequired))
    else if |password.value| < MinPasswordLength then Some(GraphQLError(PasswordTooShort))
    else None
  }

  /** The claims login signs into its token. */
  datatype Claims = Claims(email: string, id: string)

  /** The value login returns: `{ value: token }`. */
  datatype Token = Token(value: string)

  /** The decision of login over the lookup result: success needs an account and a
      password that `compare` accepts against its stored hash; `sign` stands for
      `jwt.sign` with the process-wide secret. */
  function Authenticate(found: Option<User>, password: string,
                        compare: (string, string) -> bool, sign: Claims -> string): (r: Result<Token, Error>)
    ensures r.Success? <==> found.Some? && compare(password, found.value.password)
    ensures r.Success? ==> r.value == Token(sign(Claims(found.value.email, found.value.id)))
    ensures r.Failure? ==> r.error == GraphQLError(IncorrectCredentials)
  {
    var correctPassword := if found.None? then false else compare(password, found.value.password);
    if !(found.Some? && correctPassword) then Failure(GraphQLError(IncorrectCredentials))
    else Success(Token(sign(Claims(found.value.email, found.value.id))))
  }

  /** Login does not reveal whether the email exists: an unknown email and a known
      email with a wrong password give the same error. */
  lemma LoginFailuresIndistinguishable(u: User, password: string, wrong: string,
                                       compare: (string, string) -> bool, sign: Claims -> string)
    requires !compare(wrong, u.password)
    ensures Authenticate(None, password, compare, sign) == Authenticate(Some(u), wrong, compare, sign)
    ensures Authenticate(None, password, compare, sign) == Failure(GraphQLError(IncorrectCredentials))
  {
  }
}
