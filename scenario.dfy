/** A client of the resolvers: the sign-up, duplicate sign-up and login walk-through,
    and repository creation with the store's count, proved from the resolvers'
    contracts alone. The crypto stand-ins are concrete functions chosen here. */
module Scenario {
  import opened Wrappers
  import opened RepositorySchema
  import opened Checks
  import opened Server

  method SignUpWalkThrough() {
    var store := new Store();
    var hash := (p: string) => "bcrypt:" + p;

    var created := store.CreateUser("a@x.com", Some("longenough"), hash, "u1");
    assert hash("longenough") == "bcrypt:longenough";
    assert created == Success(User("u1", "a@x.com", "bcrypt:longenough"));

    var again := store.CreateUser("a@x.com", Some("longenough"), hash, "u2");
    assert again == Failure(GraphQLError(EmailAlreadyExists));

    var short := store.CreateUser("b@x.com", Some("short"), hash, "u3");
    assert short == Failure(GraphQLError(PasswordTooShort));
  }

  method LoginWalkThrough() {
    var store := new Store();
    var hash := (p: string) => "bcrypt:" + p;
    var compare := (p: string, h: string) => h == "bcrypt:" + p;
    var sign := (c: Claims) => c.email + "|" + c.id;

    var created := store.CreateUser("a@x.com", Some("longenough"), hash, "u1");
    assert hash("longenough") == "bcrypt:longenough";

    var token := store.Login("a@x.com", "longenough", compare, sign);
    assert store.users == [User("u1", "a@x.com", "bcrypt:longenough")];
    assert sign(Claims("a@x.com", "u1")) == "a@x.com|u1";
    assert token == Success(Token("a@x.com|u1"));

    var wrong := store.Login("a@x.com", "wrong", compare, sign);
    assert "bcrypt:longenough" != "bcrypt:wrong";
    assert wrong == Failure(GraphQLError(IncorrectCredentials));

    var unknown := store.Login("c@x.com", "longenough", compare, sign);
    assert unknown == wrong;
  }

  method RepositoriesWalkThrough() {
    var store := new Store();
    var args := RepositoryArgs(Some("dafny-lang/dafny"), Some("Verifier"), Some("C#"),
                               Some(250), Some(2600), Some(90), Some(12), None);
    var before := store.RepositoriesCount();

    var first := store.CreateRepository(args, "r1");
    assert first == Success(WithId("r1", args));

    var zeroForks := store.CreateRepository(args.(forksCount := Some(0)), "r2");
    assert zeroForks == Failure(GraphQLError(MissingRequiredFields));

    var noName := store.CreateRepository(args.(fullName := Some("")), "r2");
    assert noName == Failure(GraphQLError(MissingRequiredFields));

    var second := store.CreateRepository(args.(ownerAvatarUrl := Some("https://a/b.png")), "r2");
    assert second.Success?;

    var after := store.RepositoriesCount();
    assert after == before + 2;
    var all := store.AllRepositories();
    assert all == [WithId("r1", args), WithId("r2", args.(ownerAvatarUrl := Some("https://a/b.png")))];
  }
}
