/** The repository record of model/Repository.js: the document shape kept in the
    "Repositories" collection, the schema's required-field rule, and the unique
    index on `id`. */
module RepositorySchema {
  import opened Wrappers

  /** A repository document. A JavaScript object may lack any of its fields, so each
      field is optional here; the schema decides which ones a stored document has. */
  datatype Repository = Repository(
    id: Option<string>,
    fullName: Option<string>,
    description: Option<string>,
    language: Option<string>,
    forksCount: Option<int>,
    stargazersCount: Option<int>,
    ratingAverage: Option<int>,
    reviewCount: Option<int>,
    ownerAvatarUrl: Option<string>)

  /** `type: String, required: true`: Mongoose's required validator for strings
      refuses an absent value and the empty string. */
  predicate RequiredString(v: Option<string>) {
    v.Some? && v.value != ""
  }

  /** `type: Number, required: true`: any present number passes, zero included. */
  predicate RequiredNumber(v: Option<int>) {
    v.Some?
  }

  /** The required rule for the seven content fields (everything but `id` and the
      optional `ownerAvatarUrl`). */
  predicate ContentPresent(d: Repository) {
    && RequiredString(d.fullName)
    && RequiredString(d.description)
    && RequiredString(d.language)
    && RequiredNumber(d.forksCount)
    && RequiredNumber(d.stargazersCount)
    && RequiredNumber(d.ratingAverage)
    && RequiredNumber(d.reviewCount)
  }

  /** A document passes the schema's validation: `id` and the seven content fields
      are present; `ownerAvatarUrl` (`required: false`) may be anything. */
  predicate Conforms(d: Repository)
    ensures Conforms(d) ==> d.id.Some? && d.fullName.Some? && d.description.Some? && d.language.Some?
    ensures Conforms(d) ==> d.forksCount.Some? && d.stargazersCount.Some?
                            && d.ratingAverage.Some? && d.reviewCount.Some?
  {
    RequiredString(d.id) && ContentPresent(d)
  }

  /** `ownerAvatarUrl` is optional: whether it is present, and what it holds, never
      decides whether a document passes the schema. */
  lemma AvatarUrlOptional(d: Repository, url: Option<string>)
    ensures Conforms(d.(ownerAvatarUrl := url)) <==> Conforms(d)
  {
  }

  /** Some document of the collection already carries this id. */
  predicate IdTaken(docs: seq<Repository>, id: Option<string>) {
    exists d :: d in docs && d.id == id
  }

  /** `unique: true` on `id`: no two documents of the collection share an id. */
  ghost predicate UniqueIds(docs: seq<Repository>) {
    forall i, j :: 0 <= i < j < |docs| ==> docs[i].id != docs[j].id
  }

  /** What the collection guarantees of every document it holds. */
  ghost predicate ValidCollection(docs: seq<Repository>) {
    (forall d :: d in docs ==> Conforms(d)) && UniqueIds(docs)
  }

  /** Inserting a conforming document whose id is not yet taken keeps the
      collection valid. */
  lemma InsertKeepsCollectionValid(docs: seq<Repository>, d: Repository)
    requires ValidCollection(docs)
    requires Conforms(d) && !IdTaken(docs, d.id)
    ensures ValidCollection(docs + [d])
  {
  }
}
