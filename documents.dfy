/** Records of the three collections of the news-publishing backend (users, articles,
    publishers) and the outcome types shared by its request handlers.

    A field that a client may leave out of a request body is an `Option`: `None` stands
    for a field that is absent or stored as null (the database driver writes an undefined
    value as null), so the two are not told apart. */
module Documents {

  datatype Option<+T> = None | Some(value: T)

  /** Document identifiers (ObjectIds) are abstract keys. */
  type Id = nat

  /** Instants in milliseconds since the epoch, as a JavaScript Date holds them. */
  type Timestamp = int

  const RoleUser: string := "user"
  const RolePremium: string := "premium"
  const RoleAdmin: string := "admin"

  /** A stored `premiumTaken` value. A request body is JSON, so a value written from one is
      a string or a number (`BodyValue`); only a Date object (`DateValue`) is compared by the
      sweep's date filter, since the database compares a date only with dates. `at` is the
      instant `new Date(value)` gives for either kind. */
  datatype Stamp = DateValue(at: Timestamp) | BodyValue(at: Timestamp)

  /** A document of the users collection. `role` is a free string written by clients;
      "user", "premium" and "admin" are the values the handlers look at. */
  datatype User = User(
    email: string,
    name: Option<string>,
    photo: Option<string>,
    phone: Option<string>,
    address: Option<string>,
    role: Option<string>,
    premiumTaken: Option<Stamp>)

  /** A user document as a parsed JSON request body can carry it: its timestamp, if any,
      is a string or a number, never a Date. */
  predicate FromRequestBody(u: User) {
    u.premiumTaken.None? || u.premiumTaken.value.BodyValue?
  }

  /** A document of the articles collection. It is stored exactly as the client sent it,
      so the moderation flags, the premium flag and the view counter may all be absent. */
  datatype Article = Article(
    authorEmail: string,
    title: Option<string>,
    description: Option<string>,
    image: Option<string>,
    publisher: Option<string>,
    tags: Option<seq<string>>,
    isApproved: Option<bool>,
    isDeclined: Option<bool>,
    declineReason: Option<string>,
    isPremium: Option<bool>,
    views: Option<int>)

  /** A document of the publishers collection; articles refer to it by `name`. */
  datatype Publisher = Publisher(name: Option<string>)

  /** Which kind of document a lookup failed to find. */
  datatype Entity = UserDoc | ArticleDoc | PublisherDoc

  /** The failures the handlers report (404, 403 and 400 responses). */
  datatype Failure = NotFound(missing: Entity) | Forbidden | Validation

  /** The answer of a handler that either succeeds with nothing to return or fails. */
  datatype Outcome = Pass | Fail(failure: Failure)

  /** The answer of a handler that succeeds with a value or fails. */
  datatype Result<+T> = Ok(value: T) | Err(failure: Failure)

  /** JavaScript truthiness of an optional string: present and not empty. */
  predicate Truthy(s: Option<string>) {
    s.Some? && s.value != ""
  }
}
