/** Rules of the article routes: the admission rule of POST /articles, the moderation
    updates (approve, decline, mark premium), the content update with its validation chain
    and the view counter of GET /articles/:id. */
module Articles {
  import opened Documents
  import opened Users
  import opened Listing

  // ---------------------------------------------------------------------------------
  // Admission (POST /articles)

  /** The articles whose `authorEmail` is `email`. */
  function AuthoredBy(articles: map<Id, Article>, email: string): (ids: set<Id>)
    ensures ids <= articles.Keys
    ensures forall id :: id in articles ==> (id in ids <==> articles[id].authorEmail == email)
  {
    set id | id in articles && articles[id].authorEmail == email
  }

  lemma {:induction false} SubsetNoLarger(a: set<Id>, b: set<Id>)
    requires a <= b
    ensures |a| <= |b|
  {
    if a != {} {
      var x :| x in a;
      SubsetNoLarger(a - {x}, b - {x});
    }
  }

  /** `countDocuments({ authorEmail })`; it never exceeds the size of the collection. */
  function AuthoredCount(articles: map<Id, Article>, email: string): (n: nat)
    ensures n <= |articles|
  {
    SubsetNoLarger(AuthoredBy(articles, email), articles.Keys);
    |AuthoredBy(articles, email)|
  }

  predicate HasAuthored(articles: map<Id, Article>, email: string) {
    exists id :: id in articles && articles[id].authorEmail == email
  }

  /** The count the handler compares with 1 is positive exactly when the author already
      has an article. */
  lemma CountPositiveIffAuthored(articles: map<Id, Article>, email: string)
    ensures AuthoredCount(articles, email) >= 1 <==> HasAuthored(articles, email)
  {
  }

  /** Inserting an article under a fresh identifier adds exactly one to its author's count
      and leaves every other author's count alone. */
  lemma {:induction false} InsertCountsOnce(articles: map<Id, Article>, id: Id, a: Article, email: string)
    requires id !in articles
    ensures AuthoredCount(articles[id := a], email) ==
              AuthoredCount(articles, email) + (if a.authorEmail == email then 1 else 0)
  {
    var before := AuthoredBy(articles, email);
    var after := AuthoredBy(articles[id := a], email);
    if a.authorEmail == email {
      assert after == before + {id};
    } else {
      assert after == before;
    }
  }

  /** An author whose one user document has role "premium". */
  function IsPremiumAuthor(users: map<Id, User>, email: string): (premium: bool)
    ensures premium ==> HasEmail(users, email)
    ensures UniqueEmails(users) && FindUser(users, email).Some? ==>
              (premium <==> users[FindUser(users, email).value].role == Some(RolePremium))
  {
    exists u :: u in users && users[u].email == email && users[u].role == Some(RolePremium)
  }

  /** The admission decision: look the author up by email (NotFound when absent); an
      author whose role is not "premium" (admins included) and who already has an article
      is refused (Forbidden); otherwise the article is admitted. */
  function Admission(users: map<Id, User>, articles: map<Id, Article>, email: string): (verdict: Outcome)
    requires UniqueEmails(users)
    ensures verdict == Fail(NotFound(UserDoc)) <==> !HasEmail(users, email)
    ensures verdict == Fail(Forbidden) <==>
              HasEmail(users, email) && !IsPremiumAuthor(users, email) && HasAuthored(articles, email)
    ensures verdict == Pass <==>
              HasEmail(users, email) && (IsPremiumAuthor(users, email) || !HasAuthored(articles, email))
  {
    CountPositiveIffAuthored(articles, email);
    match FindUser(users, email)
    case None => Fail(NotFound(UserDoc))
    case Some(u) =>
      if users[u].role != Some(RolePremium) && AuthoredCount(articles, email) >= 1 then Fail(Forbidden)
      else Pass
  }

  /** The one-free-article rule: once a non-premium author's article has been admitted,
      the next submission by that author is refused. */
  lemma FreeAuthorGetsOneArticle(users: map<Id, User>, articles: map<Id, Article>, id: Id, a: Article)
    requires UniqueEmails(users) && id !in articles
    requires Admission(users, articles, a.authorEmail) == Pass
    requires !IsPremiumAuthor(users, a.authorEmail)
    ensures Admission(users, articles[id := a], a.authorEmail) == Fail(Forbidden)
  {
  }

  /** A premium author is never refused, however many articles they have. */
  lemma PremiumAuthorIsAdmitted(users: map<Id, User>, articles: map<Id, Article>, email: string)
    requires UniqueEmails(users) && IsPremiumAuthor(users, email)
    ensures Admission(users, articles, email) == Pass
  {
  }

  // ---------------------------------------------------------------------------------
  // Moderation (PATCH /articles/approve|decline|premium/:id)

  /** `$set: { isApproved: true, declineReason: null }`. */
  function Approved(a: Article): (r: Article)
    ensures r.isApproved == Some(true) && r.declineReason == None
    ensures r.(isApproved := a.isApproved, declineReason := a.declineReason) == a
  {
    a.(isApproved := Some(true), declineReason := None)
  }

  /** `$set: { isApproved: false, isDeclined: true, declineReason: reason }`. */
  function Declined(a: Article, reason: Option<string>): (r: Article)
    ensures r.isApproved == Some(false) && r.isDeclined == Some(true) && r.declineReason == reason
    ensures r.(isApproved := a.isApproved, isDeclined := a.isDeclined, declineReason := a.declineReason) == a
  {
    a.(isApproved := Some(false), isDeclined := Some(true), declineReason := reason)
  }

  /** `$set: { isPremium: true }`. */
  function MarkedPremium(a: Article): (r: Article)
    ensures r.isPremium == Some(true)
    ensures r.(isPremium := a.isPremium) == a
  {
    a.(isPremium := Some(true))
  }

  /** An approved article is listed under status "approved" and never under "pending". */
  lemma ApprovedIsListedAsApproved(a: Article)
    ensures Satisfies(Approved(a), BuildQuery(StatusOnly("approved")))
    ensures !Satisfies(Approved(a), BuildQuery(StatusOnly("pending")))
  {
  }

  /** A declined article is listed under status "declined" and under no other status. */
  lemma DeclinedIsListedAsDeclinedOnly(a: Article, reason: Option<string>)
    ensures Satisfies(Declined(a, reason), BuildQuery(StatusOnly("declined")))
    ensures !Satisfies(Declined(a, reason), BuildQuery(StatusOnly("approved")))
    ensures !Satisfies(Declined(a, reason), BuildQuery(StatusOnly("pending")))
  {
  }

  /** Approval does not clear `isDeclined`: an article declined and then approved is listed
      under both "approved" and "declined", and its decline reason is gone. */
  lemma DeclinedThenApprovedIsListedTwice(a: Article, reason: Option<string>)
    ensures Satisfies(Approved(Declined(a, reason)), BuildQuery(StatusOnly("approved")))
    ensures Satisfies(Approved(Declined(a, reason)), BuildQuery(StatusOnly("declined")))
    ensures Approved(Declined(a, reason)).declineReason == None
  {
  }

  /** The moderation updates do not affect the search, publisher, tag and author filters. */
  lemma ModerationKeepsContentFilters(a: Article, reason: Option<string>, p: ListParams)
    requires p.status == None
    ensures Satisfies(Approved(a), BuildQuery(p)) == Satisfies(a, BuildQuery(p))
    ensures Satisfies(Declined(a, reason), BuildQuery(p)) == Satisfies(a, BuildQuery(p))
    ensures Satisfies(MarkedPremium(a), BuildQuery(p)) == Satisfies(a, BuildQuery(p))
  {
  }

  // ---------------------------------------------------------------------------------
  // Content update (PATCH /articles/update/:id)

  /** The fields of the update request. `tags` is `None` when the body's tags are missing
      or are not an array. */
  datatype ContentEdit = ContentEdit(
    title: Option<string>,
    image: Option<string>,
    publisher: Option<string>,
    description: Option<string>,
    tags: Option<seq<string>>)

  /** The handler's first check: title, description and publisher truthy, tags an array. */
  function ValidEdit(e: ContentEdit): (valid: bool)
    ensures valid ==> e.publisher.Some? && e.tags.Some?
    ensures e.title == Some("") || e.description == Some("") || e.publisher == Some("") ==> !valid
  {
    Truthy(e.title) && Truthy(e.description) && Truthy(e.publisher) && e.tags.Some?
  }

  /** Whether `findOne({ name })` finds a publisher. */
  function PublisherExists(publishers: map<Id, Publisher>, name: string): (found: bool)
    ensures publishers == map[] ==> !found
    ensures forall id :: id in publishers && publishers[id].name == Some(name) ==> found
  {
    exists id :: id in publishers && publishers[id].name == Some(name)
  }

  /** The `$set` of the content update. */
  function Edited(a: Article, e: ContentEdit): (r: Article)
    ensures r.title == e.title && r.image == e.image && r.publisher == e.publisher
    ensures r.description == e.description && r.tags == e.tags
    ensures r.(title := a.title, image := a.image, publisher := a.publisher,
               description := a.description, tags := a.tags) == a
  {
    a.(title := e.title, image := e.image, publisher := e.publisher, description := e.description, tags := e.tags)
  }

  /** The validation chain of the content update, in the handler's order: the fields first
      (Validation, before any lookup), then the publisher by name, then the article. */
  function EditOutcome(publishers: map<Id, Publisher>, articles: map<Id, Article>, id: Id, e: ContentEdit): (r: Outcome)
    ensures !ValidEdit(e) ==> r == Fail(Validation)
    ensures ValidEdit(e) && !PublisherExists(publishers, e.publisher.value) ==> r == Fail(NotFound(PublisherDoc))
    ensures ValidEdit(e) && PublisherExists(publishers, e.publisher.value) && id !in articles ==>
              r == Fail(NotFound(ArticleDoc))
    ensures r == Pass <==> ValidEdit(e) && PublisherExists(publishers, e.publisher.value) && id in articles
  {
    if !ValidEdit(e) then Fail(Validation)
    else if !PublisherExists(publishers, e.publisher.value) then Fail(NotFound(PublisherDoc))
    else if id !in articles then Fail(NotFound(ArticleDoc))
    else Pass
  }

  /** Editing the content keeps the moderation state: the article is listed under exactly
      the same statuses before and after. */
  lemma EditKeepsModeration(a: Article, e: ContentEdit, status: string)
    ensures Satisfies(Edited(a, e), BuildQuery(StatusOnly(status))) == Satisfies(a, BuildQuery(StatusOnly(status)))
  {
  }

  /** After a successful edit the article is listed under its new publisher. */
  lemma EditedIsListedUnderNewPublisher(a: Article, e: ContentEdit)
    requires ValidEdit(e)
    ensures Satisfies(Edited(a, e), BuildQuery(ListParams(None, e.publisher, None, None, None)))
  {
  }

  // ---------------------------------------------------------------------------------
  // View counter (GET /articles/:id)

  /** The view count, an absent field counting as 0. */
  function ViewCount(a: Article): (n: int)
    ensures a.views.None? ==> n == 0
    ensures a.views.Some? ==> n == a.views.value
  {
    if a.views.Some? then a.views.value else 0
  }

  /** `$inc: { views: 1 }`: the count goes up by exactly one and nothing else changes. */
  function Viewed(a: Article): (r: Article)
    ensures r.views.Some? && ViewCount(r) == ViewCount(a) + 1
    ensures r.(views := a.views) == a
  {
    a.(views := Some(ViewCount(a) + 1))
  }

  /** Counting views never changes which listings an article appears in. */
  lemma ViewKeepsListing(a: Article, q: Query)
    ensures Satisfies(Viewed(a), q) == Satisfies(a, q)
  {
  }
}
