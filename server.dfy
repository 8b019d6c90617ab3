/** The server's three collections and its route handlers, one method per route. The
    database is a store object whose collections are maps from document identifier to
    document; inserting draws a fresh identifier from a counter, as the database driver
    draws a fresh ObjectId. The current time is a parameter. */
module Server {
  import opened Documents
  import opened Subscriptions
  import opened Users
  import opened Listing
  import opened Articles

  /** The body of the subscription-status answer. */
  datatype SubscriptionStatus = SubscriptionStatus(isPremium: bool, premiumTaken: Option<Stamp>, role: Option<string>)

  class Store {
    var users: map<Id, User>
    var articles: map<Id, Article>
    var publishers: map<Id, Publisher>
    var nextId: Id

    /** Emails are unique and every identifier in use was drawn from the counter. */
    ghost predicate Valid()
      reads this
    {
      && UniqueEmails(users)
      && (forall id :: id in users ==> id < nextId)
      && (forall id :: id in articles ==> id < nextId)
      && (forall id :: id in publishers ==> id < nextId)
    }

    constructor ()
      ensures Valid()
      ensures users == map[] && articles == map[] && publishers == map[]
    {
      users, articles, publishers, nextId := map[], map[], map[], 0;
    }

    /** A store over collections written by other means than these routes (a seeded or
        migrated database, or the Date-converting user update that no request reaches);
        `next` lies above every identifier in use. */
    constructor Seeded(users0: map<Id, User>, articles0: map<Id, Article>, publishers0: map<Id, Publisher>, next: Id)
      requires UniqueEmails(users0)
      requires forall id :: id in users0 ==> id < next
      requires forall id :: id in articles0 ==> id < next
      requires forall id :: id in publishers0 ==> id < next
      ensures Valid()
      ensures users == users0 && articles == articles0 && publishers == publishers0
    {
      users, articles, publishers, nextId := users0, articles0, publishers0, next;
    }

    /** A new identifier, used by no document of any collection. */
    method FreshId() returns (id: Id)
      requires Valid()
      modifies this`nextId
      ensures Valid()
      ensures id !in users && id !in articles && id !in publishers && id < nextId
    {
      id := nextId;
      nextId := nextId + 1;
    }

    // -------------------------------------------------------------------------------
    // Users

    /** The expiry sweep (checkSubscriptions) at time `now`: find the lapsed users, then set
        role "user" and clear the timestamp of each of them. Returns the number of documents
        modified, which is the number found since each of them loses its timestamp. */
    method CheckSubscriptions(now: Timestamp) returns (modified: nat)
      requires Valid()
      modifies this
      ensures Valid()
      ensures users == Swept(old(users), now)
      ensures modified == |LapsedIds(old(users), now)|
      ensures forall id :: id in users ==> !Lapsed(users[id], now)
      ensures forall id :: id in old(users) && FromRequestBody(old(users)[id]) ==> users[id] == old(users)[id]
      ensures articles == old(articles) && publishers == old(publishers) && nextId == old(nextId)
    {
      var expired := LapsedIds(users, now);
      if expired != {} {
        users := map id | id in users :: if id in expired then Demote(users[id]) else users[id];
      }
      modified := |expired|;
      SweepLeavesNoneLapsed(old(users), now, now);
    }

    /** POST /users: register unless the email is already known. The document is the parsed
        JSON body, stored as sent, so a `premiumTaken` in it is a string or a number. */
    method CreateUser(u: User) returns (insertedId: Option<Id>)
      requires Valid() && FromRequestBody(u)
      modifies this
      ensures Valid()
      ensures HasEmail(old(users), u.email) ==> insertedId == None && users == old(users)
      ensures !HasEmail(old(users), u.email) ==>
                insertedId.Some? && insertedId.value !in old(users) && users == old(users)[insertedId.value := u]
      ensures FindUser(users, u.email).Some?
      ensures articles == old(articles) && publishers == old(publishers)
    {
      if HasEmail(users, u.email) {
        insertedId := None;
      } else {
        var id := FreshId();
        RegisterKeepsEmailsUnique(users, id, u);
        users := users[id := u];
        insertedId := Some(id);
      }
    }

    /** GET /users. */
    method ListUsers() returns (r: map<Id, User>)
      ensures r == users
    {
      r := users;
    }

    /** GET /users/:email. */
    method GetUserByEmail(email: string) returns (r: Result<User>)
      requires Valid()
      ensures r.Err? <==> !HasEmail(users, email)
      ensures r.Err? ==> r.failure == NotFound(UserDoc)
      ensures r.Ok? ==> exists id :: id in users && users[id] == r.value && r.value.email == email
    {
      match FindUser(users, email)
      case None => r := Err(NotFound(UserDoc));
      case Some(id) => r := Ok(users[id]);
    }

    /** PATCH /users/:email: write the truthy profile fields; answer whether the document
        actually changed. */
    method PatchProfile(email: string, p: ProfilePatch) returns (r: Result<bool>)
      requires Valid()
      modifies this
      ensures Valid()
      ensures !HasEmail(old(users), email) ==> r == Err(NotFound(UserDoc)) && users == old(users)
      ensures HasEmail(old(users), email) ==>
                var id := FindUser(old(users), email).value;
                && users == old(users)[id := Patched(old(users)[id], p)]
                && r == Ok(Patched(old(users)[id], p) != old(users)[id])
      ensures articles == old(articles) && publishers == old(publishers) && nextId == old(nextId)
    {
      match FindUser(users, email)
      case None =>
        r := Err(NotFound(UserDoc));
      case Some(id) =>
        var before := users[id];
        var after := Patched(before, p);
        users := users[id := after];
        r := Ok(after != before);
    }

    /** GET /users/admin/:email. */
    method CheckAdmin(email: string) returns (admin: bool)
      requires Valid()
      ensures admin <==> exists id :: id in users && users[id].email == email && users[id].role == Some(RoleAdmin)
    {
      admin := IsAdmin(users, email);
    }

    /** PATCH /users/admin/:id: set role "admin"; answers whether a document matched. */
    method PromoteToAdmin(id: Id) returns (matched: bool)
      requires Valid()
      modifies this
      ensures Valid()
      ensures matched == (id in old(users))
      ensures matched ==> users == old(users)[id := Promoted(old(users)[id])]
      ensures matched ==> IsAdmin(users, old(users)[id].email)
      ensures !matched ==> users == old(users)
      ensures articles == old(articles) && publishers == old(publishers) && nextId == old(nextId)
    {
      matched := id in users;
      if matched {
        PromoteGrantsAdmin(users, id);
        users := users[id := Promoted(users[id])];
      }
    }

    /** GET /users/subscription/:id at time `now`. */
    method CheckSubscription(id: Id, now: Timestamp) returns (r: Result<SubscriptionStatus>)
      ensures id !in users ==> r == Err(NotFound(UserDoc))
      ensures id in users ==> r.Ok? && r.value.premiumTaken == users[id].premiumTaken && r.value.role == users[id].role
      ensures r.Ok? ==> (r.value.isPremium <==> r.value.premiumTaken.Some? && r.value.premiumTaken.value.at > now)
    {
      if id !in users {
        r := Err(NotFound(UserDoc));
      } else {
        var u := users[id];
        r := Ok(SubscriptionStatus(IsPremium(u, now), u.premiumTaken, u.role));
      }
    }

    /** DELETE /users/:id; answers whether a document was deleted. */
    method DeleteUser(id: Id) returns (deleted: bool)
      requires Valid()
      modifies this
      ensures Valid()
      ensures deleted == (id in old(users))
      ensures users == old(users) - {id}
      ensures articles == old(articles) && publishers == old(publishers) && nextId == old(nextId)
    {
      deleted := id in users;
      users := users - {id};
    }

    // -------------------------------------------------------------------------------
    // Articles

    /** GET /articles. */
    method ListArticles(p: ListParams) returns (r: map<Id, Article>)
      ensures r.Keys <= articles.Keys
      ensures forall id :: id in r ==> r[id] == articles[id]
      ensures forall id :: id in articles ==>
                (id in r <==> Listed(articles[id], p))
    {
      r := Select(articles, BuildQuery(p));
      forall id | id in articles {
        ListingSemantics(articles[id], p);
      }
    }

    /** GET /articles/:id: answers the document as it was and counts one more view. */
    method ReadArticle(id: Id) returns (r: Result<Article>)
      requires Valid()
      modifies this
      ensures Valid()
      ensures id !in old(articles) ==> r == Err(NotFound(ArticleDoc)) && articles == old(articles)
      ensures id in old(articles) ==>
                r == Ok(old(articles)[id]) && articles == old(articles)[id := Viewed(old(articles)[id])]
      ensures users == old(users) && publishers == old(publishers) && nextId == old(nextId)
    {
      if id !in articles {
        r := Err(NotFound(ArticleDoc));
      } else {
        r := Ok(articles[id]);
        articles := articles[id := Viewed(articles[id])];
      }
    }

    /** GET /articles/decline-reason/:id: the projection on `declineReason`, or nothing when
        the article does not exist. */
    method DeclineReason(id: Id) returns (r: Option<Option<string>>)
      ensures r.Some? <==> id in articles
      ensures r.Some? ==> r.value == articles[id].declineReason
    {
      r := if id in articles then Some(articles[id].declineReason) else None;
    }

    /** POST /articles: the admission rule, then the payload is inserted as sent. */
    method AddArticle(a: Article) returns (r: Result<Id>)
      requires Valid()
      modifies this
      ensures Valid()
      ensures r.Err? <==> Admission(old(users), old(articles), a.authorEmail).Fail?
      ensures r.Err? ==> r.failure == Admission(old(users), old(articles), a.authorEmail).failure
      ensures r.Err? ==> articles == old(articles)
      ensures r.Ok? ==> r.value !in old(articles) && articles == old(articles)[r.value := a]
      ensures r.Ok? ==> AuthoredCount(articles, a.authorEmail) == AuthoredCount(old(articles), a.authorEmail) + 1
      ensures users == old(users) && publishers == old(publishers)
    {
      match FindUser(users, a.authorEmail)
      case None =>
        r := Err(NotFound(UserDoc));
      case Some(u) =>
        CountPositiveIffAuthored(articles, a.authorEmail);
        if users[u].role != Some(RolePremium) && AuthoredCount(articles, a.authorEmail) >= 1 {
          r := Err(Forbidden);
        } else {
          var id := FreshId();
          InsertCountsOnce(articles, id, a, a.authorEmail);
          articles := articles[id := a];
          r := Ok(id);
        }
    }

    /** PATCH /articles/approve/:id; answers whether a document matched. */
    method Approve(id: Id) returns (matched: bool)
      requires Valid()
      modifies this
      ensures Valid()
      ensures matched == (id in old(articles))
      ensures articles == if matched then old(articles)[id := Approved(old(articles)[id])] else old(articles)
      ensures users == old(users) && publishers == old(publishers) && nextId == old(nextId)
    {
      matched := id in articles;
      if matched {
        articles := articles[id := Approved(articles[id])];
      }
    }

    /** PATCH /articles/decline/:id with the body's `reason`. */
    method Decline(id: Id, reason: Option<string>) returns (matched: bool)
      requires Valid()
      modifies this
      ensures Valid()
      ensures matched == (id in old(articles))
      ensures articles == if matched then old(articles)[id := Declined(old(articles)[id], reason)] else old(articles)
      ensures users == old(users) && publishers == old(publishers) && nextId == old(nextId)
    {
      matched := id in articles;
      if matched {
        articles := articles[id := Declined(articles[id], reason)];
      }
    }

    /** PATCH /articles/premium/:id. */
    method MarkPremium(id: Id) returns (matched: bool)
      requires Valid()
      modifies this
      ensures Valid()
      ensures matched == (id in old(articles))
      ensures articles == if matched then old(articles)[id := MarkedPremium(old(articles)[id])] else old(articles)
      ensures users == old(users) && publishers == old(publishers) && nextId == old(nextId)
    {
      matched := id in articles;
      if matched {
        articles := articles[id := MarkedPremium(articles[id])];
      }
    }

    /** PATCH /articles/update/:id: validate, look the publisher up by name, then write the
        five content fields of the article. */
    method UpdateContent(id: Id, e: ContentEdit) returns (r: Outcome)
      requires Valid()
      modifies this
      ensures Valid()
      ensures r == EditOutcome(old(publishers), old(articles), id, e)
      ensures r.Fail? ==> articles == old(articles)
      ensures r.Pass? ==> articles == old(articles)[id := Edited(old(articles)[id], e)]
      ensures users == old(users) && publishers == old(publishers) && nextId == old(nextId)
    {
      if !ValidEdit(e) {
        r := Fail(Validation);
        return;
      }
      if !PublisherExists(publishers, e.publisher.value) {
        r := Fail(NotFound(PublisherDoc));
        return;
      }
      if id !in articles {
        r := Fail(NotFound(ArticleDoc));
        return;
      }
      articles := articles[id := Edited(articles[id], e)];
      r := Pass;
    }

    /** DELETE /articles/:id. */
    method DeleteArticle(id: Id) returns (deleted: bool)
      requires Valid()
      modifies this
      ensures Valid()
      ensures deleted == (id in old(articles))
      ensures articles == old(articles) - {id}
      ensures users == old(users) && publishers == old(publishers) && nextId == old(nextId)
    {
      deleted := id in articles;
      articles := articles - {id};
    }

    // -------------------------------------------------------------------------------
    // Publishers

    /** POST /publishers: insert the payload as sent. */
    method AddPublisher(p: Publisher) returns (id: Id)
      requires Valid()
      modifies this
      ensures Valid()
      ensures id !in old(publishers) && publishers == old(publishers)[id := p]
      ensures users == old(users) && articles == old(articles)
    {
      id := FreshId();
      publishers := publishers[id := p];
    }

    /** GET /publishers. */
    method ListPublishers() returns (r: map<Id, Publisher>)
      ensures r == publishers
    {
      r := publishers;
    }
  }

  /** The free-tier walk-through: a user with role "user" publishes one article, a second
      submission is refused and stores nothing, and an unknown author is not found. */
  method FreeTierScenario()
  {
    var store := new Store();
    var author := User("u@x.com", None, None, None, None, Some(RoleUser), None);
    var registered := store.CreateUser(author);
    assert registered.Some?;
    var again := store.CreateUser(author);
    assert again == None;

    var draft := Article("u@x.com", Some("A1"), None, None, None, None, None, None, None, None, None);
    var first := store.AddArticle(draft);
    assert HasEmail(store.users, "u@x.com");
    assert !IsPremiumAuthor(store.users, "u@x.com");
    assert first.Ok?;
    var stored := store.articles;
    var second := store.AddArticle(draft.(title := Some("A2")));
    assert HasAuthored(stored, "u@x.com");
    assert second == Err(Forbidden);
    assert store.articles == stored;

    var stranger := store.AddArticle(draft.(authorEmail := "v@x.com"));
    assert stranger == Err(NotFound(UserDoc));
  }

  /** The expiry walk-through over a database in which the timestamp is a Date: a premium
      user whose term ended yesterday is reported not premium, is demoted by one sweep, and a
      second sweep at the same instant finds nobody. */
  method ExpiryScenario(now: Timestamp)
  {
    var yesterday := now - 86_400_000;
    var member := User("p@x.com", None, None, None, None, Some(RolePremium), Some(DateValue(yesterday)));
    var store := new Store.Seeded(map[7 := member], map[], map[], 8);
    var status := store.CheckSubscription(7, now);
    assert status.Ok? && !status.value.isPremium;
    assert LapsedIds(store.users, now) == {7};
    var demoted := store.CheckSubscriptions(now);
    assert demoted == 1;
    assert store.users[7].role == Some(RoleUser) && store.users[7].premiumTaken == None;
    var none := store.CheckSubscriptions(now);
    assert none == 0;
  }

  /** The same term registered through POST /users: the timestamp arrives as text, so the
      status route reports the user not premium, yet no sweep selects the user, the role stays
      "premium" and the one-article cap never applies. */
  method RegisteredExpiryScenario(now: Timestamp)
  {
    var store := new Store();
    var yesterday := now - 86_400_000;
    var member := User("p@x.com", None, None, None, None, Some(RolePremium), Some(BodyValue(yesterday)));
    var inserted := store.CreateUser(member);
    var id := inserted.value;
    var status := store.CheckSubscription(id, now);
    assert status.Ok? && !status.value.isPremium;
    var before := store.users;
    assert LapsedIds(before, now) == {};
    var demoted := store.CheckSubscriptions(now);
    assert demoted == 0;
    assert store.users == before && store.users[id].role == Some(RolePremium);

    var draft := Article("p@x.com", Some("A1"), None, None, None, None, None, None, None, None, None);
    var first := store.AddArticle(draft);
    assert IsPremiumAuthor(store.users, "p@x.com");
    var second := store.AddArticle(draft.(title := Some("A2")));
    assert first.Ok? && second.Ok?;
  }
}
