# Insightly server: a Dafny model of its rules

Insightly is a REST backend for a news-publishing platform built on Express and MongoDB.
It has three collections: users (with a role of "user", "premium" or "admin", plus a premium
timestamp `premiumTaken`), articles (with a moderation workflow and a view counter) and
publishers. A background job runs every minute and demotes users whose premium timestamp,
stored as a Date, has passed.

Once the collections are maps from document identifier to document and the current time is
a parameter `now`, every handler is a deterministic rule over those maps. This project models
those rules.

- `documents.dfy` (module `Documents`): the three kinds of documents, the optional fields a
  client may leave out, and the failures the handlers report (NotFound, Forbidden,
  Validation). A stored `premiumTaken` is a `Stamp`: a Date (`DateValue`) or a string or
  number from a JSON request body (`BodyValue`).
- `subscriptions.dfy` (module `Subscriptions`): the subscription status (`isPremium`), the
  sweep's selection and the users collection after a sweep.
- `users.dfy` (module `Users`): unique emails, lookup by email, the admin flag, the profile
  patch and promotion to admin.
- `listing.dfy` (module `Listing`): GET /articles. `BuildQuery` builds the query from the
  request parameters, as the handler does field by field. `Satisfies` gives the meaning of
  that query. `Listed` is the reference definition of the filter.
- `articles.dfy` (module `Articles`): the one-free-article admission rule, approve, decline,
  mark premium, the content update and its validation chain, and the view counter.
- `server.dfy` (module `Server`): class `Store` holds the three collections as fields and a
  counter that hands out fresh identifiers. It has one method per route. Each method that
  changes the store states the whole new store in terms of the old one and keeps `Valid()`.
  `Valid()` means emails are unique and every identifier came from the counter. Three
  client methods walk through the routes using only these contracts. `FreeTierScenario`
  covers the free-tier cap. `ExpiryScenario` expires a Date timestamp in a seeded database.
  `RegisteredExpiryScenario` expires a timestamp registered through POST /users.

Behaviour of the code a reader may not expect:

- An article is stored exactly as the client sent it (index.js:316). Nothing defaults
  `isApproved` or `isDeclined` to false, so these flags are `Option<bool>`. An article
  without them is listed neither as "pending" nor as "approved".
- Approving an article does not reset `isDeclined` (index.js:330). So an article that is
  declined and then approved is listed under both "approved" and "declined"
  (`DeclinedThenApprovedIsListedTwice`). Approval and decline are therefore not mutually
  exclusive.
- Admins are not exempt from the one-free-article cap (index.js:306). Only role "premium"
  is exempt.
- A premium term registered through POST /users never ends for the sweep. The route stores
  the JSON body as sent (index.js:199, 205), so `premiumTaken` is a string or a number there.
  The sweep compares it with a Date (`$lte`, index.js:424), and the database compares a Date
  only with Dates, so it never selects such a user (`SweepKeepsBodyStamps`). Once the term
  has passed, GET /users/subscription/:id parses the value and reports the user as not
  premium (index.js:158). The role stays "premium", so the one-article cap (index.js:306)
  never applies (`RegisteredExpiryScenario`). Only PATCH /users/:id converts the value to a
  Date (index.js:131), and no request reaches that route.

## Model

| member | source | states |
|---|---|---|
| Subscriptions.IsPremium | index.js:157-158 | the status is premium iff a timestamp is stored, of either kind, and the instant it parses to lies after `now`; no timestamp is never premium |
| Subscriptions.Lapsed | index.js:423-425 | the sweep's filter selects only Date timestamps, and a selected user is never premium; for a Date timestamp it selects exactly the users that are not premium |
| Subscriptions.Demote | index.js:431-434 | a swept user ends with role "user" and no timestamp, and no other field changes |
| Subscriptions.LapsedIds | index.js:423-425 | the sweep's find selects exactly the users whose timestamp is a Date not after `now` |
| Subscriptions.Swept | index.js:418-434 | the sweep keeps every user; it demotes each lapsed user whatever its role, and leaves every other user unchanged |
| Subscriptions.LapsedIsNotPremium | index.js:157-158 | among users with a Date timestamp, the sweep's filter is exactly the complement of the `isPremium` status; a user shaped by a request body is never selected |
| Subscriptions.SweepChangesExactlyExpired | index.js:423-434 | the sweep changes a user iff the user has a Date timestamp and is not premium at `now`, and a changed user has role "user" and no timestamp |
| Subscriptions.SweepKeepsBodyStamps | index.js:199-205 | a user whose timestamp came from a request body is never changed by a sweep; once the term has passed it is reported not premium yet keeps its role |
| Subscriptions.SweepLeavesNoneLapsed | index.js:423-434 | after a sweep no user is selected at that instant or earlier, and every remaining Date timestamp makes its user premium |
| Subscriptions.SweepKeepsStatus | index.js:157-158 | the sweep never changes any user's subscription status at the sweep's instant |
| Subscriptions.SweepCatchesUp | index.js:418-443 | a sweep at an earlier time followed by one at `now` equals one sweep at `now` |
| Subscriptions.SweepIdempotent | index.js:423-434 | a second sweep at the same instant changes nothing |
| Users.FindUser | index.js:187-190 | the lookup by email finds the one user with that email, and finds nothing iff no user has it |
| Users.IsAdmin | index.js:187-196 | the admin flag is true iff a user with that email exists and has role "admin" |
| Users.RegisterKeepsEmailsUnique | index.js:198-207 | inserting a user whose email is unknown keeps emails unique, and the new user is the one found by that email |
| Users.Patched | index.js:95-105 | the profile patch writes exactly the truthy fields among name, photo, phone and address, and every other field is kept |
| Users.PatchModifiesIff | index.js:105-115 | the document changes iff some truthy patch field differs from the stored value |
| Users.PatchIdempotent | index.js:95-105 | applying the same patch twice equals applying it once |
| Users.Promoted | index.js:209-217 | promotion sets role "admin" and changes nothing else |
| Users.PromoteGrantsAdmin | index.js:209-217 | after promotion, emails are still unique and the admin flag for the promoted user's email is true |
| Listing.SplitComma | index.js:249-251 | splitting the tags parameter gives at least one piece, and no piece contains a comma |
| Listing.JoinSplit | index.js:249-251 | joining the split pieces with commas gives back the parameter |
| Listing.SplitJoin | index.js:249-251 | splitting a comma-join of comma-free pieces gives back the pieces |
| Listing.SearchIgnoresCase | index.js:241-243 | two search texts that agree up to letter case match the same titles |
| Listing.ContainsIgnoringCase | index.js:241-243 | the empty search matches every title, and a match needs a title at least as long as the search |
| Listing.LiteralOccurrenceIsFound | index.js:241-243 | a title that contains the search text literally is matched, under the literal reading of the search |
| Listing.BuildQuery | index.js:229-255 | a moderation condition appears iff the status is one of the three known ones; each of the title, publisher, tag and author conditions is in the query iff its parameter is truthy, and it carries that parameter's text (the tags joined back give the parameter) |
| Listing.Satisfies | index.js:257 | the empty query matches every article, and an equality or `$in` constraint is never met by an absent field |
| Listing.Listed | index.js:229-257 | with only a met status condition and no truthy parameter every article is listed; a search or tag filter drops articles without a title or tags |
| Listing.ListingSemantics | index.js:229-257 | the built query matches an article iff every given constraint holds: the status condition, the title search, the exact publisher, at least one comma-split tag, the exact author email |
| Listing.UnknownStatusIsIgnored | index.js:232-239 | a status other than "approved", "pending" or "declined" adds no constraint |
| Listing.Select | index.js:257 | the find returns exactly the stored articles that satisfy the query, unchanged |
| Articles.AuthoredBy | index.js:307 | the counted set is exactly the stored articles with that author email |
| Articles.AuthoredCount | index.js:307 | the author's count never exceeds the number of stored articles |
| Articles.CountPositiveIffAuthored | index.js:306-308 | the author's article count is at least 1 iff the author already has an article |
| Articles.InsertCountsOnce | index.js:307-316 | an insert under a fresh id raises its author's count by exactly one and leaves every other author's count alone |
| Articles.IsPremiumAuthor | index.js:300-306 | premium authorship needs a user with that email, and it is the role "premium" of the user the lookup finds |
| Articles.Admission | index.js:295-313 | an unknown author gives NotFound; a non-premium author (admins included) with an existing article gives Forbidden; otherwise the article is admitted |
| Articles.FreeAuthorGetsOneArticle | index.js:305-316 | once a non-premium author's article is admitted, the author's next submission is Forbidden |
| Articles.PremiumAuthorIsAdmitted | index.js:305-313 | a premium author is always admitted |
| Articles.Approved | index.js:326-333 | approval sets isApproved to true and clears declineReason; isDeclined and every other field are kept |
| Articles.Declined | index.js:335-343 | decline sets isApproved false, isDeclined true and declineReason to the given reason, and nothing else |
| Articles.MarkedPremium | index.js:393-400 | marking premium sets isPremium to true and nothing else |
| Articles.ApprovedIsListedAsApproved | index.js:326-333 | an approved article is listed as "approved" and not as "pending" |
| Articles.DeclinedIsListedAsDeclinedOnly | index.js:335-343 | a declined article is listed as "declined" only |
| Articles.DeclinedThenApprovedIsListedTwice | index.js:326-343 | a declined-then-approved article is listed as both "approved" and "declined", with no decline reason |
| Articles.ModerationKeepsContentFilters | index.js:326-343 | the moderation updates do not change the result of any filter that has no status |
| Articles.ValidEdit | index.js:350 | a valid edit has a publisher name and a tags array, and an empty title, description or publisher is invalid |
| Articles.PublisherExists | index.js:356 | no publisher exists in an empty collection, and any publisher document with that name makes it exist |
| Articles.Edited | index.js:361-373 | the content update writes title, image, publisher, description and tags; moderation fields, views, isPremium and author are kept |
| Articles.EditOutcome | index.js:345-379 | the checks run in order: invalid fields give Validation before any lookup, then an unknown publisher gives NotFound, then an unknown article gives NotFound |
| Articles.EditKeepsModeration | index.js:361-373 | after a content update the article is listed under exactly the same statuses as before |
| Articles.EditedIsListedUnderNewPublisher | index.js:356-373 | after a valid content update the article is listed under its new publisher |
| Articles.ViewCount | index.js:275 | an absent view count counts as 0, and a present one as its value |
| Articles.Viewed | index.js:272-276 | a read raises the view count (absent counts as 0) by exactly one and changes nothing else |
| Articles.ViewKeepsListing | index.js:272-276 | counting a view never changes which listings the article appears in |
| Server.Store.FreshId | index.js:205 | a new identifier is used by no document |
| Server.Store.CheckSubscriptions | index.js:418-443 | the users collection becomes the swept one, the result is the number of lapsed users, no lapsed user remains, users shaped by a request body are unchanged, and nothing else changes |
| Server.Store.CreateUser | index.js:198-207 | a known email gives a null insertedId and no insert; otherwise exactly one user, the body as sent, is inserted under a fresh id; emails stay unique |
| Server.Store.ListUsers | index.js:69-72 | the whole users collection is returned |
| Server.Store.GetUserByEmail | index.js:75-87 | returns the user with that email, or NotFound iff there is none |
| Server.Store.PatchProfile | index.js:90-120 | an unknown email gives NotFound and no change; otherwise only that user is patched, and the answer is "updated" iff the document changed |
| Server.Store.CheckAdmin | index.js:187-196 | true iff a user with that email exists and has role "admin" |
| Server.Store.PromoteToAdmin | index.js:209-217 | the matched user gets role "admin" and the admin flag for its email becomes true; an unknown id changes nothing |
| Server.Store.CheckSubscription | index.js:148-164 | an unknown id gives NotFound; otherwise the answer has the user's timestamp and role, and isPremium iff the timestamp is set and parses to an instant after `now` |
| Server.Store.DeleteUser | index.js:219-224 | the user with that id, if any, is removed and nothing else changes |
| Server.Store.ListArticles | index.js:227-262 | returns exactly the stored articles that `Listed` accepts, unchanged |
| Server.Store.ReadArticle | index.js:264-282 | an unknown id gives NotFound and no change; otherwise the stored document is returned and its view count goes up by one |
| Server.Store.DeclineReason | index.js:285-292 | returns the decline reason of an existing article, or nothing for an unknown id |
| Server.Store.AddArticle | index.js:295-322 | failures follow `Admission` and leave the store unchanged; on success exactly one article (the payload) is added under a fresh id, and its author's count goes up by one |
| Server.Store.Approve | index.js:326-333 | the matched article is approved; an unknown id changes nothing |
| Server.Store.Decline | index.js:335-343 | the matched article is declined with the reason; an unknown id changes nothing |
| Server.Store.MarkPremium | index.js:393-400 | the matched article is marked premium; an unknown id changes nothing |
| Server.Store.UpdateContent | index.js:345-384 | the outcome follows `EditOutcome`; a failure changes nothing, and a success replaces only the five content fields of that article |
| Server.Store.DeleteArticle | index.js:387-391 | the article with that id, if any, is removed and nothing else changes |
| Server.Store.AddPublisher | index.js:403-407 | the payload is inserted under a fresh id |
| Server.Store.ListPublishers | index.js:409-412 | the whole publishers collection is returned |

## Left out

- HTTP routing, CORS, environment configuration, `app.listen`, the database connection and
  the response envelopes (status codes, JSON messages). Outcomes are `Result` and `Outcome`
  values instead.
- The payment-intent route (index.js:167-184): it only forwards the amount to the external
  payment provider.
- The once-a-minute schedule (index.js:446-449) and `new Date()`. The sweep is a method
  that takes `now`.
- The commented-out token and admin-check middleware (index.js:32-65). It is dead code.
- PATCH /users/:id (index.js:123-145). PATCH /users/:email has the same one-segment route
  shape and is registered first, so this route is never reached.
- Database failures and the handlers' catch blocks (500 answers). The sweep's catch-and-log
  is left out too. The model's store never fails.
- Concurrency. The model is sequential: it does not capture races between the sweep and
  requests, or between the find and the insert of POST /users and POST /articles.
- ObjectId parsing. Identifiers are abstract keys, so a malformed id is not modelled.
- Field types. A value whose JSON type differs from the type the model gives its field is
  not modelled: a number as a name, an object, a tags string instead of an array, a repeated
  query parameter. Null and absent fields are one value, `None`. Incrementing a view count
  stored as null, which the database refuses, is not modelled.
- Timestamps. A stored `premiumTaken` is a Date or a value from a request body, and each
  carries the instant `new Date(value)` parses it to. POST /users (`CreateUser`) stores a
  body, so its timestamps are never Dates and the sweep never selects them
  (`SweepKeepsBodyStamps`). `ExpiryScenario` therefore starts from a seeded database
  (`Store.Seeded`); `RegisteredExpiryScenario` shows the POST /users case. Text that does
  not parse as a date (which the status route reports as not premium) is not modelled.
- User lookup by email. The model relies on unique emails. The only route that creates
  users checks the email, so the store keeps this invariant (`Valid`). A collection seeded
  with duplicate emails is not modelled. A body without an email, which would look up null,
  is not modelled either.
- Subscriptions.IsPremium: when the stored timestamp is falsy, the route answers that value
  itself rather than `false`. An absent timestamp gives `undefined`, and the field is then
  left out of the JSON body; a null gives `null` and an empty string gives "". The model
  answers `false` in each case.
- Listing.ContainsIgnoringCase: the search text is taken as a literal string and compared
  ignoring ASCII letter case. Regular-expression syntax and case folding outside ASCII are
  not modelled.
- Server.Store.PatchProfile: a patch with no truthy field is modelled as a no-op ("No
  changes made"). Database versions that reject an empty `$set` are not modelled.
