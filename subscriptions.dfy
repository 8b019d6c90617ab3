/** Premium subscriptions: the status reported by GET /users/subscription/:id and the
    expiry sweep that the server runs every minute (checkSubscriptions). The current time
    is a parameter `now`. */
module Subscriptions {
  import opened Documents

  /** The `isPremium` answer of the subscription-status route: a timestamp is stored and
      the instant it parses to lies strictly after `now`. The route parses a string or a
      number as readily as a Date, so the kind of the stored value does not matter here. */
  function IsPremium(u: User, now: Timestamp): (premium: bool)
    ensures u.premiumTaken.None? ==> !premium
    ensures u.premiumTaken.Some? ==> (premium <==> now < u.premiumTaken.value.at)
  {
    u.premiumTaken.Some? && u.premiumTaken.value.at > now
  }

  /** The sweep's selection `premiumTaken <= now`, where `now` is a Date: the database
      compares a Date only with Dates, so a timestamp stored as a string or a number is never
      selected, and neither is an absent or null one. */
  function Lapsed(u: User, now: Timestamp): (lapsed: bool)
    ensures lapsed ==> u.premiumTaken.Some? && u.premiumTaken.value.DateValue?
    ensures lapsed ==> !IsPremium(u, now)
    ensures !FromRequestBody(u) ==> (lapsed <==> !IsPremium(u, now))
  {
    u.premiumTaken.Some? && u.premiumTaken.value.DateValue? && u.premiumTaken.value.at <= now
  }

  /** The sweep's update of one selected user. */
  function Demote(u: User): (d: User)
    ensures d.role == Some(RoleUser) && d.premiumTaken == None
    ensures d.(role := u.role, premiumTaken := u.premiumTaken) == u
  {
    u.(role := Some(RoleUser), premiumTaken := None)
  }

  /** The identifiers the sweep's find returns. */
  function LapsedIds(users: map<Id, User>, now: Timestamp): (ids: set<Id>)
    ensures ids <= users.Keys
    ensures forall id :: id in users ==> (id in ids <==> Lapsed(users[id], now))
  {
    set id | id in users && Lapsed(users[id], now)
  }

  /** The users collection after one sweep at `now`. */
  function Swept(users: map<Id, User>, now: Timestamp): (r: map<Id, User>)
    ensures r.Keys == users.Keys
    ensures forall id :: id in users && Lapsed(users[id], now) ==> r[id] == Demote(users[id])
    ensures forall id :: id in users && !Lapsed(users[id], now) ==> r[id] == users[id]
  {
    map id | id in users :: if Lapsed(users[id], now) then Demote(users[id]) else users[id]
  }

  /** Among users whose timestamp is a Date, the sweep selects exactly those whose status
      is not premium; a user without a timestamp, or whose timestamp came from a request body,
      is never selected. */
  lemma LapsedIsNotPremium(u: User, now: Timestamp)
    ensures Lapsed(u, now) <==> u.premiumTaken.Some? && u.premiumTaken.value.DateValue? && !IsPremium(u, now)
    ensures FromRequestBody(u) ==> !Lapsed(u, now)
  {
  }

  /** The sweep changes a user's document exactly when the user holds a Date timestamp and
      the status route would answer "not premium" for it; whatever the prior role was (admins
      included), a selected user ends with role "user" and no timestamp. */
  lemma SweepChangesExactlyExpired(users: map<Id, User>, now: Timestamp, id: Id)
    requires id in users
    ensures Swept(users, now)[id] != users[id] <==>
              users[id].premiumTaken.Some? && users[id].premiumTaken.value.DateValue? && !IsPremium(users[id], now)
    ensures Swept(users, now)[id] != users[id] ==> Swept(users, now)[id].role == Some(RoleUser) && Swept(users, now)[id].premiumTaken == None
  {
  }

  /** A user whose document has the shape a request body gives it (no timestamp, or one
      stored as a string or a number) is left alone by every sweep, whatever the time: once
      such a timestamp has passed, the status route answers "not premium" while the role,
      "premium" included, stays as it was. */
  lemma SweepKeepsBodyStamps(users: map<Id, User>, now: Timestamp, id: Id)
    requires id in users && FromRequestBody(users[id])
    ensures Swept(users, now)[id] == users[id]
    ensures users[id].premiumTaken.Some? && users[id].premiumTaken.value.at <= now ==>
              !IsPremium(Swept(users, now)[id], now) && Swept(users, now)[id].role == users[id].role
  {
  }

  /** After a sweep no user is selected again at the same instant, nor at any earlier one:
      every remaining Date timestamp lies after `now`. */
  lemma SweepLeavesNoneLapsed(users: map<Id, User>, now: Timestamp, earlier: Timestamp)
    requires earlier <= now
    ensures forall id :: id in Swept(users, now) ==> !Lapsed(Swept(users, now)[id], earlier)
    ensures forall id :: id in Swept(users, now) && !FromRequestBody(Swept(users, now)[id]) ==>
              IsPremium(Swept(users, now)[id], now)
  {
  }

  /** The sweep never changes the answer of the status route at the sweep's instant, so
      readers see the same subscription status before and after it. */
  lemma SweepKeepsStatus(users: map<Id, User>, now: Timestamp)
    ensures forall id :: id in users ==> IsPremium(Swept(users, now)[id], now) == IsPremium(users[id], now)
  {
  }

  /** A sweep run late catches up with every run it missed: sweeping at `earlier` and then
      at `now` is the same as sweeping once at `now`. With `earlier == now` this says that a
      second sweep at the same instant changes nothing. */
  lemma SweepCatchesUp(users: map<Id, User>, earlier: Timestamp, now: Timestamp)
    requires earlier <= now
    ensures Swept(Swept(users, earlier), now) == Swept(users, now)
  {
  }

  /** Running the sweep twice at the same instant changes nothing the second time. */
  lemma SweepIdempotent(users: map<Id, User>, now: Timestamp)
    ensures Swept(Swept(users, now), now) == Swept(users, now)
  {
  }
}
