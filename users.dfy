/** Rules of the user routes: lookup by email, the admin flag (GET /users/admin/:email),
    registration (POST /users), the profile patch (PATCH /users/:email) and promotion to
    admin (PATCH /users/admin/:id). */
module Users {
  import opened Documents

  /** No two users share an email. Registration is the only way users are created and it
      refuses a known email, so the store keeps this invariant. */
  predicate UniqueEmails(users: map<Id, User>) {
    forall a, b :: a in users && b in users && users[a].email == users[b].email ==> a == b
  }

  predicate HasEmail(users: map<Id, User>, email: string) {
    exists id :: id in users && users[id].email == email
  }

  /** `findOne({ email })`: the user with that email, if any. */
  function FindUser(users: map<Id, User>, email: string): (found: Option<Id>)
    requires UniqueEmails(users)
    ensures found.None? <==> !HasEmail(users, email)
    ensures found.Some? ==> found.value in users && users[found.value].email == email
    ensures forall id :: id in users && users[id].email == email ==> found == Some(id)
  {
    if HasEmail(users, email) then
      var id :| id in users && users[id].email == email;
      Some(id)
    else
      None
  }

  /** The admin flag: true exactly when a user with that email exists and has role "admin". */
  function IsAdmin(users: map<Id, User>, email: string): (admin: bool)
    requires UniqueEmails(users)
    ensures admin <==> exists id :: id in users && users[id].email == email && users[id].role == Some(RoleAdmin)
  {
    match FindUser(users, email)
    case None => false
    case Some(id) => users[id].role == Some(RoleAdmin)
  }

  /** Registering a user under an unknown email and a fresh identifier keeps emails unique,
      and the new user is then the one found by that email. */
  lemma RegisterKeepsEmailsUnique(users: map<Id, User>, id: Id, u: User)
    requires UniqueEmails(users) && !HasEmail(users, u.email) && id !in users
    ensures UniqueEmails(users[id := u])
    ensures FindUser(users[id := u], u.email) == Some(id)
  {
  }

  /** The fields PATCH /users/:email reads from the request body. */
  datatype ProfilePatch = ProfilePatch(
    name: Option<string>,
    photo: Option<string>,
    phone: Option<string>,
    address: Option<string>)

  function SetIfTruthy(current: Option<string>, given: Option<string>): Option<string> {
    if Truthy(given) then given else current
  }

  /** The `$set` of the profile patch: each truthy field of the patch is written, every
      other field of the user is kept. */
  function Patched(u: User, p: ProfilePatch): (r: User)
    ensures r.(name := u.name, photo := u.photo, phone := u.phone, address := u.address) == u
    ensures r.name == (if Truthy(p.name) then p.name else u.name)
    ensures r.photo == (if Truthy(p.photo) then p.photo else u.photo)
    ensures r.phone == (if Truthy(p.phone) then p.phone else u.phone)
    ensures r.address == (if Truthy(p.address) then p.address else u.address)
  {
    u.(name := SetIfTruthy(u.name, p.name),
       photo := SetIfTruthy(u.photo, p.photo),
       phone := SetIfTruthy(u.phone, p.phone),
       address := SetIfTruthy(u.address, p.address))
  }

  /** The patch modifies the document (the route answers "Profile updated successfully")
      exactly when some truthy field carries a value different from the stored one. */
  lemma PatchModifiesIff(u: User, p: ProfilePatch)
    ensures Patched(u, p) != u <==>
              (Truthy(p.name) && p.name != u.name) || (Truthy(p.photo) && p.photo != u.photo) ||
              (Truthy(p.phone) && p.phone != u.phone) || (Truthy(p.address) && p.address != u.address)
  {
  }

  /** Sending the same patch twice: the second application changes nothing. */
  lemma PatchIdempotent(u: User, p: ProfilePatch)
    ensures Patched(Patched(u, p), p) == Patched(u, p)
  {
  }

  /** The `$set: { role: "admin" }` of promotion. */
  function Promoted(u: User): (r: User)
    ensures r.role == Some(RoleAdmin)
    ensures r.(role := u.role) == u
  {
    u.(role := Some(RoleAdmin))
  }

  /** After promoting a user, the admin flag for that user's email is true. */
  lemma {:induction false} PromoteGrantsAdmin(users: map<Id, User>, id: Id)
    requires UniqueEmails(users) && id in users
    ensures UniqueEmails(users[id := Promoted(users[id])])
    ensures IsAdmin(users[id := Promoted(users[id])], users[id].email)
  {
    var after := users[id := Promoted(users[id])];
    forall a, b | a in after && b in after && after[a].email == after[b].email
      ensures a == b
    {
      assert after[a].email == users[a].email && after[b].email == users[b].email;
    }
    assert after[id].role == Some(RoleAdmin) && after[id].email == users[id].email;
  }
}
