/**
 * The five endpoints of the user controller as total functions from the
 * persisted state and the decoded request to the new persisted state and
 * the response (status code and JSON payload).
 */
module UserApi {
  import opened Wrappers
  import opened UserStore

  const HttpOk := 200
  const HttpCreated := 201
  const HttpBadRequest := 400
  const HttpNotFound := 404
  const HttpConflict := 409

  const NotFoundMessage := "Utilisateur non trouvé"
  const MissingFieldsMessage := "Les champs \"name\" et \"email\" sont requis"
  const EmailTakenMessage := "Un utilisateur avec cet email existe déjà"
  const DeletedMessage := "Utilisateur supprimé avec succès"

  /**
   * The decoded request body. Only `name` and `email` are read; a key that
   * is missing or mapped to null is None (PHP `isset`), and a body that
   * does not decode to an object reads as Body(None, None).
   */
  datatype Body = Body(name: Option<string>, email: Option<string>)

  /** The JSON payload of a response. */
  datatype Payload =
    | User(user: UserView)
    | Users(users: seq<UserView>)
    | Error(error: string)
    | Message(message: string)

  datatype Response = Response(status: int, payload: Payload)

  /** The persisted state: the users and the id the store assigns next. */
  datatype Db = Db(users: Store, nextId: int)

  /** Emails are unique and every stored id lies below the next one to be assigned. */
  ghost predicate Good(db: Db) {
    && UniqueEmails(db.users)
    && forall id :: id in db.users ==> id < db.nextId
  }

  /** The state after a request, and the response sent back. */
  datatype Step = Step(db: Db, response: Response)

  function NotFound(): Response {
    Response(HttpNotFound, Error(NotFoundMessage))
  }

  function Conflict(): Response {
    Response(HttpConflict, Error(EmailTakenMessage))
  }

  /** GET /api/users: every stored user, each exactly once. */
  function Index(db: Db): (r: Response)
    ensures r.status == HttpOk && r.payload.Users?
    ensures |r.payload.users| == |db.users|
    ensures forall v :: v in r.payload.users <==> v.id in db.users && v == ToArray(v.id, db.users[v.id])
  {
    Response(HttpOk, Users(ListUsers(db.users)))
  }

  /** GET /api/users/{id}. */
  function Show(db: Db, id: int): (r: Response)
    ensures r.status == HttpNotFound <==> id !in db.users
    ensures id !in db.users ==> r.payload == Error(NotFoundMessage)
    ensures id in db.users ==> r.status == HttpOk && r.payload == User(ToArray(id, db.users[id]))
  {
    if id !in db.users then NotFound()
    else Response(HttpOk, User(ToArray(id, db.users[id])))
  }

  /** POST /api/users. */
  function Create(db: Db, body: Body): Step {
    if body.name.None? || body.email.None? then
      Step(db, Response(HttpBadRequest, Error(MissingFieldsMessage)))
    else if FindOneByEmail(db.users, body.email.value).Some? then
      Step(db, Conflict())
    else
      var id := db.nextId;
      var rec := Record(body.name.value, body.email.value);
      Step(Db(db.users[id := rec], db.nextId + 1), Response(HttpCreated, User(ToArray(id, rec))))
  }

  /** The record with the fields supplied in `body` overwritten. */
  function Patch(rec: Record, body: Body): Record {
    var rec' := if body.name.Some? then rec.(name := body.name.value) else rec;
    if body.email.Some? then rec'.(email := body.email.value) else rec'
  }

  /** The user found by email, if any, is not the one being updated. */
  predicate EmailClash(s: Store, email: string, id: int) {
    var existing := FindOneByEmail(s, email);
    existing.Some? && existing.value != id
  }

  /**
   * PUT /api/users/{id}. The name is overwritten before the email check,
   * but only a successful update is committed, so a conflict leaves the
   * persisted state as it was.
   */
  function Update(db: Db, id: int, body: Body): Step {
    if id !in db.users then Step(db, NotFound())
    else if body.email.Some? && EmailClash(db.users, body.email.value, id) then Step(db, Conflict())
    else
      var rec := Patch(db.users[id], body);
      Step(db.(users := db.users[id := rec]), Response(HttpOk, User(ToArray(id, rec))))
  }

  /** DELETE /api/users/{id}. */
  function Delete(db: Db, id: int): Step {
    if id !in db.users then Step(db, NotFound())
    else Step(db.(users := db.users - {id}), Response(HttpOk, Message(DeletedMessage)))
  }

  // ---------------------------------------------------------------- create

  lemma CreateRejectsMissingField(db: Db, body: Body)
    requires body.name.None? || body.email.None?
    ensures Create(db, body) == Step(db, Response(HttpBadRequest, Error(MissingFieldsMessage)))
  {
  }

  lemma CreateRejectsTakenEmail(db: Db, name: string, email: string)
    requires EmailInUse(db.users, email)
    ensures Create(db, Body(Some(name), Some(email))) == Step(db, Conflict())
  {
  }

  /** A create that passes both checks stores exactly one new user under a fresh id. */
  lemma CreateAddsOneUser(db: Db, name: string, email: string)
    requires Good(db)
    requires !EmailInUse(db.users, email)
    ensures var step := Create(db, Body(Some(name), Some(email)));
      && var id := step.response.payload.user.id;
      && step.response == Response(HttpCreated, User(UserView(id, name, email)))
      && id !in db.users
      && step.db.users == db.users[id := Record(name, email)]
      && step.db.nextId == db.nextId + 1
      && Good(step.db)
  {
  }

  /** Which of the three outcomes a create has, and when. */
  lemma CreateOutcome(db: Db, body: Body)
    ensures var r := Create(db, body).response;
      && (r.status == HttpCreated <==> body.name.Some? && body.email.Some? && !EmailInUse(db.users, body.email.value))
      && (r.status == HttpBadRequest <==> body.name.None? || body.email.None?)
      && (r.status != HttpCreated ==> Create(db, body).db == db)
  {
  }

  lemma CreatePreservesGood(db: Db, body: Body)
    requires Good(db)
    ensures Good(Create(db, body).db)
  {
    if body.name.Some? && body.email.Some? && !EmailInUse(db.users, body.email.value) {
      CreateAddsOneUser(db, body.name.value, body.email.value);
    }
  }

  // ---------------------------------------------------------------- update

  lemma UpdateRejectsUnknownId(db: Db, id: int, body: Body)
    requires id !in db.users
    ensures Update(db, id, body) == Step(db, NotFound())
  {
  }

  /**
   * An email held by another user is a conflict, and nothing is committed:
   * not the email, and not the name either.
   */
  lemma UpdateRejectsEmailOfOther(db: Db, id: int, body: Body, other: int)
    requires Good(db)
    requires id in db.users && other in db.users && other != id
    requires body.email == Some(db.users[other].email)
    ensures Update(db, id, body) == Step(db, Conflict())
  {
  }

  /** The user's own current email is never a conflict. */
  lemma UpdateAcceptsOwnEmail(db: Db, id: int, name: Option<string>)
    requires Good(db)
    requires id in db.users
    ensures var step := Update(db, id, Body(name, Some(db.users[id].email)));
      && step.response.status == HttpOk
      && step.db.users[id].email == db.users[id].email
  {
  }

  /**
   * An update without a clash overwrites exactly the supplied fields of
   * that one user and answers with the updated user.
   */
  lemma UpdatePatchesOneUser(db: Db, id: int, body: Body)
    requires Good(db)
    requires id in db.users
    requires body.email.Some? ==> forall j :: j in db.users && db.users[j].email == body.email.value ==> j == id
    ensures var step := Update(db, id, body);
      && var rec := step.db.users[id];
      && step.response == Response(HttpOk, User(ToArray(id, rec)))
      && step.db.users == db.users[id := rec]
      && step.db.nextId == db.nextId
      && rec.name == (if body.name.Some? then body.name.value else db.users[id].name)
      && rec.email == (if body.email.Some? then body.email.value else db.users[id].email)
      && Good(step.db)
  {
  }

  /** An empty body is a successful no-op, and repeating it changes nothing. */
  lemma UpdateWithEmptyBodyIsNoOp(db: Db, id: int)
    requires id in db.users
    ensures var step := Update(db, id, Body(None, None));
      && step == Step(db, Response(HttpOk, User(ToArray(id, db.users[id]))))
      && Update(step.db, id, Body(None, None)) == step
  {
    assert db.users[id := db.users[id]] == db.users;
  }

  lemma UpdatePreservesGood(db: Db, id: int, body: Body)
    requires Good(db)
    ensures Good(Update(db, id, body).db)
  {
    if id in db.users && !(body.email.Some? && EmailClash(db.users, body.email.value, id)) {
      UpdatePatchesOneUser(db, id, body);
    }
  }

  // ---------------------------------------------------------------- delete

  lemma DeleteRejectsUnknownId(db: Db, id: int)
    requires id !in db.users
    ensures Delete(db, id) == Step(db, NotFound())
  {
  }

  /** Deleting removes exactly that user; afterwards it can be neither shown nor deleted again. */
  lemma DeleteRemovesOneUser(db: Db, id: int)
    requires id in db.users
    ensures var step := Delete(db, id);
      && step.response == Response(HttpOk, Message(DeletedMessage))
      && step.db.users.Keys == db.users.Keys - {id}
      && step.db.nextId == db.nextId
      && (forall j :: j in step.db.users ==> step.db.users[j] == db.users[j])
      && Show(step.db, id) == NotFound()
      && Delete(step.db, id) == Step(step.db, NotFound())
  {
  }

  lemma DeletePreservesGood(db: Db, id: int)
    requires Good(db)
    ensures Good(Delete(db, id).db)
  {
  }
}
