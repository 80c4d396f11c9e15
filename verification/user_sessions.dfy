/**
 * Requests handled one after another against the same store: email
 * uniqueness holds after every prefix, and each request touches at most
 * the one user it names.
 */
module Sessions {
  import opened Wrappers
  import opened UserStore
  import opened UserApi

  datatype Request =
    | IndexRequest
    | ShowRequest(id: int)
    | CreateRequest(body: Body)
    | UpdateRequest(id: int, body: Body)
    | DeleteRequest(id: int)

  function Handle(db: Db, req: Request): Step {
    match req
    case IndexRequest => Step(db, Index(db))
    case ShowRequest(id) => Step(db, Show(db, id))
    case CreateRequest(body) => Create(db, body)
    case UpdateRequest(id, body) => Update(db, id, body)
    case DeleteRequest(id) => Delete(db, id)
  }

  /** The state after handling `reqs` in order. */
  function Replay(db: Db, reqs: seq<Request>): Db
    decreases |reqs|
  {
    if reqs == [] then db else Replay(Handle(db, reqs[0]).db, reqs[1..])
  }

  /** The one user a request may change: for a create, the id it would assign. */
  function Target(db: Db, req: Request): Option<int> {
    match req
    case IndexRequest => None
    case ShowRequest(_) => None
    case CreateRequest(_) => Some(db.nextId)
    case UpdateRequest(id, _) => Some(id)
    case DeleteRequest(id) => Some(id)
  }

  lemma HandlePreservesGood(db: Db, req: Request)
    requires Good(db)
    ensures Good(Handle(db, req).db)
  {
    match req
    case IndexRequest =>
    case ShowRequest(_) =>
    case CreateRequest(body) => CreatePreservesGood(db, body);
    case UpdateRequest(id, body) => UpdatePreservesGood(db, id, body);
    case DeleteRequest(id) => DeletePreservesGood(db, id);
  }

  /** Any sequence of requests keeps emails unique. */
  lemma {:induction false} ReplayPreservesGood(db: Db, reqs: seq<Request>)
    requires Good(db)
    ensures Good(Replay(db, reqs))
    ensures UniqueEmails(Replay(db, reqs).users)
    decreases |reqs|
  {
    if reqs != [] {
      HandlePreservesGood(db, reqs[0]);
      ReplayPreservesGood(Handle(db, reqs[0]).db, reqs[1..]);
    }
  }

  /** Every user other than the request's target is left exactly as it was. */
  lemma HandleTouchesOnlyTarget(db: Db, req: Request)
    ensures var after := Handle(db, req).db.users;
      forall j :: Target(db, req) != Some(j) ==>
        (j in after <==> j in db.users) && (j in after ==> after[j] == db.users[j])
  {
    match req
    case IndexRequest =>
    case ShowRequest(_) =>
    case CreateRequest(body) =>
      var after := Create(db, body).db.users;
      if after != db.users {
        assert after == db.users[db.nextId := Record(body.name.value, body.email.value)];
      }
    case UpdateRequest(id, body) =>
      var after := Update(db, id, body).db.users;
      if after != db.users {
        assert after == db.users[id := Patch(db.users[id], body)];
      }
    case DeleteRequest(id) =>
  }

  /** Creating a second user with an email just taken is a conflict. */
  lemma DuplicateCreateConflicts(db: Db, name: string, name': string, email: string)
    requires Good(db)
    requires !EmailInUse(db.users, email)
    ensures var first := Create(db, Body(Some(name), Some(email)));
      && first.response.status == HttpCreated
      && Create(first.db, Body(Some(name'), Some(email))) == Step(first.db, Conflict())
  {
    CreateAddsOneUser(db, name, email);
    var first := Create(db, Body(Some(name), Some(email)));
    assert first.db.users[db.nextId].email == email;
  }

  /**
   * Create a user, find it in the listing, rename it, delete it, and it
   * can no longer be shown.
   */
  lemma Lifecycle(db: Db, name: string, name': string, email: string)
    requires Good(db)
    requires !EmailInUse(db.users, email)
    ensures var created := Create(db, Body(Some(name), Some(email)));
      && var id := db.nextId;
      && created.response == Response(HttpCreated, User(UserView(id, name, email)))
      && UserView(id, name, email) in Index(created.db).payload.users
      && var renamed := Update(created.db, id, Body(Some(name'), None));
      && renamed.response == Response(HttpOk, User(UserView(id, name', email)))
      && var deleted := Delete(renamed.db, id);
      && deleted.response == Response(HttpOk, Message(DeletedMessage))
      && Show(deleted.db, id) == NotFound()
      && deleted.db == db.(nextId := db.nextId + 1)
  {
    CreateAddsOneUser(db, name, email);
    var created := Create(db, Body(Some(name), Some(email)));
    var id := db.nextId;
    UpdatePatchesOneUser(created.db, id, Body(Some(name'), None));
    var renamed := Update(created.db, id, Body(Some(name'), None));
    assert renamed.db.users == db.users[id := Record(name', email)];
    assert renamed.db.users - {id} == db.users;
  }
}
