/**
 * The controller object: it holds the persisted users and the id counter
 * of the store, and its five actions read or update them in place. Each
 * action is proved to do what the matching function of UserApi says, and
 * the mutating ones to keep emails unique.
 */
module Controller {
  import opened UserStore
  import opened UserApi

  class UserController {
    var users: Store
    var nextId: int

    function State(): Db
      reads this
    {
      Db(users, nextId)
    }

    ghost predicate Valid()
      reads this
    {
      Good(State())
    }

    /** The controller over a store that already holds `users`. */
    constructor (users: Store, nextId: int)
      requires Good(Db(users, nextId))
      ensures Valid() && State() == Db(users, nextId)
    {
      this.users := users;
      this.nextId := nextId;
    }

    method Index() returns (r: Response)
      ensures r == UserApi.Index(State())
    {
      var data := ListUsers(users);
      r := Response(HttpOk, Users(data));
    }

    method Show(id: int) returns (r: Response)
      ensures r == UserApi.Show(State(), id)
    {
      if id !in users {
        return NotFound();
      }
      r := Response(HttpOk, User(ToArray(id, users[id])));
    }

    method Create(body: Body) returns (r: Response)
      requires Valid()
      modifies this
      ensures Valid()
      ensures Step(State(), r) == UserApi.Create(old(State()), body)
    {
      if body.name.None? || body.email.None? {
        return Response(HttpBadRequest, Error(MissingFieldsMessage));
      }
      var existing := FindOneByEmail(users, body.email.value);
      if existing.Some? {
        return Conflict();
      }
      var user := Record(body.name.value, body.email.value);
      var id := nextId;
      users := users[id := user];
      nextId := nextId + 1;
      r := Response(HttpCreated, User(ToArray(id, user)));
      CreatePreservesGood(old(State()), body);
    }

    method Update(id: int, body: Body) returns (r: Response)
      requires Valid()
      modifies this
      ensures Valid()
      ensures Step(State(), r) == UserApi.Update(old(State()), id, body)
    {
      if id !in users {
        return NotFound();
      }
      var user := users[id];
      if body.name.Some? {
        user := user.(name := body.name.value);
      }
      if body.email.Some? {
        var existing := FindOneByEmail(users, body.email.value);
        if existing.Some? && existing.value != id {
          // the renamed working copy is dropped: nothing is committed
          return Conflict();
        }
        user := user.(email := body.email.value);
      }
      users := users[id := user];
      r := Response(HttpOk, User(ToArray(id, user)));
      UpdatePreservesGood(old(State()), id, body);
    }

    method Delete(id: int) returns (r: Response)
      requires Valid()
      modifies this
      ensures Valid()
      ensures Step(State(), r) == UserApi.Delete(old(State()), id)
    {
      if id !in users {
        return NotFound();
      }
      users := users - {id};
      r := Response(HttpOk, Message(DeletedMessage));
    }
  }
}
