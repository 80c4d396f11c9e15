/**
 * The user store the controller talks to, reduced to the queries it uses:
 * find by id (a map lookup), findOneBy email, and findAll. A stored user is
 * an id mapped to its name and email; `toArray` gives the public
 * representation {id, name, email}.
 */
module UserStore {
  import opened Wrappers

  /** The mutable part of a User entity. */
  datatype Record = Record(name: string, email: string)

  /** The persisted users, keyed by their store-assigned id. */
  type Store = map<int, Record>

  /** The public representation `{id, name, email}` of a user. */
  datatype UserView = UserView(id: int, name: string, email: string)

  function ToArray(id: int, rec: Record): UserView {
    UserView(id, rec.name, rec.email)
  }

  /** The application-level invariant: no two users share an email. */
  ghost predicate UniqueEmails(s: Store) {
    forall i, j :: i in s && j in s && s[i].email == s[j].email ==> i == j
  }

  /** Some stored user holds `email`. */
  predicate EmailInUse(s: Store, email: string) {
    exists id :: id in s && s[id].email == email
  }

  /** The ids of the stored users whose email is `email`. */
  function Holders(s: Store, email: string): set<int> {
    set id | id in s && s[id].email == email
  }

  /** Every non-empty finite set of ids has a least element. */
  lemma {:induction false} HasLeast(ids: set<int>)
    requires ids != {}
    ensures exists m :: m in ids && forall i :: i in ids ==> m <= i
  {
    assert exists y :: y in ids by {
      if forall y :: y !in ids { assert false; }
    }
    var x :| x in ids;
    var rest := ids - {x};
    if rest == {} {
      assert forall i :: i in ids ==> i == x || i in rest;
    } else {
      HasLeast(rest);
      var m :| m in rest && forall i :: i in rest ==> m <= i;
      assert forall i :: i in ids ==> i == x || i in rest;
      if x < m {
        assert forall i :: i in ids ==> x <= i;
      } else {
        assert forall i :: i in ids ==> m <= i;
      }
    }
  }

  function Least(ids: set<int>): (m: int)
    requires ids != {}
    ensures m in ids
    ensures forall i :: i in ids ==> m <= i
  {
    HasLeast(ids);
    var m :| m in ids && forall i :: i in ids ==> m <= i;
    m
  }

  /**
   * `findOneBy(['email' => email])`: the id of a user holding `email`, or
   * None when nobody does. When several users hold it the least id is
   * taken; under UniqueEmails there is at most one.
   */
  function FindOneByEmail(s: Store, email: string): (r: Option<int>)
    ensures r.None? <==> !EmailInUse(s, email)
    ensures r.Some? ==> r.value in s && s[r.value].email == email
    ensures UniqueEmails(s) ==> forall id :: id in s && s[id].email == email ==> r == Some(id)
  {
    var h := Holders(s, email);
    assert forall id :: id in s && s[id].email == email ==> id in h;
    if h == {} then None else Some(Least(h))
  }

  /**
   * `array_map(toArray, findAll())` over the users whose ids are in `ids`,
   * in ascending id order.
   */
  function ListFrom(s: Store, ids: set<int>): (r: seq<UserView>)
    requires ids <= s.Keys
    ensures |r| == |ids|
    ensures forall v :: v in r <==> v.id in ids && v == ToArray(v.id, s[v.id])
    ensures forall k, l :: 0 <= k < l < |r| ==> r[k].id < r[l].id
    decreases ids
  {
    if ids == {} then []
    else
      var m := Least(ids);
      var rest := ListFrom(s, ids - {m});
      [ToArray(m, s[m])] + rest
  }

  /** findAll mapped through toArray: one entry per stored user, by ascending id. */
  function ListUsers(s: Store): (r: seq<UserView>)
    ensures |r| == |s|
    ensures forall v :: v in r <==> v.id in s && v == ToArray(v.id, s[v.id])
    ensures forall k, l :: 0 <= k < l < |r| ==> r[k].id < r[l].id
  {
    assert |s.Keys| == |s|;
    ListFrom(s, s.Keys)
  }
}
