# User CRUD controller — a Dafny model

This project models `UserController` (`src/Controller/UserController.php`), the
Symfony controller behind `/api/users`. It lists, shows, creates, updates and
deletes users held in a Doctrine repository. The controller itself keeps one
invariant, that no two users share an email, and it answers each outcome with
200, 201, 400, 404 or 409.

Layout:

- `wrappers.dfy`: `Option`.
- `user_store.dfy` (module `UserStore`): the store as a map from id to
  `(name, email)`. It also holds `findOneBy` by email, `findAll` mapped
  through `toArray` (listed by ascending id), and the uniqueness invariant.
- `user_api.dfy` (module `UserApi`): each endpoint as a total function from
  (persisted state, decoded body) to (new persisted state, response). The
  lemmas beside them state each endpoint's outcomes.
- `user_controller.dfy` (module `Controller`): the class `UserController`.
  Its fields are the user map and the store's next id. `Create`, `Update`
  and `Delete` change those fields in place, following the PHP step by step.
  Each method is proved to produce exactly the `UserApi` result and to keep
  emails unique.
- `user_sessions.dfy` (module `Sessions`): requests handled one after another.
  Uniqueness survives any sequence of requests. Each request changes at most
  the one user it names. Two scenarios are also proved: creating a duplicate,
  and a full create, list, rename, delete and show lifecycle.

The request body is the decoded JSON seen through PHP `isset`: a key that is
missing or mapped to `null` is `None`. A body that does not decode is
`Body(None, None)`. So `create` answers 400 for it, and `update` on an
existing id is a successful no-op.

`update` renames its working copy before it checks the email. It commits
(flushes) only after that check passes. On a 409 the persisted user therefore
keeps its old name as well as its old email.

## Model

| member | source | states |
|---|---|---|
| `UserStore.FindOneByEmail` | src/Controller/UserController.php:69-70 | finds a holder of the email exactly when some user has it; under unique emails, it finds that one user |
| `UserStore.ListFrom` | src/Controller/UserController.php:28-30 | the listing of a set of ids has one entry per id, each equal to `toArray` of the stored user, in strictly ascending id order |
| `UserStore.ListUsers` | src/Controller/UserController.php:28-30 | `findAll` mapped through `toArray` has exactly one `{id, name, email}` entry per stored user, with nothing added or dropped |
| `UserApi.Index` | src/Controller/UserController.php:26-32 | `index` answers 200 with exactly the stored users, one entry each |
| `UserApi.Show` | src/Controller/UserController.php:39-50 | `show` answers 404 with "Utilisateur non trouvé" if and only if the id is not stored; otherwise it answers 200 with that user |
| `UserApi.CreateRejectsMissingField` | src/Controller/UserController.php:59-66 | a body lacking `name` or `email` (or null, or not decodable) gets 400 and leaves the store unchanged |
| `UserApi.CreateRejectsTakenEmail` | src/Controller/UserController.php:69-75 | an email held by any user gets 409 and leaves the store unchanged |
| `UserApi.CreateAddsOneUser` | src/Controller/UserController.php:77-86 | a successful create answers 201 with a fresh id and exactly the given name and email, adds only that user, keeps every earlier user, advances the id counter by one, and keeps emails unique |
| `UserApi.CreateOutcome` | src/Controller/UserController.php:57-87 | create answers 201 if and only if both fields are present and the email is free, and 400 if and only if a field is missing; any other outcome changes nothing |
| `UserApi.CreatePreservesGood` | src/Controller/UserController.php:68-81 | every create keeps emails unique and stored ids below the next id |
| `UserApi.UpdateRejectsUnknownId` | src/Controller/UserController.php:95-102 | update of an absent id answers 404 and changes nothing |
| `UserApi.UpdateRejectsEmailOfOther` | src/Controller/UserController.php:106-122 | an email held by another user answers 409; the store is unchanged, including a name that was also supplied, because the flush is never reached |
| `UserApi.UpdateAcceptsOwnEmail` | src/Controller/UserController.php:110-119 | supplying the user's own current email is not a conflict: the update answers 200 |
| `UserApi.UpdatePatchesOneUser` | src/Controller/UserController.php:104-124 | an update without a clash answers 200 with the updated user, overwrites exactly the supplied fields of that one user, and keeps emails unique |
| `UserApi.UpdateWithEmptyBodyIsNoOp` | src/Controller/UserController.php:104-124 | an empty body answers 200 with the unchanged user and leaves the store unchanged; repeating it gives the same result |
| `UserApi.UpdatePreservesGood` | src/Controller/UserController.php:110-122 | every update keeps emails unique |
| `UserApi.DeleteRejectsUnknownId` | src/Controller/UserController.php:133-140 | delete of an absent id answers 404 and changes nothing |
| `UserApi.DeleteRemovesOneUser` | src/Controller/UserController.php:142-147 | delete answers 200 with "Utilisateur supprimé avec succès" and removes exactly that id, leaving the other users and the id counter intact; a later show or delete of it answers 404 |
| `UserApi.DeletePreservesGood` | src/Controller/UserController.php:142-147 | every delete keeps emails unique |
| `Controller.UserController.constructor` | src/Controller/UserController.php:17-20 | the controller is built over a store whose emails are unique |
| `Controller.UserController.Index` | src/Controller/UserController.php:26-32 | the action answers as `UserApi.Index` on the current store |
| `Controller.UserController.Show` | src/Controller/UserController.php:39-50 | the action answers as `UserApi.Show` on the current store |
| `Controller.UserController.Create` | src/Controller/UserController.php:57-87 | the in-place create leaves exactly the store and response of `UserApi.Create` and keeps the invariant |
| `Controller.UserController.Update` | src/Controller/UserController.php:93-125 | the in-place update, which renames before the email check, commits exactly what `UserApi.Update` says and keeps the invariant |
| `Controller.UserController.Delete` | src/Controller/UserController.php:131-148 | the in-place delete leaves exactly the store and response of `UserApi.Delete` and keeps the invariant |
| `Sessions.HandlePreservesGood` | src/Controller/UserController.php:26-148 | every endpoint keeps emails unique |
| `Sessions.ReplayPreservesGood` | src/Controller/UserController.php:26-148 | any sequence of requests, handled one after another, keeps emails unique |
| `Sessions.HandleTouchesOnlyTarget` | src/Controller/UserController.php:26-148 | a request changes at most the one user it names (for create, the id it assigns); every other user is left exactly as it was |
| `Sessions.DuplicateCreateConflicts` | src/Controller/UserController.php:69-86 | after a successful create, a second create with the same email answers 409 and changes nothing |
| `Sessions.Lifecycle` | src/Controller/UserController.php:26-148 | create answers 201, and the new user is then in the listing. Renaming it answers 200 and keeps the email. Deleting it answers 200, after which show answers 404 and only the id counter has moved |

## Left out

- JSON decoding and encoding: the body is modelled as already decoded into
  optional `name`/`email` fields, and the response as a status plus a payload.
  A `name` or `email` that decodes to a non-string (a number, an array) is
  not modelled. `isset` accepts such a value, and `setName`/`setEmail` then
  coerce it or fail; `User` is not part of this model.
- Routing attributes and the coercion of the `{id}` path segment to `int`
  belong to the framework.
- Doctrine is reduced to an abstract store: a map from id to record, plus an
  auto-increment counter for new ids. `UserRepository` is not part of this
  model. Its `save` and `remove` are taken to commit immediately.
- `findAll` order: Doctrine does not fix it. The model lists users by
  ascending id.
- `findOneBy` by email: when several users share an email, the model picks the
  least id. That case cannot arise while the invariant holds.
- Ids and counters are unbounded integers. The database's integer width is
  not modelled.
- Concurrency: the check-then-act race between `findOneBy` and the write
  (lines 69-81 and 112-122) needs concurrent requests. The model handles
  requests one at a time, so it cannot show that two concurrent creates can
  both succeed with the same email.
- Email matching: the model compares emails by exact string equality. The
  program's `findOneBy(['email' => ...])` is a database equality decided by
  the column's collation, which may ignore case or trailing spaces; the
  collation is not modelled, so on such a database the program treats more
  emails as taken than the model does.
- Email format and non-empty name validation: the code has none, so the model
  adds none.
