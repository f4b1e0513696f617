# geonosis entity store, modelled in Dafny

This project models the entity store of geonosis, a tracker for
software-development projects. A project is broken into features, a feature
into PBIs (product backlog items), and agents append log entries to a project.
The model also covers the business rules that `FeatureService` and
`ProjectService` put on top of the store:

- the next-order policy for features;
- single and bulk creation;
- merge-patch updates;
- status updates;
- cascading deletes;
- the two listing orders.

It also models the records with their column defaults, the seven string
enumerations, the pull-request URL builders of projects and PBIs, the
`blocked_by`/`blocking` relation between PBIs, and the request-validation
rules of the Pydantic schemas.

## How the model is laid out

- **Rows are datatypes.** `Project`, `Feature`, `Pbi` and `AgentLog` are
  datatypes. Each shares a `Meta` value with the key and two timestamps
  (`base.dfy`). Constructor defaults give the column defaults.
- **The session is a class.** `Store.Database` holds one `map` per table,
  from primary key to row. Keys come from a counter (`nextId`). Time is a
  monotone counter (`clock`) that advances once for every call that inserts
  or updates rows; deletes leave it as it is.
- **Validity.** `Database.Valid()` says that:
  - every row is stored under its own key;
  - every key is older than the counter;
  - timestamps are ordered and not ahead of the clock;
  - every required reference names an existing row: feature to project, PBI
    to feature, log to project.

  Every writing method keeps `Valid()`.
- **Services are classes over the session.** `FeatureServices.FeatureService`
  and `ProjectServices.ProjectService` each hold a `Database`. Each method
  states the whole new state of the tables it writes, and says that every
  other table is unchanged. Each service call is one atomic step.
- **Loops are modelled as loops.** Where the source loops, the model loops,
  and each loop is proved against a reference definition:
  - the `setattr` loop of `update` against `Merge`;
  - the bulk-create loop against `NewFeature` per item;
  - the maximum-order scan against `MaxOrder`;
  - the two listings against their sort predicates and key sets.
- **Python semantics are written out.** The pieces that matter here are
  `str.rstrip`, f-string rendering of an `int`, and truthiness of `0`, `None`
  and `""` (`text.dfy`, `project.dfy`, `pbi.dfy`).

### Next order: the code, not the docstring

The docstring of `_get_next_order` says "max + 1, or 0 if no features exist".
The code computes `(max_order or -1) + 1`. In Python a maximum of 0 is false,
so when every existing order is 0 the next order is 0 again, not 1.

The model follows the code, in `NextOrderAfter`:

- `FeatureServices.NextOrderPolicy` states the rule and its exception;
- `Scenarios.ZeroOrderCollision` shows two fresh features that both get
  order 0.

## Model

| member | source | states |
|---|---|---|
| Enums.ProjectTypeFromString | apps/api/src/models/enums.py:11-22 | reading a stored string gives back exactly the member whose value it is, and fails for any other string |
| Enums.ProjectStatusFromString | apps/api/src/models/enums.py:25-43 | reading a stored string gives back exactly the member whose value it is, and fails for any other string |
| Enums.FeatureStatusFromString | apps/api/src/models/enums.py:46-56 | reading a stored string gives back exactly the member whose value it is, and fails for any other string |
| Enums.PbiTypeFromString | apps/api/src/models/enums.py:59-68 | reading a stored string gives back exactly the member whose value it is, and fails for any other string |
| Enums.PbiStatusFromString | apps/api/src/models/enums.py:71-85 | reading a stored string gives back exactly the member whose value it is, and fails for any other string |
| Enums.PrStatusFromString | apps/api/src/models/enums.py:88-99 | reading a stored string gives back exactly the member whose value it is, and fails for any other string |
| Enums.AgentMessageTypeFromString | apps/api/src/models/enums.py:102-117 | reading a stored string gives back exactly the member whose value it is, and fails for any other string |
| Enums.ProjectTypeToString | apps/api/src/models/enums.py:11-22 | the stored value is the member's name: nonempty, capitals and `_` only, not starting or ending with `_` |
| Enums.ProjectStatusToString | apps/api/src/models/enums.py:25-43 | the stored value is the member's name: nonempty, capitals and `_` only, not starting or ending with `_` |
| Enums.FeatureStatusToString | apps/api/src/models/enums.py:46-56 | the stored value is the member's name: nonempty, capitals and `_` only, not starting or ending with `_` |
| Enums.PbiTypeToString | apps/api/src/models/enums.py:59-68 | the stored value is the member's name: nonempty, capitals and `_` only, not starting or ending with `_` |
| Enums.PbiStatusToString | apps/api/src/models/enums.py:71-85 | the stored value is the member's name: nonempty, capitals and `_` only, not starting or ending with `_` |
| Enums.PrStatusToString | apps/api/src/models/enums.py:88-99 | the stored value is the member's name: nonempty, capitals and `_` only, not starting or ending with `_` |
| Enums.AgentMessageTypeToString | apps/api/src/models/enums.py:102-117 | the stored value is the member's name: nonempty, capitals and `_` only, not starting or ending with `_` |
| Enums.EnumerationsAreComplete | apps/api/src/models/enums.py:20-117 | the members number 3, 11, 4, 2, 8, 5 and 5, and each listing holds every member |
| Enums.StringValuesAreDistinct | apps/api/src/models/enums.py:20-117 | within each enumeration, distinct members are stored as distinct strings |
| Enums.StringRoundTrips | apps/api/src/models/enums.py:20-117 | converting a member to its string and back gives the member, for all seven enumerations |
| Base.NewMeta | apps/api/src/models/base.py:35-61 | a new row carries the fresh key, and both of its timestamps come from the same clock reading |
| Base.OnUpdate | apps/api/src/models/base.py:35-46 | an update never changes the key or `createdAt`; it refreshes `updatedAt` to the current time when a column changed, and otherwise leaves the row as it was |
| Base.OnUpdateKeepsStamps | apps/api/src/models/base.py:35-46 | a refresh keeps `createdAt <= updatedAt <= clock` |
| Text.RStrip | apps/api/src/models/project.py:82 | the stripped string is a prefix of the input, only the stripped character was removed, and the result does not end in that character |
| Text.RStripIsUnique | apps/api/src/models/project.py:82 | the three properties of `RStrip` pick out exactly one prefix |
| Text.RStripIdempotent | apps/api/src/models/pbi.py:113 | stripping a second time changes nothing |
| Text.NatToString | apps/api/src/models/pbi.py:114 | the rendering of a natural number is a nonempty string of digits with no leading zero |
| Text.ParseNatToString | apps/api/src/models/pbi.py:114 | reading the decimal rendering of a natural number back gives the number |
| Text.IntToStringRoundTrip | apps/api/src/models/project.py:83 | the f-string rendering of any `int`, negative ones included, is a well-formed numeral that reads back as the same `int` |
| ProjectModel.NewProjectRow | apps/api/src/models/project.py:42-55 | a new project defaults to type NEW_PROJECT and status DRAFT, with no repository URL or name |
| ProjectModel.ProjectPrUrl | apps/api/src/models/project.py:69-83 | there is no URL exactly when the repository URL is absent or empty; otherwise the URL is the stripped base, then `/pull/`, then the number, and the base does not end in `/`; the number is not checked |
| FeatureModel.NewFeatureRow | apps/api/src/models/feature.py:45-59 | a new feature belongs to the given project, with status PENDING, no branch and order 0 |
| AgentLogModel.NewAgentLogRow | apps/api/src/models/agent_log.py:46-69 | a new log keeps its project, its optional PBI reference, agent, message type and content, and gets an empty `extra_data` object |
| PbiModel.NewPbiRow | apps/api/src/models/pbi.py:50-79 | a new PBI has the given feature and type, status PENDING and order 0; every nullable column is empty, including `blockedById` |
| PbiModel.PbiPrUrl | apps/api/src/models/pbi.py:100-114 | there is no URL exactly when the PR number is absent or 0, or the repository URL is absent or empty; otherwise the URL is the stripped base, then `/pull/`, then the number; the base does not end in `/` and is a fixed point of stripping |
| PbiModel.PrUrlsAgree | apps/api/src/models/project.py:69-83 | given a repository URL and a nonzero PR number, the PBI and its project build the same URL |
| PbiModel.PrUrlsDisagreeAtZero | apps/api/src/models/pbi.py:110-111 | PR number 0 separates the two builders: the PBI gives no URL while the project still builds one |
| PbiModel.PrUrlExample | apps/api/src/models/pbi.py:112-114 | the repository `https://github.com/org/repo/` with PR 42 gives `https://github.com/org/repo/pull/42` |
| PbiModel.Blocking | apps/api/src/models/pbi.py:88-98 | `a` is in the `blocking` view of `x` exactly when `a.blockedById` is `x` |
| PbiModel.BlockingViewsAreDisjoint | apps/api/src/models/pbi.py:74-78 | a PBI has at most one blocker, so the views of two different PBIs share no member |
| PbiModel.SetBlockedBy | apps/api/src/models/pbi.py:74-78 | setting the link changes that PBI's `blockedById` and no other column of it, leaves every other PBI as it was, and every PBI stays in the table |
| PbiModel.SetBlockedByMovesBetweenViews | apps/api/src/models/pbi.py:88-98 | setting the link adds the PBI to the view of its new blocker and removes it from every other view |
| PbiModel.RelinkMovesBetweenViews | apps/api/src/models/pbi.py:88-98 | the views depend only on the links, so an assignment that also refreshes the timestamps moves the PBI between views in the same way |
| PbiModel.CyclesAreAccepted | apps/api/src/models/pbi.py:74-78 | nothing rules out a PBI blocking itself, or two PBIs blocking each other |
| FeatureSchema.ModelDump | apps/api/src/services/feature_service.py:189 | the dumped pairs are exactly the supplied fields of the patch, each once, in declaration order |
| FeatureSchema.EmptyPatchIsValid | apps/api/src/schemas/feature.py:29-40 | every update field is optional: the empty patch is valid and dumps nothing |
| FeatureSchema.DefaultOrderIsValid | apps/api/src/schemas/feature.py:18-26 | a create body's order defaults to 0, and such a body is valid exactly when its name has 1–255 characters and its description is not empty |
| FeatureSchema.ValidFeatureCreate | apps/api/src/schemas/feature.py:15-26 | a valid create body (name of 1 to 255 characters, nonempty description, order at least 0) is also valid when its fields are sent as a patch |
| FeatureSchema.ValidFeatureUpdate | apps/api/src/schemas/feature.py:29-40 | a patch is valid exactly when every field it supplies meets its column's constraint; fields left out are not checked |
| FeatureSchema.ValidBulkItem | apps/api/src/schemas/feature.py:79-88 | a bulk item is valid exactly when a single create body with its name, description and order (0 when it has none) is |
| FeatureSchema.ValidBulkCreate | apps/api/src/schemas/feature.py:91-100 | a bulk request is valid exactly when its list is nonempty and every item would be a valid single create for the same project |
| FeatureSchema.BulkRules | apps/api/src/schemas/feature.py:79-100 | an empty bulk list is refused; a one-item list is valid exactly when its item is; an item may leave out its order but may not make it negative |
| ProjectSchema.ValidProjectCreate | apps/api/src/schemas/project.py:15-28 | a valid create body (name of 1 to 255 characters, nonempty epic) is also valid when its name and epic are sent as a patch |
| ProjectSchema.ValidProjectUpdate | apps/api/src/schemas/project.py:31-41 | a patch is valid exactly when every field it supplies is; only a supplied name is constrained, to 1 to 255 characters |
| ProjectSchema.ModelDump | apps/api/src/services/project_service.py:89 | the dumped pairs are exactly the supplied fields of the patch, each once, in declaration order |
| ProjectSchema.EmptyEpicOnlyOnUpdate | apps/api/src/schemas/project.py:18-40 | an empty epic is refused on create and accepted on update |
| ProjectSchema.CreateTypeDefault | apps/api/src/schemas/project.py:25-28 | a create body without a type asks for NEW_PROJECT |
| Store.FeatureIdsOf | apps/api/src/models/project.py:58-62 | the keys of exactly the features whose `projectId` is the project |
| Store.PbiIdsUnder | apps/api/src/models/feature.py:66-70 | the keys of exactly the PBIs whose feature is one of the given features |
| Store.LogIdsOf | apps/api/src/models/project.py:63-67 | the keys of exactly the logs whose `projectId` is the project |
| Store.OrdersOf | apps/api/src/services/feature_service.py:73-77 | it contains the order of every feature of the project, and nothing else |
| Store.Database.constructor | apps/api/src/models/base.py:57-61 | an empty, valid store |
| Store.Database.AddPbi | apps/api/src/models/pbi.py:50-79 | for an unknown feature, fails and writes nothing; otherwise inserts one PBI with the column defaults under a fresh key, and leaves every other table unchanged |
| Store.Database.AddLog | apps/api/src/models/agent_log.py:46-77 | for an unknown project, or a PBI reference that names no PBI, fails and writes nothing; otherwise inserts one log under a fresh key |
| Store.Database.SetBlocker | apps/api/src/models/pbi.py:74-98 | for an unknown PBI or blocker, fails; otherwise sets only `blockedById` and refreshes the timestamp if it changed; the views move as `SetBlockedByMovesBetweenViews` says; nothing checks for cycles |
| Store.Database.DeleteProject | apps/api/src/models/project.py:58-67 | removes the project, exactly its features, the PBIs of those features and its logs, and keeps the store valid |
| Store.Database.DeleteFeature | apps/api/src/models/feature.py:66-70 | removes the feature and exactly its PBIs, and keeps the store valid |
| FeatureServices.MaxOrder | apps/api/src/services/feature_service.py:73-77 | SQL `max`: nothing for an empty set; otherwise an element that is at least every element |
| FeatureServices.NextOrderAfter | apps/api/src/services/feature_service.py:78 | `(max_order or -1) + 1`: no maximum gives 0; a maximum of 0 counts as no maximum and gives 0 too; any other maximum gives it plus one |
| FeatureServices.NextOrderPolicy | apps/api/src/services/feature_service.py:63-78 | for a project's orders: 0 when there are none; max + 1, above every order, unless every order is 0, where the next order is 0 again and collides |
| FeatureServices.FirstFeatureExists | apps/api/src/services/feature_service.py:42 | every nonempty set of features has one that sorts first by (order, createdAt) |
| FeatureServices.Merge | apps/api/src/services/feature_service.py:188-191 | the reference merge patch never touches the key, the timestamps or the project |
| FeatureServices.DumpThenAssignIsMerge | apps/api/src/services/feature_service.py:189-191 | running the `setattr` loop over the dumped pairs gives the merge patch: each supplied field takes its new value, every other field keeps its old one |
| FeatureServices.MergeIdempotent | apps/api/src/services/feature_service.py:188-191 | applying the same patch twice is the same as applying it once |
| FeatureServices.EmptyMergeIsIdentity | apps/api/src/services/feature_service.py:188-191 | the empty patch changes nothing |
| FeatureServices.StatusPatchIsStatusUpdate | apps/api/src/services/feature_service.py:215-237 | a patch that supplies only the status does what `update_status` does |
| FeatureServices.NewFeature | apps/api/src/services/feature_service.py:118-124 | a created feature has the request's name and description, the given project and order, status PENDING and no branch |
| FeatureServices.ApplyPatch | apps/api/src/services/feature_service.py:189-191 | the loop's result equals the merge patch |
| FeatureServices.FeatureService.ListByProject | apps/api/src/services/feature_service.py:28-44 | each of exactly the project's features appears once, as stored, sorted by order ascending and then by `createdAt` ascending |
| FeatureServices.FeatureService.GetById | apps/api/src/services/feature_service.py:46-61 | nothing exactly when no feature has that key; otherwise the stored row |
| FeatureServices.FeatureService.NextOrder | apps/api/src/services/feature_service.py:63-78 | the scan computes the next order from the maximum of the project's orders, as `NextOrderPolicy` describes |
| FeatureServices.FeatureService.VerifyProjectExists | apps/api/src/services/feature_service.py:80-96 | the project when it exists, otherwise the not-found error for that key |
| FeatureServices.FeatureService.Create | apps/api/src/services/feature_service.py:98-128 | for an unknown project, fails and writes nothing; otherwise inserts one PENDING feature under a fresh key; a supplied order of 0 is replaced by the next order and any other order is kept |
| FeatureServices.FeatureService.CreateMany | apps/api/src/services/feature_service.py:130-171 | for an unknown project, fails and writes nothing; otherwise returns one PENDING feature per item, in item order, with orders next, next + 1, …, and stores exactly those rows beside the old ones; the items' own orders are ignored and all rows share one timestamp |
| FeatureServices.FeatureService.AddBatch | apps/api/src/services/feature_service.py:153-163 | the loop and its single commit: item `i` is stored under key `nextId + i` with order `next + i`, every row keeps its old value, and the clock advances once when there is at least one item |
| FeatureServices.FeatureService.Update | apps/api/src/services/feature_service.py:173-195 | for an unknown key, nothing is written; otherwise the feature becomes the merge patch of its old value, with `updatedAt` refreshed only if a column changed; every other row is unchanged |
| FeatureServices.FeatureService.Delete | apps/api/src/services/feature_service.py:197-213 | true exactly when the feature existed; afterwards it is gone, with exactly its PBIs and nothing else |
| FeatureServices.FeatureService.UpdateStatus | apps/api/src/services/feature_service.py:215-237 | for an unknown key, nothing is written; otherwise only the status changes, to any value at all |
| ProjectServices.NewestProjectExists | apps/api/src/services/project_service.py:36 | every nonempty set of projects has a newest one |
| ProjectServices.Merge | apps/api/src/services/project_service.py:88-91 | the reference merge patch never touches the key, timestamps, type or repository columns |
| ProjectServices.DumpThenAssignIsMerge | apps/api/src/services/project_service.py:89-91 | running the `setattr` loop over the dumped pairs gives the merge patch of name, epic and status |
| ProjectServices.MergeIdempotent | apps/api/src/services/project_service.py:88-91 | applying the same patch twice is the same as applying it once |
| ProjectServices.EmptyMergeIsIdentity | apps/api/src/services/project_service.py:88-91 | the empty patch changes nothing |
| ProjectServices.ApplyPatch | apps/api/src/services/project_service.py:89-91 | the loop's result equals the merge patch |
| ProjectServices.CreatedProject | apps/api/src/services/project_service.py:62-67 | a created project copies name, epic and type, has status DRAFT, and has no repository |
| ProjectServices.ProjectService.ListAll | apps/api/src/services/project_service.py:27-38 | each project appears once, as stored, newest first |
| ProjectServices.ProjectService.GetById | apps/api/src/services/project_service.py:40-50 | nothing exactly when no project has that key; otherwise the stored row |
| ProjectServices.ProjectService.Create | apps/api/src/services/project_service.py:52-71 | inserts exactly one DRAFT project under a fresh key, and writes nothing else |
| ProjectServices.ProjectService.Update | apps/api/src/services/project_service.py:73-95 | for an unknown key, nothing is written; otherwise the project becomes the merge patch of its old value, with `updatedAt` refreshed only if a column changed |
| ProjectServices.ProjectService.Delete | apps/api/src/services/project_service.py:97-113 | true exactly when the project existed; afterwards it is gone, with exactly its features, their PBIs and its logs; every other row stays |
| ProjectServices.ProjectService.GetWithFeatures | apps/api/src/services/project_service.py:115-130 | nothing for an unknown key; otherwise the project together with exactly the stored features whose `projectId` is its key |
| Scenarios.DeleteFeatureTwice | apps/api/src/services/feature_service.py:197-213 | the first delete reports whether the feature existed; a second delete reports false |
| Scenarios.DeleteProjectTwice | apps/api/src/services/project_service.py:97-113 | the first delete reports whether the project existed; a second delete reports false |
| Scenarios.ZeroOrderCollision | apps/api/src/services/feature_service.py:113-116 | in a fresh store, two features created without an order both get order 0, and an explicit order 5 is kept |

## Left out

- HTTP routers, configuration, the database engine and session setup,
  application startup, and the UI. These are plumbing and I/O outside the
  entity store.
- UUIDs and wall-clock time. Keys are fresh naturals and time is a monotone
  counter, so the model proves freshness and ordering but not randomness or
  real dates.
- The JSON content of `extra_data`. It is an opaque value; only its default,
  the empty object, is modelled.
- Concurrency, isolation, commit and refresh, and eager loading. Each service
  call is one atomic step on the store.
- Database failures the source does not handle itself, because the database
  engine is not part of this model:
  - deleting a PBI that an agent log still references through `pbi_id` (the
    PBI side declares no relationship to the logs, so the foreign key would
    refuse the delete; in the model the log's reference is left dangling);
  - writing an explicit null into a non-null column (a patch that sets `name`
    to null, for example);
  - strings longer than their column;
  - integers outside the 32-bit `Integer` column: a feature's `order` and a
    PBI's `pr_number` are unbounded `int`s here. The schemas check `order >= 0`
    but set no upper bound, so a create with an order of 3000000000, or a next
    order past 2147483647, fails in the database, while
    `FeatureServices.FeatureService.Create` and `CreateMany` succeed in the
    model.
- Store.Database.Valid: it does not require a log's PBI reference, or a PBI's
  blocker, to name an existing PBI after a delete. For the blocker the source
  does something the model does not: `blocking` (apps/api/src/models/pbi.py:94-98)
  is a one-to-many relationship with the default cascade, so when the ORM
  deletes a blocker PBI it first sets `blocked_by_id` to null in every PBI that
  PBI blocks, including PBIs of other features that survive the delete.
  `Store.Database.DeleteFeature` and `Store.Database.DeleteProject` leave those
  links pointing at the deleted key instead. For a log's `pbi_id` see the
  previous item.
- Base.NewMeta and FeatureServices.FeatureService.CreateMany: the clock is read
  once per call. In the source `created_at` and `updated_at` each have their own
  `datetime.utcnow` default, called once per column and per inserted row. So a
  new row's two timestamps being equal, and all rows of one `create_many`
  sharing one timestamp, hold in the source only up to the clock's resolution;
  in the model they hold exactly, as a consequence of how time is abstracted.
- FeatureServices.FeatureService.ListByProject: the order among features with
  equal `order` and `createdAt` is whatever the selection picks, because the
  query leaves that order to the database.
- ProjectServices.ProjectService.ListAll: the order among projects with equal
  `createdAt` is whatever the selection picks, for the same reason.
- ProjectServices.ProjectService.GetWithFeatures: the features are returned as
  a map from key to row, not as the relationship's list. The relationship
  declares no order.
- FeatureServices.FeatureService.Update and
  ProjectServices.ProjectService.Update: `updatedAt` is refreshed only when a
  column actually changed. This follows how the ORM skips an UPDATE with
  nothing to write.
- PBI and agent-log services: the core has none, so the store's `AddPbi`,
  `AddLog` and `SetBlocker` stand in for plain inserts and the
  `blocked_by_id` assignment.
