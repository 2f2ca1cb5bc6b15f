# LQ task tracker: a Dafny model of its core logic

LQ is a personal task-tracking API built with Django and Django REST Framework.
Users own tasks. Notes can be attached to any stored object through a content
type and an object id. Users also earn points and levels. This project models the
small part of the code that holds logic, and proves properties of that model:

- **Tasks** (`tasks.dfy`): the `Task` model. It covers the priority choices 1..10
  with their game-rank labels, the nine status codes with default `CREATED`, and
  the 255-character title. It also covers the field checks these declarations
  imply, as the model serializer runs them after stripping surrounding
  whitespace from text, and the row that `Task.objects.create` writes.
- **Accounts** (`accounts.dfy`): the `CustomUser` model. A class holds the role,
  points and level fields with their defaults. It has `increase_level`, proved
  against the pure function `LevelUp`, and the `can_manage_task` permission.
- **Signals** (`signals.dfy`): the `pre_save` hook `check_points`. It is proved
  against `OnSave`. Lemmas cover what one save does and what repeated saves do.
- **Serializers** (`serializers.dfy`): owner injection in `TaskSerializer.create`
  and `SubTaskSerializer.create`, and the note serializer's `validate`,
  `add_content_object` and `update`. The content-type registry is a finite map
  from model name to a map from primary key to row.
- **Views** (`views.dfy`): the `high_priority` action, a filter over all tasks.

`wrappers.dfy` holds the `Option` and `Result` datatypes.

Four behaviours of the code that a reader might not expect, and that the model
keeps:

- `add_content_object` resolves ANY installed content type by model name. It does
  not restrict attachments to tasks and subtasks.
- `high_priority` filters every task of every user. It neither scopes the result
  to the caller nor orders it by priority (`HighPriorityNotScoped`).
- `can_manage_task` lets admins manage every task. The model keeps this override.
- A note's attachment is kept on update because `update` only assigns title and
  content. A partial update resolves the stored attachment and so fails once the
  target row is gone (`PatchOfDetachedNoteFails`).

## Model

| member | source | states |
|---|---|---|
| `Tasks.PriorityChoicesAreOneToTen` | LQ_Tasks/models.py:6-17 | the priority choice list admits exactly the integers 1..10 |
| `Tasks.PriorityLabel` | LQ_Tasks/models.py:6-17 | each priority's label is one to three letters and is paired with it in the choice list |
| `Tasks.PriorityOfLabel` | LQ_Tasks/models.py:6-17 | a label that is recognised names a priority whose label it is |
| `Tasks.PriorityLabelRoundTrip` | LQ_Tasks/models.py:6-17 | a priority's label leads back to that priority |
| `Tasks.PriorityLabelInjective` | LQ_Tasks/models.py:6-17 | no two priorities share a label, and 7 is "S" |
| `Tasks.Status.Code` | LQ_Tasks/models.py:20-30 | every status code is non-empty and fits in the 20-character column |
| `Tasks.ParseStatus` | LQ_Tasks/models.py:20-30 | a code parses to the status whose code it is; a code that does not parse is not one of the choices |
| `Tasks.StatusCodeRoundTrip` | LQ_Tasks/models.py:20-30 | the nine codes are distinct, each is a choice, and each parses back to its status |
| `Tasks.DefaultStatusIsCreated` | LQ_Tasks/models.py:35 | the default status is stored as "CREATED" |
| `Tasks.StripSlice` | LQ_Tasks/serializers.py:20-25 | the serializer's whitespace trimming keeps a contiguous part of the text that neither starts nor ends with whitespace, and drops only whitespace |
| `Tasks.StripIdempotent` | LQ_Tasks/serializers.py:20-25 | trimming twice is trimming once; the trimmed text is empty iff the input is all whitespace |
| `Tasks.ValidateTaskInput` | LQ_Tasks/models.py:32-35 | input is accepted iff the title is present and, once stripped of surrounding whitespace, has 1 to 255 characters, the priority is present and a choice, and a status that is sent is a choice; accepted data holds the stripped title and description and the given priority; no text field holds a null character; each field error is reported exactly when its own check fails (title missing, blank after stripping, longer than 255 after stripping, holding a null; description holding a null; priority missing or not a choice; status not a choice), all of them together |
| `Tasks.BlankHasNoNull` | LQ_Tasks/serializers.py:20-25 | text that strips to nothing holds no null character, so a blank title is reported as blank only |
| `Tasks.TitleErrorsFacts` | LQ_Tasks/models.py:32 | the title passes iff it is present, 1 to 255 characters once stripped and free of null characters; a blank title reports only blankness, a non-blank one reports length and null characters independently |
| `Tasks.OtherErrorsFacts` | LQ_Tasks/models.py:33-35 | a description fails only by holding a null character; a priority fails iff it is missing or not a choice; a status fails iff it is sent and not a choice |
| `Tasks.InputErrorsFacts` | LQ_Tasks/models.py:32-35 | the collected errors are empty iff every field check passes, and each error is present iff its own check fails |
| `Tasks.TitleAndPriorityOnly` | LQ_Tasks/models.py:32-34 | an input with only a title and a priority is accepted iff the stripped title has 1 to 255 characters, holds no null and the priority is in 1..10; the stored data is then the stripped title and that priority, with no description, status or owner |
| `Tasks.BlankTitleRejected` | LQ_Tasks/models.py:32 | a title of spaces only is rejected as blank |
| `Tasks.PaddedTitleStripped` | LQ_Tasks/models.py:32 | the title " x " is accepted and stored as "x" |
| `Tasks.LengthCheckedAfterStrip` | LQ_Tasks/models.py:32 | 255 characters plus a trailing space are accepted iff they hold no null character |
| `Tasks.NewTask` | LQ_Tasks/models.py:32-36 | a created row keeps title, priority and description; status defaults to CREATED; the deadline is unset |
| `Accounts.Role.Code` | accounts/models.py:6-10 | each role's stored code is non-empty and fits the 10-character column |
| `Accounts.ParseRole` | accounts/models.py:6-10 | a role code parses to the role whose code it is |
| `Accounts.RoleCodeRoundTrip` | accounts/models.py:6-10 | the three role codes are distinct and parse back |
| `Accounts.LevelUp` | accounts/models.py:26-29 | level rises by exactly one; points drop by exactly 100 when at least 100, else stay |
| `Accounts.LevelUpKeepsPointsNonNegative` | accounts/models.py:26-29 | non-negative points stay non-negative; a paid level-up keeps points + 100*level, an unpaid one raises it by 100 |
| `Accounts.CustomUser.constructor` | accounts/models.py:19-21 | a new user has role "user", 0 points and level 1 |
| `Accounts.CustomUser.IncreaseLevel` | accounts/models.py:26-29 | the new (points, level) is `LevelUp` of the old; role and username do not change |
| `Accounts.CustomUser.CanManageTask` | accounts/models.py:32-33 | an admin may manage any task; anyone else may manage a task iff its owner is this user |
| `Accounts.ManageableTasks` | accounts/models.py:32-33 | among any tasks, an admin can manage every one and anyone else exactly the ones it owns |
| `Accounts.OwnerlessTaskAdminOnly` | accounts/models.py:33 | a task with no owner can be managed by admins only |
| `Signals.OnSave` | accounts/signals.py:6-9 | with at least 100 points one level-up happens (points - 100, level + 1), below 100 nothing changes; points + 100*level is preserved and points never become negative |
| `Signals.CheckPoints` | accounts/signals.py:6-9 | the hook leaves the instance at `OnSave` of its old standing and changes no other field |
| `Signals.OnSaveFixpoint` | accounts/signals.py:8 | a save leaves the standing unchanged iff points are below 100 |
| `Signals.OneLevelPerSave` | accounts/signals.py:8-9 | 250 points become 150 in one save, not 50 |
| `Signals.SavesWhileFunded` | accounts/signals.py:8-9 | n saves with at least 100*n points take 100*n points and give n levels |
| `Signals.SavesSettle` | accounts/signals.py:8-9 | from p >= 0 points, p/100 saves leave p%100 points and p/100 more levels, and later saves change nothing |
| `Serializers.RequestUser` | LQ_Tasks/serializers.py:14-16 | the owner becomes the request's user when a request with a user is present, and stays as it was otherwise (the same code is at lines 28-30) |
| `Serializers.TaskSerializer.Create` | LQ_Tasks/serializers.py:27-31 | the new task keeps title, description and priority, gets the default status if none was sent, and is owned by the request's user when there is one |
| `Serializers.SubTaskSerializer.Create` | LQ_Tasks/serializers.py:13-17 | the owner is set from the request's user when there is one; otherwise the data passes through unchanged |
| `Serializers.ErrorDetail` | LQ_Tasks/serializers.py:58 | the missing-fields error names both fields; the content-type and object-id errors name only their own field |
| `Serializers.ErrorDetailInjective` | LQ_Tasks/serializers.py:58-69 | the three failures have distinct error bodies |
| `Serializers.AddContentObject` | LQ_Tasks/serializers.py:61-69 | succeeds iff the type is registered and has a row with that id, returning that row; the error is "Invalid content type" iff the type is unknown or is `contenttype` itself (whose missing row raises `ContentType.DoesNotExist`), else "Invalid object id" |
| `Serializers.MissingContentTypeRowIsInvalidType` | LQ_Tasks/serializers.py:63-67 | a missing row of the `contenttype` type is reported as "Invalid content type" |
| `Serializers.IsTruthy` | LQ_Tasks/serializers.py:55 | an absent object id and an object id of 0 count as missing; any other id counts as present |
| `Serializers.WithContentObject` | LQ_Tasks/serializers.py:54-56 | on success the data gains the resolved target under `content_object` and is otherwise unchanged; on failure the error passes through |
| `Serializers.Validation` | LQ_Tasks/serializers.py:47-59 | without a partial update, a missing content type or object id fails with the both-fields error; otherwise, for the stored pair in a partial update and the sent pair else, validation succeeds iff the registry has that row, the data then gains exactly that row under `content_object`, and a failure is "Invalid object id" for a registered type other than `contenttype` and "Invalid content type" otherwise |
| `Serializers.PartialIgnoresRequestAttachment` | LQ_Tasks/serializers.py:50-54 | in a partial update the content type and object id the request sends do not affect the outcome or the target |
| `Serializers.PatchOfDetachedNoteFails` | LQ_Tasks/serializers.py:50-54 | a partial update of a note whose target row is gone fails, with "Invalid object id", or "Invalid content type" when the target was a `contenttype` row |
| `Serializers.ValidatedTargetExists` | LQ_Tasks/serializers.py:47-59 | a successful validation has attached the existing row that the stored note, or the request, names |
| `Serializers.Updated` | LQ_Tasks/serializers.py:40-45 | title and content take supplied values and keep old ones otherwise; content type and object id never change |
| `Serializers.UpdatedIdempotent` | LQ_Tasks/serializers.py:40-45 | an update applied twice equals it applied once; an update with neither title nor content changes nothing |
| `Serializers.NoteSerializer.Validate` | LQ_Tasks/serializers.py:47-59 | the result is `Validation` of the serializer's mode, the stored note and the data |
| `Serializers.NoteSerializer.Update` | LQ_Tasks/serializers.py:40-45 | the note's new fields are `Updated` of its old fields, and the same note is returned |
| `Views.HighPriority` | LQ_Tasks/views.py:15 | every task listed has priority at least 7, every such task of the queryset is listed with the same multiplicity, and the result keeps the order the queryset is given in (the source sets no ordering, so that order is the model's choice) |
| `Views.HighPriorityNotScoped` | LQ_Tasks/views.py:9-15 | when another user owns a high-priority task, the answer lists it and so differs from the answer over the caller's own tasks |
| `Views.HighPriorityExample` | LQ_Tasks/tests.py:30-39 | of a priority-5 and a priority-8 task only the priority-8 one is listed |

## Left out

- The Django ORM, `ContentType` reflection and `get_object_for_this_type` are replaced by finite maps. `ContentType.objects.get(model=...)` can match several installed types and raise `MultipleObjectsReturned`, which the source does not catch. The registry keyed by model name cannot express that case.
- HTTP routing, authentication and the 401 for anonymous callers are framework plumbing. A request's `user` is a user id or absent; DRF's `AnonymousUser` is not modelled.
- The admin configuration, registration views, `__str__`, and the profile fields that take no part in the logic (gender, birth date, experience level, avatar, bio, notification preferences) are left out.
- The `SubTask` and `Note` models are not part of this model. The note's stored fields are those the serializer uses. Subtask fields are an opaque type parameter.
- Subtask priority derivation, the completed-only deletion guard and an ownership guard on the view sets have no implementation in the files modelled.
- `instance.save()` and the `created_at`/`updated_at` timestamps are storage effects and are not modelled.
- The task's owner is an inferred field. The `Task` model in LQ_Tasks/models.py has no `user` field; its existence is inferred from the serializers, `can_manage_task` and the tests. The model assumes it is nullable, so `TaskSerializer.Create` succeeds with no owner and `Accounts.OwnerlessTaskAdminOnly` applies. With a non-null foreign key the database would raise an integrity error instead.
- `Views.HighPriority`: the source sets no `Meta.ordering` and the query has no ORDER BY, so the program promises no order. The model keeps the order of the sequence it is given.
- `Tasks.Task`: its `Priority`, `Status` and `Title` field types exclude rows that `Task.objects.create` could write without validation, such as an out-of-range priority. Django checks `choices` and `max_length` only in forms and serializers.
- `Serializers.NoteSerializer.Validate`: `requires partial ==> instance != null` excludes the case where a partial serializer has no instance. The source then raises `AttributeError` at `note.content_type`.
- `Serializers.AddContentObject`: the type looked up by name is a `ContentType` row the field has already validated, so an unknown type (`kind !in registry`) stands for a lookup by name that finds nothing. The other way to "Invalid content type", a missing row of `contenttype` itself, is modelled.
- `Tasks.ValidateTaskInput`: a field is either absent (`None`) or carries a value, so an explicit JSON `null` is not expressible and reads as an absent field. The program accepts `null` only for the description, the one model field with `null=True`; a `null` title, priority or status is rejected with "This field may not be null.", also for the status, which has a default, and for the title and priority in place of the "required" error.
- The deadline is an opaque optional value. `TaskSerializer` does not list it as a field, so a created task never has one.
- `Accounts.CustomUser.IncreaseLevel`: `points` and `level` are unbounded integers here. The 32-bit limit of the database column is not modelled.
- `Accounts.CustomUser.constructor`: `role` is one of the three choices by its type. Django checks `choices` only in forms and serializers, not on save.
