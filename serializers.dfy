/** The serializers of the tasks app (LQ_Tasks/serializers.py): owner
    injection on create, and the validation, attachment resolution and
    update of notes. */
module Serializers {
  import opened Wrappers
  import opened Tasks

  // ---------------------------------------------------------------------
  // Owner injection in TaskSerializer.create and SubTaskSerializer.create

  /** The serializer context's request. `user` is `None` when the request
      object carries no `user` attribute. */
  datatype Request = Request(user: Option<UserId>)

  /** The value of `validated_data['user']` once `create` has run: the
      request's user when there is a request with a user, otherwise whatever
      `validated_data` already held. */
  function RequestUser(request: Option<Request>, current: Option<UserId>): (user: Option<UserId>)
    ensures request.Some? && request.value.user.Some? ==> user == request.value.user
    ensures request.None? || request.value.user.None? ==> user == current
  {
    if request.Some? && request.value.user.Some? then request.value.user else current
  }

  /** Validated data of a model whose fields this model does not spell out,
      with the `user` key kept apart. */
  datatype Payload<F> = Payload(fields: F, user: Option<UserId>)

  class TaskSerializer {
    const request: Option<Request>

    constructor (request: Option<Request>)
      ensures this.request == request
    {
      this.request := request;
    }

    /** `create`: sets the owner from the request, then writes the row. The
        new task keeps the title, description and priority it was given and
        takes the default status when none was sent. */
    method Create(id: TaskId, validatedData: TaskData) returns (task: Task)
      ensures task.id == id
      ensures task.title == validatedData.title && task.priority == validatedData.priority
      ensures task.description == validatedData.description && task.deadline.None?
      ensures task.status == validatedData.status.GetOr(DefaultStatus)
      ensures request.Some? && request.value.user.Some? ==> task.owner == request.value.user
      ensures request.None? || request.value.user.None? ==> task.owner == validatedData.user
    {
      var data := validatedData.(user := RequestUser(request, validatedData.user));
      task := NewTask(id, data);
    }
  }

  class SubTaskSerializer {
    const request: Option<Request>

    constructor (request: Option<Request>)
      ensures this.request == request
    {
      this.request := request;
    }

    /** `create`: the data handed on to the model, with the owner set from
        the request; every other field passes through unchanged. */
    method Create<F>(validatedData: Payload<F>) returns (saved: Payload<F>)
      ensures saved.fields == validatedData.fields
      ensures request.Some? && request.value.user.Some? ==> saved.user == request.value.user
      ensures request.None? || request.value.user.None? ==> saved == validatedData
    {
      saved := validatedData.(user := RequestUser(request, validatedData.user));
    }
  }

  // ---------------------------------------------------------------------
  // Note attachment

  /** A content type, named by its model (`ContentType.model`). */
  type Kind = string
  type ObjectId = int

  /** The installed content types and, per type, its rows by primary key;
      `R` is the row type, which the resolver does not look into. */
  type Registry<R> = map<Kind, map<ObjectId, R>>

  /** The three ways note validation fails. */
  datatype NoteError = FieldsRequired | InvalidContentType | InvalidObjectId

  /** The body of the `ValidationError` raised for each failure. */
  function ErrorDetail(e: NoteError): (detail: map<string, string>)
    ensures "content_type" in detail <==> e != InvalidObjectId
    ensures "object_id" in detail <==> e != InvalidContentType
  {
    match e
    case FieldsRequired =>
      map["content_type" := "This field is required", "object_id" := "This field is required"]
    case InvalidContentType => map["content_type" := "Invalid content type"]
    case InvalidObjectId => map["object_id" := "Invalid object id"]
  }

  /** A client can tell the three failures apart from the error body alone. */
  lemma ErrorDetailInjective(e: NoteError, f: NoteError)
    ensures ErrorDetail(e) == ErrorDetail(f) ==> e == f
  {
  }

  /** The model name of `ContentType` itself. A missing row of this type
      raises `ContentType.DoesNotExist`, which the first handler catches. */
  const ContentTypeKind: Kind := "contenttype"

  /** `add_content_object`: the content type is looked up by model name
      first, then the row of that type with the given id. A failed lookup of
      the type reports "Invalid content type"; a missing row reports
      "Invalid object id", except for rows of `ContentType` itself, whose
      `DoesNotExist` is the exception the first handler names. */
  function AddContentObject<R>(registry: Registry<R>, kind: Kind, objectId: ObjectId): (r: Result<R, NoteError>)
    ensures r.Ok? <==> kind in registry && objectId in registry[kind]
    ensures r.Ok? ==> r.value == registry[kind][objectId]
    ensures r.Err? ==> (r.error == InvalidContentType <==> kind !in registry || kind == ContentTypeKind)
    ensures r.Err? ==> r.error != FieldsRequired
  {
    if kind !in registry then Err(InvalidContentType)
    else if objectId !in registry[kind] then
      Err(if kind == ContentTypeKind then InvalidContentType else InvalidObjectId)
    else Ok(registry[kind][objectId])
  }

  /** A note attached to a missing `ContentType` row is reported as having
      an invalid content type, not an invalid object id. */
  lemma MissingContentTypeRowIsInvalidType<R>(registry: Registry<R>, objectId: ObjectId)
    requires ContentTypeKind in registry && objectId !in registry[ContentTypeKind]
    ensures AddContentObject(registry, ContentTypeKind, objectId) == Err(InvalidContentType)
  {
  }

  /** Incoming note fields; `contentObject` is the key `validate` adds. */
  datatype NoteData<R> = NoteData(
    title: Option<string>,
    content: Option<string>,
    contentType: Option<Kind>,
    objectId: Option<ObjectId>,
    contentObject: Option<R>)

  /** Python truthiness of the `object_id` value: absent, null and 0 are false. */
  predicate IsTruthy(objectId: Option<ObjectId>): (b: bool)
    ensures objectId.None? ==> !b
    ensures objectId == Some(0) ==> !b
    ensures objectId.Some? && objectId.value != 0 ==> b
  {
    objectId.Some? && objectId.value != 0
  }

  /** `data['content_object'] = ...` when resolution succeeds; the error is
      raised otherwise. */
  function WithContentObject<R>(data: NoteData<R>, resolved: Result<R, NoteError>): (r: Result<NoteData<R>, NoteError>)
    ensures r.Ok? <==> resolved.Ok?
    ensures r.Ok? ==> r.value == data.(contentObject := Some(resolved.value))
    ensures r.Err? ==> r.error == resolved.error
  {
    match resolved
    case Ok(target) => Ok(data.(contentObject := Some(target)))
    case Err(e) => Err(e)
  }

  /** The stored fields of a note. */
  datatype NoteFields = NoteFields(title: string, content: string, contentType: Kind, objectId: ObjectId)

  /** A note row. */
  class Note {
    var title: string
    var content: string
    var contentType: Kind
    var objectId: ObjectId

    constructor (title: string, content: string, contentType: Kind, objectId: ObjectId)
      ensures Fields() == NoteFields(title, content, contentType, objectId)
    {
      this.title := title;
      this.content := content;
      this.contentType := contentType;
      this.objectId := objectId;
    }

    function Fields(): NoteFields
      reads this
    {
      NoteFields(title, content, contentType, objectId)
    }
  }

  /** The fields of a note after `update`: title and content take the values
      supplied and keep their old ones otherwise; nothing else changes. */
  function Updated<R>(fields: NoteFields, data: NoteData<R>): (r: NoteFields)
    ensures r.contentType == fields.contentType && r.objectId == fields.objectId
    ensures data.title.Some? ==> r.title == data.title.value
    ensures data.title.None? ==> r.title == fields.title
    ensures data.content.Some? ==> r.content == data.content.value
    ensures data.content.None? ==> r.content == fields.content
  {
    fields.(title := data.title.GetOr(fields.title), content := data.content.GetOr(fields.content))
  }

  /** Applying the same update twice is applying it once, and an update that
      supplies neither title nor content leaves the note as it was, whatever
      attachment the request names. */
  lemma UpdatedIdempotent<R>(fields: NoteFields, data: NoteData<R>)
    ensures Updated(Updated(fields, data), data) == Updated(fields, data)
    ensures data.title.None? && data.content.None? ==> Updated(fields, data) == fields
  {
  }

  /** What `validate` returns. `stored` is the note being updated, if any.
      A partial update resolves the note's STORED content type and object id,
      so the request's values play no part in it; otherwise both values must
      be present and truthy (an object id of 0 counts as missing) and are
      resolved as sent. */
  function Validation<R>(partial: bool, stored: Option<NoteFields>, registry: Registry<R>, data: NoteData<R>)
    : (r: Result<NoteData<R>, NoteError>)
    requires partial ==> stored.Some?
    ensures !partial && !(data.contentType.Some? && IsTruthy(data.objectId)) ==>
      r == Err(FieldsRequired)
    ensures partial || (data.contentType.Some? && IsTruthy(data.objectId)) ==>
      var kind := if partial then stored.value.contentType else data.contentType.value;
      var id := if partial then stored.value.objectId else data.objectId.value;
      && (r.Ok? <==> kind in registry && id in registry[kind])
      && (r.Ok? ==> r.value == data.(contentObject := Some(registry[kind][id])))
      && (r.Err? ==>
            r.error == if kind in registry && kind != ContentTypeKind then InvalidObjectId else InvalidContentType)
  {
    if partial then
      WithContentObject(data, AddContentObject(registry, stored.value.contentType, stored.value.objectId))
    else if data.contentType.Some? && IsTruthy(data.objectId) then
      WithContentObject(data, AddContentObject(registry, data.contentType.value, data.objectId.value))
    else
      Err(FieldsRequired)
  }

  /** In a partial update, two requests that differ only in the content type
      and object id they send validate alike: same outcome, same error, same
      resolved target. */
  lemma PartialIgnoresRequestAttachment<R>(stored: NoteFields, registry: Registry<R>, d1: NoteData<R>, d2: NoteData<R>)
    requires d1.title == d2.title && d1.content == d2.content && d1.contentObject == d2.contentObject
    ensures Validation(true, Some(stored), registry, d1).Ok? == Validation(true, Some(stored), registry, d2).Ok?
    ensures Validation(true, Some(stored), registry, d1).Err? ==>
      Validation(true, Some(stored), registry, d1).error == Validation(true, Some(stored), registry, d2).error
    ensures Validation(true, Some(stored), registry, d1).Ok? ==>
      Validation(true, Some(stored), registry, d1).value.contentObject ==
      Validation(true, Some(stored), registry, d2).value.contentObject
  {
  }

  /** A partial update of a note whose target row is gone fails even when
      the request names an existing row: with "Invalid object id", or with
      "Invalid content type" when the target was a `ContentType` row. */
  lemma PatchOfDetachedNoteFails<R>(stored: NoteFields, registry: Registry<R>, data: NoteData<R>)
    requires stored.contentType in registry && stored.objectId !in registry[stored.contentType]
    ensures Validation(true, Some(stored), registry, data) ==
      Err(if stored.contentType == ContentTypeKind then InvalidContentType else InvalidObjectId)
  {
  }

  /** A successful validation has attached an existing row: the one the
      stored note names in a partial update, the one the request names
      otherwise. */
  lemma ValidatedTargetExists<R>(partial: bool, stored: Option<NoteFields>, registry: Registry<R>, data: NoteData<R>)
    requires partial ==> stored.Some?
    requires Validation(partial, stored, registry, data).Ok?
    ensures var kind := if partial then stored.value.contentType else data.contentType.value;
            var id := if partial then stored.value.objectId else data.objectId.value;
            && kind in registry && id in registry[kind]
            && Validation(partial, stored, registry, data).value.contentObject == Some(registry[kind][id])
    ensures !partial ==> data.contentType.Some? && IsTruthy(data.objectId)
  {
  }

  class NoteSerializer {
    /** The note being updated, if any. */
    const instance: Note?
    /** Whether this is a partial update (PATCH). */
    const partial: bool

    constructor (instance: Note?, partial: bool)
      ensures this.instance == instance && this.partial == partial
    {
      this.instance := instance;
      this.partial := partial;
    }

    /** `validate`: resolves the attachment and stores it in the data under
        `content_object`. */
    method Validate<R>(registry: Registry<R>, data: NoteData<R>) returns (r: Result<NoteData<R>, NoteError>)
      requires partial ==> instance != null
      ensures r == Validation(partial, if instance == null then None else Some(instance.Fields()), registry, data)
    {
      var stored := if instance == null then None else Some(instance.Fields());
      r := Validation(partial, stored, registry, data);
    }

    /** `update`: assigns title and content and saves; the attachment is
        never touched, whatever `validatedData` holds. */
    method Update<R>(note: Note, validatedData: NoteData<R>) returns (saved: Note)
      modifies note`title, note`content
      ensures saved == note
      ensures note.Fields() == Updated(old(note.Fields()), validatedData)
    {
      note.title := validatedData.title.GetOr(note.title);
      note.content := validatedData.content.GetOr(note.content);
      saved := note;
    }
  }
}
