/** The two persisted record shapes (app/.../data/TodoEntity.kt): the local table row and the
    remote document, with their default values, and how a remote record is written to and read
    from a raw document. */
module Entities {
  import opened Common

  /** A row of the local "todos" table. Key 0 asks the table to assign a fresh key. The
      creation time has no default here: the clock reading is passed in by the caller. */
  datatype TodoEntity = TodoEntity(
    id: int := 0,
    title: string,
    description: Option<string>,
    isCompleted: bool,
    userId: string := "",
    createdAt: Instant)

  /** The remote record, with the defaults its no-argument constructor gives every field. The
      title and the owner are declared non-null, but the record mapper writes a stored null
      into them all the same (it checks for null before it checks types), so they are
      nullable here; only the primitive completion flag cannot hold null. */
  datatype FirestoreTodo = FirestoreTodo(
    id: string := "",
    title: Option<string> := Some(""),
    description: Option<string> := None,
    isCompleted: bool := false,
    userId: Option<string> := Some(""),
    createdAt: Option<Instant> := None,
    updatedAt: Option<Instant> := None)

  /** A value stored under one key of a raw document. */
  datatype Value = StringValue(s: string) | BooleanValue(b: bool) | TimestampValue(t: Instant) | NullValue | OtherValue

  /** A raw document: field name to value. The document id is not one of its fields. */
  type Fields = map<string, Value>

  const TitleKey := "title"
  const DescriptionKey := "description"
  const IsCompletedKey := "isCompleted"
  const UserIdKey := "userId"
  const CreatedAtKey := "createdAt"
  const UpdatedAtKey := "updatedAt"
  /** The key under which older documents stored the completion flag. No field of
      FirestoreTodo is persisted under it. */
  const LegacyCompletedKey := "completed"

  predicate IsRecordKey(k: string) {
    k in {TitleKey, DescriptionKey, IsCompletedKey, UserIdKey, CreatedAtKey, UpdatedAtKey}
  }

  /** A string-typed field: null is stored as null. */
  function StringOrNull(s: Option<string>): Value {
    if s.Some? then StringValue(s.value) else NullValue
  }

  /** A timestamp field: null asks the server to fill in its own time. */
  function StampValue(t: Option<Instant>, serverTime: Instant): Value {
    TimestampValue(t.GetOr(serverTime))
  }

  /** The document written by set(record): one entry per persisted property. */
  function Encode(t: FirestoreTodo, serverTime: Instant): (f: Fields)
    ensures forall k :: k in f <==> IsRecordKey(k)
  {
    map[TitleKey := StringOrNull(t.title),
        DescriptionKey := StringOrNull(t.description),
        IsCompletedKey := BooleanValue(t.isCompleted),
        UserIdKey := StringOrNull(t.userId),
        CreatedAtKey := StampValue(t.createdAt, serverTime),
        UpdatedAtKey := StampValue(t.updatedAt, serverTime)]
  }

  /** How a read timestamp property would be stored: the time, or null. */
  function TimestampOrNull(t: Option<Instant>): Value {
    if t.Some? then TimestampValue(t.value) else NullValue
  }

  /** The outcome of reading one property: the value (the default when the key is absent),
      or a type mismatch. */
  datatype Read<+T> = Read(value: T) | Mismatch

  function ReadNullableString(f: Fields, key: string, default: Option<string>): Read<Option<string>> {
    if key !in f then Read(default)
    else match f[key]
      case StringValue(s) => Read(Some(s))
      case NullValue => Read(None)
      case _ => Mismatch
  }

  function ReadBoolean(f: Fields, key: string, default: bool): Read<bool> {
    if key !in f then Read(default)
    else match f[key]
      case BooleanValue(b) => Read(b)
      case _ => Mismatch
  }

  function ReadTimestamp(f: Fields, key: string, default: Option<Instant>): Read<Option<Instant>> {
    if key !in f then Read(default)
    else match f[key]
      case TimestampValue(t) => Read(Some(t))
      case NullValue => Read(None)
      case _ => Mismatch
  }

  /** The stored values the record mapper accepts for each property: a string or null for the
      string properties, a boolean (never null) for the completion flag, a timestamp or null
      for the timestamps. */
  predicate Accepts(key: string, v: Value) {
    if key == TitleKey || key == DescriptionKey || key == UserIdKey then v.StringValue? || v.NullValue?
    else if key == IsCompletedKey then v.BooleanValue?
    else if key == CreatedAtKey || key == UpdatedAtKey then v.TimestampValue? || v.NullValue?
    else true
  }

  /** The result of toObject on an existing document: the record, or the first property whose
      stored value has the wrong type (the mapper throws). */
  datatype Decoded = Decoded(todo: FirestoreTodo) | DecodeError(field: string)

  /** toObject: start from the no-argument record (its id is the document id) and overwrite
      each property the document holds. Keys that are not properties are ignored. */
  function Decode(id: string, f: Fields): (r: Decoded)
    ensures r.Decoded? <==> forall k :: k in f ==> Accepts(k, f[k])
    ensures r.DecodeError? ==> IsRecordKey(r.field) && r.field in f && !Accepts(r.field, f[r.field])
    ensures r.Decoded? ==> r.todo.id == id
    // each property holds the stored value when the document has one, its default otherwise
    ensures r.Decoded? ==>
      && (if TitleKey in f then StringOrNull(r.todo.title) == f[TitleKey] else r.todo.title == Some(""))
      && (if DescriptionKey in f then StringOrNull(r.todo.description) == f[DescriptionKey] else r.todo.description == None)
      && r.todo.isCompleted == (IsCompletedKey in f && f[IsCompletedKey] == BooleanValue(true))
      && (if UserIdKey in f then StringOrNull(r.todo.userId) == f[UserIdKey] else r.todo.userId == Some(""))
      && (if CreatedAtKey in f then TimestampOrNull(r.todo.createdAt) == f[CreatedAtKey] else r.todo.createdAt == None)
      && (if UpdatedAtKey in f then TimestampOrNull(r.todo.updatedAt) == f[UpdatedAtKey] else r.todo.updatedAt == None)
  {
    var d := FirestoreTodo(id := id);
    var title := ReadNullableString(f, TitleKey, d.title);
    var description := ReadNullableString(f, DescriptionKey, d.description);
    var isCompleted := ReadBoolean(f, IsCompletedKey, d.isCompleted);
    var userId := ReadNullableString(f, UserIdKey, d.userId);
    var createdAt := ReadTimestamp(f, CreatedAtKey, d.createdAt);
    var updatedAt := ReadTimestamp(f, UpdatedAtKey, d.updatedAt);
    if title.Mismatch? then DecodeError(TitleKey)
    else if description.Mismatch? then DecodeError(DescriptionKey)
    else if isCompleted.Mismatch? then DecodeError(IsCompletedKey)
    else if userId.Mismatch? then DecodeError(UserIdKey)
    else if createdAt.Mismatch? then DecodeError(CreatedAtKey)
    else if updatedAt.Mismatch? then DecodeError(UpdatedAtKey)
    else Decoded(FirestoreTodo(id, title.value, description.value, isCompleted.value,
                               userId.value, createdAt.value, updatedAt.value))
  }

  /** A document that holds none of the properties decodes to the all-defaults record:
      empty title, no description, not completed, owner "" and no timestamps. */
  lemma DecodeEmptyIsDefault(id: string)
    ensures Decode(id, map[]) == Decoded(FirestoreTodo(id := id))
    ensures var t := Decode(id, map[]).todo;
      t.title == Some("") && t.description == None && !t.isCompleted && t.userId == Some("")
      && t.createdAt == None && t.updatedAt == None
  {
  }

  /** Writing a record and reading it back gives the record, under the document's id, with
      every null timestamp replaced by the server's time. */
  lemma DecodeEncode(id: string, t: FirestoreTodo, serverTime: Instant)
    ensures Decode(id, Encode(t, serverTime))
         == Decoded(t.(id := id, createdAt := Some(t.createdAt.GetOr(serverTime)),
                       updatedAt := Some(t.updatedAt.GetOr(serverTime))))
  {
  }

  /** The completion flag is written only under "isCompleted": a written document never
      carries the legacy key. */
  lemma EncodeHasNoLegacyKey(t: FirestoreTodo, serverTime: Instant)
    ensures LegacyCompletedKey !in Encode(t, serverTime)
    ensures Encode(t, serverTime)[IsCompletedKey] == BooleanValue(t.isCompleted)
  {
  }

  /** The legacy key is not a property of the record, so decoding never looks at it: it can be
      read only from the raw document. */
  lemma DecodeIgnoresLegacyKey(id: string, f: Fields, v: Value)
    ensures Decode(id, f[LegacyCompletedKey := v]) == Decode(id, f)
  {
    var g := f[LegacyCompletedKey := v];
    assert forall k :: IsRecordKey(k) ==> (k in g <==> k in f) && (k in f ==> g[k] == f[k]);
  }
}
