/** The remote repository (app/.../data/FirestoreTodoRepository.kt): the "todos" collection of
    the document store as a map from document id to raw document, written by insert,
    updateCompleted and delete, and read through one projection that decodes each document and
    normalises its completion flag. The signed-in user, the clock and the failures of the
    store's round trips come in through Env. */
module RemoteRepository {
  import opened Common
  import opened Entities

  /** The "todos" collection: document id to raw document. */
  type Collection = map<string, Fields>

  // ---------------------------------------------------------------------------------------
  // Writes

  /** The record insert builds: the given title and description, not completed, owned by the
      signed-in user, both timestamps taken from the client clock. */
  function NewRecord(title: string, description: Option<string>, uid: string, now: Instant): FirestoreTodo {
    FirestoreTodo(title := Some(title), description := description, isCompleted := false,
                  userId := Some(uid), createdAt := Some(now), updatedAt := Some(now))
  }

  /** The whole document insert writes (set replaces every field of the document). */
  function NewDocument(title: string, description: Option<string>, uid: string, now: Instant): Fields {
    Encode(NewRecord(title, description, uid, now), now)
  }

  /** The store assigns a new document an id that no document has yet. The model picks a
      string longer than every existing id. */
  method NewDocumentId(taken: set<string>) returns (id: string)
    ensures id !in taken
  {
    var longest: nat := 0;
    var rest := taken;
    while rest != {}
      invariant rest <= taken
      invariant forall k :: k in taken && k !in rest ==> |k| <= longest
      decreases |rest|
    {
      var k :| k in rest;
      if |k| > longest {
        longest := |k|;
      }
      rest := rest - {k};
    }
    id := seq(longest + 1, _ => 'x');
  }

  /** How insert ends: signed out it returns quietly; otherwise it rethrows a failed write. */
  function InsertOutcome(env: Env): Outcome {
    if env.session.Some? && env.writeFault.Some? then StoreError(env.writeFault.value) else Ok
  }

  /** The collection insert leaves behind. Signed out, or on a failed write, nothing changes.
      With an id, the whole document at that id is replaced; without one, exactly one document
      is added under an id no document had. */
  ghost predicate Inserted(before: Collection, after: Collection, title: string,
                           description: Option<string>, id: Option<string>, env: Env)
  {
    if env.session.None? || env.writeFault.Some? then after == before
    else
      var doc := NewDocument(title, description, env.session.value, env.now);
      match id
      case Some(x) => after == before[x := doc]
      case None => exists k :: k !in before && after == before[k := doc]
  }

  /** The message the record mapper's exception carries when a property has the wrong type. */
  function DecodeFailureMessage(field: string): string {
    "Could not deserialize object: wrong type in field '" + field + "'"
  }

  /** How updateCompleted ends. Signed out it returns quietly. Otherwise: a failed read, a
      missing document, an undecodable document, another user's document (a null owner
      included) or a failed write each throw, checked in that order. */
  function UpdateOutcome(docs: Collection, id: string, env: Env): (r: Outcome)
    ensures r.Ok? <==> (env.session.None? ||
      (&& env.readFault.None? && id in docs && Decode(id, docs[id]).Decoded?
       && Decode(id, docs[id]).todo.userId == env.session && env.writeFault.None?))
    ensures r.NotFound? <==> env.session.Some? && env.readFault.None? && id !in docs
    ensures r.NotFound? ==> r.id == id
    ensures r.NotOwner? <==> (env.session.Some? && env.readFault.None? && id in docs
      && Decode(id, docs[id]).Decoded? && Decode(id, docs[id]).todo.userId != env.session)
  {
    match env.session
    case None => Ok
    case Some(uid) =>
      if env.readFault.Some? then StoreError(env.readFault.value)
      else if id !in docs then NotFound(id)
      else match Decode(id, docs[id])
        case DecodeError(field) => StoreError(DecodeFailureMessage(field))
        case Decoded(t) =>
          if t.userId != Some(uid) then NotOwner
          else if env.writeFault.Some? then StoreError(env.writeFault.value)
          else Ok
  }

  /** The partial update: only "isCompleted" and "updatedAt" are written. */
  function WriteCompleted(f: Fields, isCompleted: bool, now: Instant): Fields {
    f[IsCompletedKey := BooleanValue(isCompleted)][UpdatedAtKey := TimestampValue(now)]
  }

  /** The collection updateCompleted leaves behind: only a signed-in call that ends normally
      writes, and it changes two fields of one document and nothing else. */
  function CompletedUpdated(docs: Collection, id: string, isCompleted: bool, env: Env): (after: Collection)
    ensures after.Keys == docs.Keys
    ensures forall k :: k in docs && k != id ==> after[k] == docs[k]
    ensures !(env.session.Some? && UpdateOutcome(docs, id, env).Ok?) ==> after == docs
    ensures env.session.Some? && UpdateOutcome(docs, id, env).Ok? ==>
      && id in docs && id in after
      && IsCompletedKey in after[id] && UpdatedAtKey in after[id]
      && after[id][IsCompletedKey] == BooleanValue(isCompleted)
      && after[id][UpdatedAtKey] == TimestampValue(env.now)
      && forall key :: key != IsCompletedKey && key != UpdatedAtKey ==>
           (key in after[id] <==> key in docs[id]) && (key in docs[id] ==> after[id][key] == docs[id][key])
  {
    if env.session.Some? && UpdateOutcome(docs, id, env).Ok? then
      docs[id := WriteCompleted(docs[id], isCompleted, env.now)]
    else docs
  }

  /** How delete ends: only a failed write throws. Neither the session nor the owner is checked. */
  function DeleteOutcome(env: Env): Outcome {
    if env.writeFault.Some? then StoreError(env.writeFault.value) else Ok
  }

  /** The collection delete leaves behind: the document is gone, whoever owned it. */
  function Deleted(docs: Collection, id: string, env: Env): (after: Collection)
    ensures env.writeFault.None? ==> id !in after && after.Keys == docs.Keys - {id}
    ensures env.writeFault.Some? ==> after == docs
    ensures forall k :: k in after ==> k in docs && after[k] == docs[k]
  {
    if env.writeFault.Some? then docs else docs - {id}
  }

  // ---------------------------------------------------------------------------------------
  // Reads

  /** The normalised completion of a decoded document: the current flag when it is set,
      otherwise the legacy "completed" value when the document has that key (null reads as
      false). None: getBoolean throws because the legacy value is not a boolean. */
  function Completion(f: Fields, t: FirestoreTodo): (c: Option<bool>)
    ensures t.isCompleted ==> c == Some(true)
    ensures !t.isCompleted && LegacyCompletedKey !in f ==> c == Some(false)
    ensures !t.isCompleted && LegacyCompletedKey in f ==>
      match f[LegacyCompletedKey]
      case BooleanValue(b) => c == Some(b)
      case NullValue => c == Some(false)
      case _ => c == None
  {
    if !t.isCompleted && LegacyCompletedKey in f then
      match f[LegacyCompletedKey]
      case BooleanValue(b) => Some(b)
      case NullValue => Some(false)
      case _ => None
    else Some(t.isCompleted)
  }

  /** One document as the UI sees it; None when it does not decode, when its title is null
      (the domain record rejects a null title) or when its legacy flag cannot be read: each of
      these throws and the exception is swallowed. The todo is completed when the stored flag
      is set or the legacy flag is true. */
  function Project(id: string, f: Fields): (r: Option<Todo>)
    ensures r.Some? <==> Decode(id, f).Decoded? && Decode(id, f).todo.title.Some?
                         && Completion(f, Decode(id, f).todo).Some?
    ensures r.Some? ==>
      && r.value.id == id
      && Some(r.value.title) == Decode(id, f).todo.title
      && r.value.description == Decode(id, f).todo.description
      && (r.value.isCompleted <==>
            Decode(id, f).todo.isCompleted || (LegacyCompletedKey in f && f[LegacyCompletedKey] == BooleanValue(true)))
  {
    match Decode(id, f)
    case DecodeError(_) => None
    case Decoded(t) =>
      if t.title.None? then None
      else match Completion(f, t)
        case None => None
        case Some(c) => Some(Todo(id, t.title.value, t.description, c))
  }

  /** The owner filter of the live query, applied to the stored field. */
  predicate StoredOwner(f: Fields, uid: string) {
    UserIdKey in f && f[UserIdKey] == StringValue(uid)
  }

  /** What the live query's listener is called with. */
  datatype ListenerCall = Delivered | ListenerError | NullSnapshot

  /** One emission of getAll, indexed by document id (the query's order is unspecified):
      nothing when signed out, on a listener error or on a null snapshot; otherwise every
      document of the signed-in user that projects. */
  function Snapshot(session: Option<string>, docs: Collection, call: ListenerCall): (r: map<string, Todo>)
    ensures session.None? || !call.Delivered? ==> r == map[]
    ensures forall id :: id in r <==>
      session.Some? && call.Delivered? && id in docs && StoredOwner(docs[id], session.value) && Project(id, docs[id]).Some?
    ensures forall id :: id in r ==> id in docs && Project(id, docs[id]) == Some(r[id])
  {
    match session
    case None => map[]
    case Some(uid) =>
      if !call.Delivered? then map[]
      else map id | id in docs && StoredOwner(docs[id], uid) && Project(id, docs[id]).Some? :: Project(id, docs[id]).value
  }

  /** getBy: the projected document; None when the read fails or the document is absent or
      does not project. No owner check. */
  function ReadById(docs: Collection, id: string, readFault: Option<string>): (r: Option<Todo>)
    ensures r.Some? ==> readFault.None? && id in docs && r == Project(id, docs[id]) && r.value.id == id
    ensures readFault.None? && id in docs ==> r == Project(id, docs[id])
  {
    if readFault.Some? || id !in docs then None else Project(id, docs[id])
  }

  // ---------------------------------------------------------------------------------------
  // The repository object

  class FirestoreTodoRepository {
    var todos: Collection

    constructor(todos: Collection)
      ensures this.todos == todos
    {
      this.todos := todos;
    }

    method Insert(title: string, description: Option<string>, id: Option<string>, env: Env) returns (outcome: Outcome)
      modifies this
      ensures outcome == InsertOutcome(env)
      ensures Inserted(old(todos), todos, title, description, id, env)
    {
      if env.session.None? {
        return Ok;
      }
      var record := NewRecord(title, description, env.session.value, env.now);
      if env.writeFault.Some? {
        return StoreError(env.writeFault.value);
      }
      var doc := Encode(record, env.now);
      match id {
        case Some(x) =>
          todos := todos[x := doc];
        case None =>
          var k := NewDocumentId(todos.Keys);
          todos := todos[k := doc];
      }
      outcome := Ok;
    }

    method UpdateCompleted(id: string, isCompleted: bool, env: Env) returns (outcome: Outcome)
      modifies this
      ensures outcome == UpdateOutcome(old(todos), id, env)
      ensures todos == CompletedUpdated(old(todos), id, isCompleted, env)
    {
      if env.session.None? {
        return Ok;
      }
      if env.readFault.Some? {
        return StoreError(env.readFault.value);
      }
      if id !in todos {
        return NotFound(id);
      }
      var decoded := Decode(id, todos[id]);
      if decoded.DecodeError? {
        return StoreError(DecodeFailureMessage(decoded.field));
      }
      if decoded.todo.userId != Some(env.session.value) {
        return NotOwner;
      }
      if env.writeFault.Some? {
        return StoreError(env.writeFault.value);
      }
      todos := todos[id := WriteCompleted(todos[id], isCompleted, env.now)];
      outcome := Ok;
    }

    method Delete(id: string, env: Env) returns (outcome: Outcome)
      modifies this
      ensures outcome == DeleteOutcome(env)
      ensures todos == Deleted(old(todos), id, env)
    {
      if env.writeFault.Some? {
        return StoreError(env.writeFault.value);
      }
      todos := todos - {id};
      outcome := Ok;
    }

    function GetBy(id: string, env: Env): Option<Todo>
      reads this
    {
      ReadById(todos, id, env.readFault)
    }

    function GetAll(session: Option<string>, call: ListenerCall): map<string, Todo>
      reads this
    {
      Snapshot(session, todos, call)
    }
  }

  // ---------------------------------------------------------------------------------------
  // Properties

  /** Signed out, insert and updateCompleted end normally and write nothing. */
  lemma SignedOutWritesNothing(docs: Collection, after: Collection, title: string, description: Option<string>,
                               id: Option<string>, target: string, isCompleted: bool, env: Env)
    requires env.session.None?
    requires Inserted(docs, after, title, description, id, env)
    ensures after == docs && InsertOutcome(env) == Ok
    ensures CompletedUpdated(docs, target, isCompleted, env) == docs && UpdateOutcome(docs, target, env) == Ok
  {
  }

  /** The two normalisation cases: a current flag false with a legacy true reads as true; a
      current flag true with no legacy key reads as true. Either way the document shows exactly
      when its title is not null. */
  lemma LegacyFallback(id: string, f: Fields)
    requires Decode(id, f).Decoded?
    ensures !Decode(id, f).todo.isCompleted && LegacyCompletedKey in f && f[LegacyCompletedKey] == BooleanValue(true)
            ==> (Project(id, f).Some? <==> Decode(id, f).todo.title.Some?)
                && (Project(id, f).Some? ==> Project(id, f).value.isCompleted)
    ensures Decode(id, f).todo.isCompleted && LegacyCompletedKey !in f
            ==> (Project(id, f).Some? <==> Decode(id, f).todo.title.Some?)
                && (Project(id, f).Some? ==> Project(id, f).value.isCompleted)
  {
  }

  /** The legacy fallback stated on a stored document: when every stored value has the type its
      property expects, the title is a string, the current flag is absent or false and the
      legacy key holds true, getAll shows the todo, completed, with the stored title. */
  lemma LegacyCompletedOnRawDocument(id: string, f: Fields)
    requires forall k :: k in f ==> Accepts(k, f[k])
    requires TitleKey in f && f[TitleKey].StringValue?
    requires IsCompletedKey !in f || f[IsCompletedKey] == BooleanValue(false)
    requires LegacyCompletedKey in f && f[LegacyCompletedKey] == BooleanValue(true)
    ensures Project(id, f).Some?
    ensures Project(id, f).value.isCompleted
    ensures Project(id, f).value.title == f[TitleKey].s
  {
    LegacyFallback(id, f);
  }

  /** The partial update of the completion flag keeps a decodable document decodable. */
  lemma DecodeWriteCompleted(id: string, f: Fields, isCompleted: bool, now: Instant)
    requires Decode(id, f).Decoded?
    ensures Decode(id, WriteCompleted(f, isCompleted, now))
         == Decoded(Decode(id, f).todo.(isCompleted := isCompleted, updatedAt := Some(now)))
  {
  }

  /** After a successful updateCompleted(id, b) the document reads back with completion
      b || (legacy flag): checking always shows as completed, and unchecking a document whose
      legacy "completed" is true has no visible effect. A document with a null title was
      written but still reads back as nothing. */
  lemma ReadAfterUpdateCompleted(docs: Collection, id: string, isCompleted: bool, env: Env)
    requires env.session.Some? && UpdateOutcome(docs, id, env).Ok?
    ensures id in docs
    ensures var after := CompletedUpdated(docs, id, isCompleted, env);
      var t := Decode(id, docs[id]).todo;
      && (t.title.None? ==> ReadById(after, id, None) == None)
      && (t.title.Some? && isCompleted ==> ReadById(after, id, None) == Some(Todo(id, t.title.value, t.description, true)))
      && ((t.title.Some? && !isCompleted && LegacyCompletedKey in docs[id] && docs[id][LegacyCompletedKey] == BooleanValue(true))
            ==> ReadById(after, id, None) == Some(Todo(id, t.title.value, t.description, true)))
      && ((t.title.Some? && !isCompleted && LegacyCompletedKey !in docs[id])
            ==> ReadById(after, id, None) == Some(Todo(id, t.title.value, t.description, false)))
  {
    DecodeWriteCompleted(id, docs[id], isCompleted, env.now);
  }

  /** After a successful insert with an id, reading that id gives exactly the new todo, not
      completed, whatever the document held before (editing resets completion). */
  lemma ReadAfterInsertWithId(docs: Collection, after: Collection, title: string,
                              description: Option<string>, x: string, env: Env)
    requires env.session.Some? && env.writeFault.None?
    requires Inserted(docs, after, title, description, Some(x), env)
    ensures ReadById(after, x, None) == Some(Todo(x, title, description, false))
    ensures Snapshot(env.session, after, Delivered)[x] == Todo(x, title, description, false)
  {
    DecodeEncode(x, NewRecord(title, description, env.session.value, env.now), env.now);
    EncodeHasNoLegacyKey(NewRecord(title, description, env.session.value, env.now), env.now);
  }

  /** After a successful insert without an id, exactly one new document exists, and it reads
      back as the new todo, not completed, under its new id. */
  lemma ReadAfterInsertNew(docs: Collection, after: Collection, title: string,
                           description: Option<string>, env: Env)
    requires env.session.Some? && env.writeFault.None?
    requires Inserted(docs, after, title, description, None, env)
    ensures exists k :: k !in docs && after.Keys == docs.Keys + {k}
                       && ReadById(after, k, None) == Some(Todo(k, title, description, false))
  {
    var doc := NewDocument(title, description, env.session.value, env.now);
    var k :| k !in docs && after == docs[k := doc];
    DecodeEncode(k, NewRecord(title, description, env.session.value, env.now), env.now);
    EncodeHasNoLegacyKey(NewRecord(title, description, env.session.value, env.now), env.now);
  }

  /** After a successful delete, reading the id gives nothing and no emission contains it. */
  lemma ReadAfterDelete(docs: Collection, id: string, env: Env, session: Option<string>, call: ListenerCall)
    requires env.writeFault.None?
    ensures ReadById(Deleted(docs, id, env), id, None) == None
    ensures id !in Snapshot(session, Deleted(docs, id, env), call)
  {
  }

  /** Every todo a live emission carries belongs to the signed-in user: its decoded owner is
      the session's uid. */
  lemma SnapshotOwnedBySession(session: Option<string>, docs: Collection, call: ListenerCall, id: string)
    requires id in Snapshot(session, docs, call)
    ensures session.Some? && id in docs
    ensures Decode(id, docs[id]).Decoded? && Decode(id, docs[id]).todo.userId == session
  {
  }

  /** A live emission and getBy agree on every todo the emission carries. */
  lemma SnapshotAgreesWithRead(session: Option<string>, docs: Collection, call: ListenerCall, id: string)
    requires id in Snapshot(session, docs, call)
    ensures ReadById(docs, id, None) == Some(Snapshot(session, docs, call)[id])
  {
  }
}
