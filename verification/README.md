# A verified model of the todo-list app's repositories and view-models

This Dafny project models the part of the Android to-do app that has behaviour you can state. That is:

- the to-do repository contract, with both of its implementations:
  - the remote one over a document store ("todos" collection, one document per todo, owned by a user id);
  - the local one over an auto-increment table;
- the two persisted record shapes and their defaults;
- the three view-models that drive the screens:
  - add/edit;
  - list;
  - authentication.

Modules, one per source component:

| module | file | models |
|---|---|---|
| `Common` | common.dfy | the domain `Todo`, UI events, a repository call's outcome (normal return or the exception it throws), the environment a call runs in, and Kotlin's `isBlank` |
| `Entities` | entities.dfy | `TodoEntity` and `FirestoreTodo` with their defaults; writing a record to a raw document (`Encode`) and reading it back (`Decode`, the record mapper) |
| `RemoteRepository` | remote.dfy | the collection as `map<id, raw document>`; the class `FirestoreTodoRepository` with `Insert`, `UpdateCompleted` and `Delete` methods proved against the spec functions `Inserted`, `CompletedUpdated` and `Deleted`; the read side as one projection (`Project`, with the legacy completion rule `Completion` written once) used by both `Snapshot` (one `getAll` emission) and `ReadById` (`getBy`) |
| `LocalRepository` | local.dfy | the table as `Table(rows, nextKey)`; the DAO's upsert, delete and lookup-by-text; the class `TodoRepositoryImpl` proved against `InsertedTable`, `CompletedTable` and `DeletedTable`; the entity-to-Todo mapping |
| `Repository` | repository.dfy | the `TodoRepository` interface as a datatype over the two implementations, with one dispatching method per operation |
| `AddEdit` | addedit.dfy | `AddEditViewModel`: loading the todo being edited, editing, and the blank-title guard before save |
| `TodoList` | list.dfy | `ListViewModel`: event dispatch and the mapping of a thrown exception to a snackbar |
| `Auth` | auth.dfy | `AuthEvent`, `AuthUiState` and `AuthViewModel`: the validation order, and the loading and message flags around an identity-provider call |

Each view-model keeps the UI events it sends, in order, as a `seq<UiEvent>`. The auth view-model keeps each provider call it makes as a `seq<ProviderCall>`, together with the flags on screen while that call is pending.

## How the environment enters

- **Session, clock and faults.** A repository call takes `Env(session, now, readFault, writeFault)`:
  - `session` is the signed-in user's uid (`currentUser`);
  - `now` is the client clock (`Date()` / `System.currentTimeMillis()`);
  - `readFault` says whether the store's read round trip throws, and with which message;
  - `writeFault` does the same for the write round trip.

  The faults apply to both implementations: to the remote store's reads and writes, and to the local DAO's lookup (`getBy`) and its writes (`insert`, `delete`). A fault makes the call throw and leaves the store unchanged.
- **Server timestamps.** A null `@ServerTimestamp` field is filled with an opaque server time.
- **Identity provider.** Its answer to a call is a parameter (`AuthResult`).
- **Email check.** The email pattern is a predicate handed to `AuthViewModel` when it is built.
- **Coroutines.** Each coroutine a view-model launches is modelled as running to completion within the call that launches it.

## Where the model follows the code rather than a natural reading

- **Undecodable document.** The record mapper (`toObject`) throws when an existing document holds a property of the wrong type. It does not return null. So `updateCompleted` on such a document fails with the mapper's exception (`StoreError(DecodeFailureMessage(field))`), not with "does not belong to current user". The store is unchanged either way.
- **Legacy completion value of the wrong type.** `getBoolean("completed")` throws when the legacy value is neither a boolean nor null. The projection's `try` turns that into `null`, so the document is dropped from `getAll` and `getBy` returns null. A null legacy value reads as false.
- **Null in a property declared non-null.** The record mapper checks for null before it checks types, so a stored null in `title` or `userId` lands in the record even though Kotlin declares both non-null. Only the primitive `isCompleted` rejects null, which is a decode failure. In the model `FirestoreTodo.title` and `FirestoreTodo.userId` are therefore nullable:
  - a null owner fails the owner check of `updateCompleted` with "does not belong to current user";
  - a null title passes it, and the update is written;
  - the domain `Todo` rejects a null title, so such a document never shows in `getAll` and reads as null from `getBy`.
- **The owner filter.** The live query filters on the stored `userId` field. A document without that field never appears, even though it decodes with owner `""`.
- **Reading an undecodable document by id.** `getBy` catches every exception, so such a document reads as null.
- **Key text.** The local DAO looks a row up by the text of its key. `ParseKey` selects a row for a non-empty string of decimal digits and for nothing else.
- **Legacy completion is sticky.** Normalised completion is `isCompleted || legacy`. So unchecking a todo whose document still carries `"completed": true` changes the stored flag, shows no error, and leaves the todo shown as completed (`ReadAfterUpdateCompleted`, `TodoList.UncheckLegacyCompletedHasNoVisibleEffect`).
- **Editing and completion.** Editing through the remote repository rewrites the whole document and resets completion. The local repository keeps it.

## Model

| member | source | states |
|---|---|---|
| Entities.Decode | app/src/main/java/com/example/todolist/data/TodoEntity.kt:21-36 | toObject succeeds exactly when every stored property holds a value its type accepts (string or null for title, description and userId; boolean for isCompleted; timestamp or null for the timestamps); a failure names a stored property with a rejected value; the record carries the document id; each property of the record holds the stored value (string, timestamp or null) when the document has that key and the no-argument default otherwise (title and userId "", description and timestamps null), and isCompleted is true exactly when the stored flag is true |
| Entities.Encode | app/src/main/java/com/example/todolist/data/TodoEntity.kt:21-36 | a written record has exactly one entry per persisted property (title, description, isCompleted, userId, createdAt, updatedAt) |
| Entities.DecodeEmptyIsDefault | app/src/main/java/com/example/todolist/data/TodoEntity.kt:21-36 | a document with no properties decodes to the no-argument record: empty title, null description, not completed, owner "", no timestamps |
| Entities.DecodeEncode | app/src/main/java/com/example/todolist/data/TodoEntity.kt:21-36 | writing a record and reading it back gives the record under the document's id, with null timestamps replaced by the server time |
| Entities.EncodeHasNoLegacyKey | app/src/main/java/com/example/todolist/data/TodoEntity.kt:27-29 | completion is persisted only under "isCompleted"; a written document never holds "completed" |
| Entities.DecodeIgnoresLegacyKey | app/src/main/java/com/example/todolist/data/TodoEntity.kt:21-36 | the decoded record does not depend on the legacy "completed" entry: it can be read only from the raw document |
| RemoteRepository.NewDocumentId | app/src/main/java/com/example/todolist/data/FirestoreTodoRepository.kt:39 | the id given to an added document is not the id of any existing document |
| RemoteRepository.FirestoreTodoRepository.constructor | app/src/main/java/com/example/todolist/data/FirestoreTodoRepository.kt:16-21 | the repository starts over the given collection |
| RemoteRepository.FirestoreTodoRepository.Insert | app/src/main/java/com/example/todolist/data/FirestoreTodoRepository.kt:23-44 | signed out: returns normally, nothing written; a failed write throws and writes nothing; with id X the whole document at X becomes the new record (not completed, owned by the session uid); without an id, exactly one document is added under an id no document had |
| RemoteRepository.UpdateOutcome | app/src/main/java/com/example/todolist/data/FirestoreTodoRepository.kt:46-60 | updateCompleted returns normally exactly when signed out, or when the read works, the document exists and decodes, its owner is the session uid and the write works; "not found" exactly when signed in, the read works and the document is absent; "does not belong" exactly when it exists and decodes with another (or a null) owner |
| RemoteRepository.FirestoreTodoRepository.UpdateCompleted | app/src/main/java/com/example/todolist/data/FirestoreTodoRepository.kt:46-74 | signed out: returns normally; otherwise a failed read, a missing document ("not found"), an undecodable document, another owner ("does not belong") and a failed write throw, in that order; the new collection is CompletedUpdated |
| RemoteRepository.CompletedUpdated | app/src/main/java/com/example/todolist/data/FirestoreTodoRepository.kt:51-69 | the same document ids remain; every other document is unchanged; nothing changes unless the call succeeds; on success only "isCompleted" (to the new value) and "updatedAt" (to the clock) change in that document, and every other field is kept |
| RemoteRepository.FirestoreTodoRepository.Delete | app/src/main/java/com/example/todolist/data/FirestoreTodoRepository.kt:76-82 | no session or owner check; only a failed write throws; the new collection is Deleted |
| RemoteRepository.Deleted | app/src/main/java/com/example/todolist/data/FirestoreTodoRepository.kt:76-82 | on success the document is gone, whoever owned it, and all other documents are unchanged; on a failed write nothing changes |
| RemoteRepository.Completion | app/src/main/java/com/example/todolist/data/FirestoreTodoRepository.kt:110-114 | normalised completion: true when isCompleted is true; otherwise the legacy boolean if the key is present (null reads as false, any other value throws), else false |
| RemoteRepository.Project | app/src/main/java/com/example/todolist/data/FirestoreTodoRepository.kt:106-126 | a document shows exactly when it decodes, its title is not null and its legacy flag can be read; it then carries the document id, the title and description, and is completed exactly when the stored flag is set or the legacy flag is true |
| RemoteRepository.Snapshot | app/src/main/java/com/example/todolist/data/FirestoreTodoRepository.kt:87-131 | an emission is empty when signed out, on a listener error or on a null snapshot; otherwise it holds exactly the documents whose stored userId is the session uid and that project, each as its projection |
| RemoteRepository.ReadById | app/src/main/java/com/example/todolist/data/FirestoreTodoRepository.kt:142-165 | getBy: no owner filter; null on a failed read or an absent document; otherwise the document's projection, with the document id |
| RemoteRepository.SignedOutWritesNothing | app/src/main/java/com/example/todolist/data/FirestoreTodoRepository.kt:24-47 | with no session, insert and updateCompleted return normally and leave the collection as it was |
| RemoteRepository.LegacyFallback | app/src/main/java/com/example/todolist/data/FirestoreTodoRepository.kt:106-122 | a stored false with a legacy true reads as completed; a stored true with no legacy key reads as completed; either shows exactly when its title is not null |
| RemoteRepository.LegacyCompletedOnRawDocument | app/src/main/java/com/example/todolist/data/FirestoreTodoRepository.kt:106-126 | a stored document whose values all have their property's type, with a string title, no or a false isCompleted and a legacy "completed": true, shows in getAll as completed with the stored title |
| RemoteRepository.DecodeWriteCompleted | app/src/main/java/com/example/todolist/data/FirestoreTodoRepository.kt:62-69 | the partial update keeps a decodable document decodable, with only isCompleted and updatedAt changed in the record |
| RemoteRepository.ReadAfterUpdateCompleted | app/src/main/java/com/example/todolist/data/FirestoreTodoRepository.kt:62-69 | after a successful update, checking reads back completed; unchecking a document with legacy "completed": true still reads back completed; unchecking a document without the legacy key reads back not completed; a document with a null title was written but reads back as null |
| RemoteRepository.ReadAfterInsertWithId | app/src/main/java/com/example/todolist/data/FirestoreTodoRepository.kt:27-37 | after insert with id X, getBy(X) and the next emission give exactly the new todo, not completed: editing resets completion |
| RemoteRepository.ReadAfterInsertNew | app/src/main/java/com/example/todolist/data/FirestoreTodoRepository.kt:27-39 | after insert without an id, exactly one new id exists and it reads back as the new todo, not completed |
| RemoteRepository.ReadAfterDelete | app/src/main/java/com/example/todolist/data/FirestoreTodoRepository.kt:76-82 | after a successful delete, getBy gives null and no emission contains the id |
| RemoteRepository.SnapshotOwnedBySession | app/src/main/java/com/example/todolist/data/FirestoreTodoRepository.kt:96-122 | every todo of an emission decodes with owner equal to the session uid |
| RemoteRepository.SnapshotAgreesWithRead | app/src/main/java/com/example/todolist/data/FirestoreTodoRepository.kt:106-159 | getAll and getBy project a document the same way |
| LocalRepository.NatToString | app/src/main/java/com/example/todolist/data/TodoRepositoryImpl.kt:42 | the text of a key is a non-empty string of decimal digits |
| LocalRepository.ParseNatToString | app/src/main/java/com/example/todolist/data/TodoRepositoryImpl.kt:42-55 | looking up the text of a key selects that key again |
| LocalRepository.KeyToStringInjective | app/src/main/java/com/example/todolist/data/TodoRepositoryImpl.kt:42 | distinct keys give distinct todo ids |
| LocalRepository.ParseKey | app/src/main/java/com/example/todolist/data/TodoRepositoryImpl.kt:52 | a textual id selects a key exactly when it is a non-empty string of decimal digits, and that key is non-negative |
| LocalRepository.DaoInsert | app/src/main/java/com/example/todolist/data/TodoRepositoryImpl.kt:22 | insert-or-replace by key: the row lands under its key (the next key for key 0), every other row is unchanged, and the counter stays above that key and never decreases |
| LocalRepository.DaoGetBy | app/src/main/java/com/example/todolist/data/TodoRepositoryImpl.kt:13 | the row whose key the text selects, and none exactly when no row has that key |
| LocalRepository.InsertedTable | app/src/main/java/com/example/todolist/data/TodoRepositoryImpl.kt:11-23 | with the id of an existing row, that row with only title and description replaced (key, completion, owner, creation time kept); otherwise a new uncompleted row with owner "" under a fresh key; the table stays valid |
| LocalRepository.CompletedTable | app/src/main/java/com/example/todolist/data/TodoRepositoryImpl.kt:25-30 | a silent no-op when no row is named; otherwise only that row's completion changes |
| LocalRepository.DeletedTable | app/src/main/java/com/example/todolist/data/TodoRepositoryImpl.kt:32-36 | a no-op when no row is named; otherwise exactly that row is removed and no other row changes |
| LocalRepository.ToTodos | app/src/main/java/com/example/todolist/data/TodoRepositoryImpl.kt:38-49 | getAll's mapping keeps length and order, each todo being the row's key as text with its fields copied |
| LocalRepository.ReadById | app/src/main/java/com/example/todolist/data/TodoRepositoryImpl.kt:51-61 | getBy is null exactly when no row is named; otherwise it is the same mapping getAll uses |
| LocalRepository.EmissionIdsResolve | app/src/main/java/com/example/todolist/data/TodoRepositoryImpl.kt:38-61 | every todo of a getAll emission reads back from getBy as itself, and the ids of one emission are distinct |
| LocalRepository.ReadByKey | app/src/main/java/com/example/todolist/data/TodoRepositoryImpl.kt:51-61 | getBy on a key's text finds that row when present and nothing otherwise |
| LocalRepository.ReadAfterInsertNew | app/src/main/java/com/example/todolist/data/TodoRepositoryImpl.kt:17-22 | an insert that creates a row reads back, uncompleted, under the text of the fresh key |
| LocalRepository.ReadAfterInsertExisting | app/src/main/java/com/example/todolist/data/TodoRepositoryImpl.kt:12-22 | an insert that edits a row reads back with the new title and description and the old completion |
| LocalRepository.ReadAfterDelete | app/src/main/java/com/example/todolist/data/TodoRepositoryImpl.kt:32-36 | after delete, the id reads back as null |
| LocalRepository.TodoRepositoryImpl.constructor | app/src/main/java/com/example/todolist/data/TodoRepositoryImpl.kt:7-9 | the repository works over the table the database already holds |
| LocalRepository.InsertOutcome | app/src/main/java/com/example/todolist/data/TodoRepositoryImpl.kt:11-23 | insert returns normally exactly when the write works and, when an id is given, the lookup of that row works; a failed lookup throws its own message before any write |
| LocalRepository.RowWriteOutcome | app/src/main/java/com/example/todolist/data/TodoRepositoryImpl.kt:25-36 | updateCompleted and delete throw when the lookup fails; when it finds no row they return normally without writing; otherwise they return normally exactly when the write works |
| LocalRepository.TodoRepositoryImpl.Insert | app/src/main/java/com/example/todolist/data/TodoRepositoryImpl.kt:11-23 | the outcome is InsertOutcome; on success the new table is InsertedTable, on a thrown fault the table is unchanged; it stays valid |
| LocalRepository.TodoRepositoryImpl.UpdateCompleted | app/src/main/java/com/example/todolist/data/TodoRepositoryImpl.kt:25-30 | the outcome is RowWriteOutcome (failed lookup, silent return on no row, failed write); on success the new table is CompletedTable, on a thrown fault the table is unchanged; it stays valid |
| LocalRepository.TodoRepositoryImpl.Delete | app/src/main/java/com/example/todolist/data/TodoRepositoryImpl.kt:32-36 | the outcome is RowWriteOutcome (failed lookup, silent return on no row, failed write); on success the new table is DeletedTable, on a thrown fault the table is unchanged; it stays valid |
| Repository.LocalIgnoresSession | app/src/main/java/com/example/todolist/data/TodoRepositoryImpl.kt:11-36 | the local implementation consults no session or owner: its outcomes and its effect on the table are the same whoever is signed in; with no read or write fault every call returns normally |
| Repository.LocalFailureChangesNothing | app/src/main/java/com/example/todolist/data/TodoRepositoryImpl.kt:25-36 | a local updateCompleted or delete that throws leaves the table as it was |
| Repository.TodoRepository.Insert | app/src/main/java/com/example/todolist/data/TodoRepository.kt:8 | insert through the interface has the outcome and effect of the implementation behind it |
| Repository.TodoRepository.UpdateCompleted | app/src/main/java/com/example/todolist/data/TodoRepository.kt:10 | updateCompleted through the interface has the outcome and effect of the implementation behind it |
| Repository.TodoRepository.Delete | app/src/main/java/com/example/todolist/data/TodoRepository.kt:12 | delete through the interface has the outcome and effect of the implementation behind it |
| Repository.TodoRepository.GetBy | app/src/main/java/com/example/todolist/data/TodoRepository.kt:16 | getBy through the interface reads what the implementation behind it reads |
| AddEdit.TargetId | app/src/main/java/com/example/todolist/ui/feature/addedit/AddEditViewModel.kt:37-40 | the target id is null exactly when the saved id is absent or the text "null", and otherwise is the saved id |
| AddEdit.DescriptionFor | app/src/main/java/com/example/todolist/ui/feature/addedit/AddEditViewModel.kt:57-58 | the description is null exactly when the typed text is blank, and otherwise is that text |
| AddEdit.SaveResult | app/src/main/java/com/example/todolist/ui/feature/addedit/AddEditViewModel.kt:75-80 | save ends with NavigateBack exactly when insert returned, otherwise with "Falha ao salvar a tarefa: " and the message |
| AddEdit.AddEditViewModel.constructor | app/src/main/java/com/example/todolist/ui/feature/addedit/AddEditViewModel.kt:23-49 | starts with title "", description null and no events; with a real id, remembers it and copies title and description from getBy when it finds the todo, leaving them empty otherwise |
| AddEdit.AddEditViewModel.OnEvent | app/src/main/java/com/example/todolist/ui/feature/addedit/AddEditViewModel.kt:51-65 | TitleChanged sets exactly the title; DescriptionChanged sets DescriptionFor; neither emits or writes; Save behaves as SaveTodo |
| AddEdit.AddEditViewModel.SaveTodo | app/src/main/java/com/example/todolist/ui/feature/addedit/AddEditViewModel.kt:67-82 | a blank title emits only "Coloque um título!" and calls no repository method; otherwise one insert(title, description, todoId) then SaveResult |
| AddEdit.SaveSignedOutStillNavigatesBack | app/src/main/java/com/example/todolist/ui/feature/addedit/AddEditViewModel.kt:75-77 | over the remote repository with no session, saving writes nothing and still navigates back |
| AddEdit.SaveBlankTitleOnlyWarns | app/src/main/java/com/example/todolist/ui/feature/addedit/AddEditViewModel.kt:69-73 | a blank title never reaches either repository |
| TodoList.FailureEvents | app/src/main/java/com/example/todolist/ui/feature/list/ListViewModel.kt:58-72 | a repository call emits nothing exactly when it returned, and one snackbar with the prefix and the message when it threw |
| TodoList.ListViewModel.constructor | app/src/main/java/com/example/todolist/ui/feature/list/ListViewModel.kt:28-36 | the todo list starts empty, with no events |
| TodoList.ListViewModel.OnEvent | app/src/main/java/com/example/todolist/ui/feature/list/ListViewModel.kt:40-54 | Delete(id) deletes that id; CompleteChanged(id, b) calls updateCompleted(id, b); each emits FailureEvents with its prefix; AddEdit(id) emits exactly Navigate(AddEditRoute(id)) and leaves the store alone |
| TodoList.ListViewModel.DeleteTodo | app/src/main/java/com/example/todolist/ui/feature/list/ListViewModel.kt:56-64 | deletes the id and emits "Falha ao apagar tarefa: " and the message only on failure |
| TodoList.ListViewModel.CompleteChangedTodo | app/src/main/java/com/example/todolist/ui/feature/list/ListViewModel.kt:66-74 | updates the completion and emits "Falha ao atualizar tarefa: " and the message only on failure |
| TodoList.UncheckLegacyCompletedHasNoVisibleEffect | app/src/main/java/com/example/todolist/ui/feature/list/ListViewModel.kt:66-74 | unchecking a shown todo whose document has legacy "completed": true emits nothing and the next emission still shows it completed |
| Auth.Utf16Length | app/src/main/java/com/example/todolist/ui/auth/AuthViewModel.kt:64 | a password's length in UTF-16 units lies between its character count and twice that count |
| Auth.Utf16LengthOfBmp | app/src/main/java/com/example/todolist/ui/auth/AuthViewModel.kt:64 | for text in the Basic Multilingual Plane the length is the character count |
| Auth.Handle | app/src/main/java/com/example/todolist/ui/auth/AuthViewModel.kt:48-151 | an event calls the provider exactly when it is a sign-out or a validated sign-in, sign-up or reset; during a call loading is on and afterwards off; an event that calls nothing keeps loading as it was, and (other than ClearError) sets only the first broken rule's message |
| Auth.UiStateOf | app/src/main/java/com/example/todolist/ui/auth/AuthViewModel.kt:28-41 | the screen state copies the session state and the three flags one-for-one and never sets a welcome message |
| Auth.DefaultUiState | app/src/main/java/com/example/todolist/ui/auth/AuthEvent.kt:11-19 | the default screen state is not authenticated, initially loading, not action-loading, with no messages and no user; the combined initial state equals it |
| Auth.InvalidEmailRejected | app/src/main/java/com/example/todolist/ui/auth/AuthViewModel.kt:60-63 | a bad email in sign-in, sign-up or reset sets only "Entre com um e-mail válido.", keeps any success message and loading flag, and calls no provider |
| Auth.ShortPasswordRejected | app/src/main/java/com/example/todolist/ui/auth/AuthViewModel.kt:64-67 | with a valid email, a password under 6 units sets only "A senha precisa ter pelo menos 6 caracteres." and calls no provider |
| Auth.CredentialsAccepted | app/src/main/java/com/example/todolist/ui/auth/AuthViewModel.kt:58-74 | sign-in and sign-up reach the provider if and only if the email is valid and the password has at least 6 units |
| Auth.ResetChecksEmailOnly | app/src/main/java/com/example/todolist/ui/auth/AuthViewModel.kt:116-127 | reset reaches the provider if and only if the email is valid; it has no password rule |
| Auth.ValidActionCallsProvider | app/src/main/java/com/example/todolist/ui/auth/AuthViewModel.kt:69-84 | validated input calls the provider once with loading on and both messages cleared; afterwards loading is off, and success shows none, "Cadastro feito com sucesso!" or "E-mail para redefinição de senha enviado!" while an error shows its message |
| Auth.SignOutIgnoresResult | app/src/main/java/com/example/todolist/ui/auth/AuthViewModel.kt:140-146 | sign-out calls the provider with loading on, ignores the answer, ends with loading off and messages untouched |
| Auth.LoadingOffAfterAction | app/src/main/java/com/example/todolist/ui/auth/AuthViewModel.kt:84-151 | loading is off after every action that called the provider; ClearError clears both messages and changes nothing else |
| Auth.AuthViewModel.constructor | app/src/main/java/com/example/todolist/ui/auth/AuthViewModel.kt:23-25 | flags start not loading with no messages; no provider call yet |
| Auth.AuthViewModel.OnEvent | app/src/main/java/com/example/todolist/ui/auth/AuthViewModel.kt:48-56 | each event moves the flags and the call log as Handle says |
| Auth.AuthViewModel.CallProvider | app/src/main/java/com/example/todolist/ui/auth/AuthViewModel.kt:69-84 | the provider is called once while loading is on and messages are cleared; the answer then sets the messages and loading goes off |
| Auth.AuthViewModel.SignInAction | app/src/main/java/com/example/todolist/ui/auth/AuthViewModel.kt:58-86 | signIn moves the flags and call log as Handle says |
| Auth.AuthViewModel.SignUpAction | app/src/main/java/com/example/todolist/ui/auth/AuthViewModel.kt:88-114 | signUp moves the flags and call log as Handle says |
| Auth.AuthViewModel.ResetPasswordAction | app/src/main/java/com/example/todolist/ui/auth/AuthViewModel.kt:116-138 | resetPassword moves the flags and call log as Handle says |
| Auth.AuthViewModel.SignOutAction | app/src/main/java/com/example/todolist/ui/auth/AuthViewModel.kt:140-146 | signOut moves the flags and call log as Handle says |
| Auth.AuthViewModel.ClearMessages | app/src/main/java/com/example/todolist/ui/auth/AuthViewModel.kt:148-151 | clears both messages; loading and the call log are unchanged |

## Left out

- Listener and Flow plumbing: listener registration and removal, `callbackFlow`, `awaitClose`, `stateIn` with its five-second sharing window, and the order of coroutines. Each `getAll` emission is a function of the session, the store and how the listener was called, not a stream.
- The list view-model's `todos` after the first emission. The model only states that the list starts empty. Later values come from the repository's Flow, which is not modelled.
- Order of a remote emission: the query's order is unspecified, so `Snapshot` is a map keyed by document id.
- Concurrency between a launched coroutine and later events. Every launched coroutine runs to completion at once. The add/edit screen's load-from-`getBy` therefore finishes before any edit.
- The identity provider (`AuthRepositoryImpl`) and the session stream. They are parameters: the provider's answer and an `AuthState` value.
- The email regular expression: it is a predicate given to the view-model.
- Document ids that are not plain ids. The store's `document(id)` throws on an empty id, and an id containing "/" is read as a path. The model accepts any string as a document id.
- The document store's real id generator, which makes 20-character random ids. `NewDocumentId` returns an id longer than every existing one.
- The SDK's exact exception texts:
  - a failed read or write carries the message given in `Env`;
  - a decode failure carries `DecodeFailureMessage(field)`, which names the field but does not reproduce the SDK's wording.
- A null exception message. The snackbar would show the text "null".
- A document holding a property named "id", which the `@DocumentId` mapping rejects; it is not modelled.
- The table's SQL details:
  - the 64-bit range of `Long` keys;
  - SQLite's text-to-integer coercion for lookups with leading whitespace or a sign;
  - the fact that AUTOINCREMENT never reuses a key after the largest row is deleted. `nextKey` models this as a counter that never decreases.
- LocalRepository.TodoRepositoryImpl.GetBy: a failed DAO lookup in `getBy` would throw to the caller (and end the add/edit screen's loading coroutine); the model's local `getBy` and `getAll` read the table without a fault, because they are functions of the table.
- The Compose screens, navigation and dependency wiring; they are outside the modelled core.
