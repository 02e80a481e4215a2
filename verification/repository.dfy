/** The TodoRepository interface (app/.../data/TodoRepository.kt) as one datatype over its two
    implementations, chosen when the view-models are built. The store behind either is seen
    through Store, and each operation's effect is stated once, per implementation, over Store. */
module Repository {
  import opened Common
  import RemoteRepository
  import LocalRepository

  /** The contents of the store behind a repository. */
  datatype Store = RemoteStore(docs: RemoteRepository.Collection) | LocalStore(table: LocalRepository.Table)

  ghost predicate StoreValid(s: Store) {
    s.LocalStore? ==> LocalRepository.TableValid(s.table)
  }

  function InsertOutcome(s: Store, id: Option<string>, env: Env): Outcome {
    match s
    case RemoteStore(_) => RemoteRepository.InsertOutcome(env)
    case LocalStore(_) => LocalRepository.InsertOutcome(id, env)
  }

  /** s' is a store insert(title, description, id) can leave behind when it starts from s. */
  ghost predicate Inserted(s: Store, s': Store, title: string, description: Option<string>, id: Option<string>, env: Env) {
    match s
    case RemoteStore(docs) => s'.RemoteStore? && RemoteRepository.Inserted(docs, s'.docs, title, description, id, env)
    case LocalStore(t) =>
      && LocalRepository.TableValid(t)
      && s' == if LocalRepository.InsertOutcome(id, env).Ok? then LocalStore(LocalRepository.InsertedTable(t, title, description, id, env.now)) else s
  }

  function UpdateOutcome(s: Store, id: string, env: Env): Outcome {
    match s
    case RemoteStore(docs) => RemoteRepository.UpdateOutcome(docs, id, env)
    case LocalStore(t) => LocalRepository.RowWriteOutcome(t, id, env)
  }

  function CompletedUpdated(s: Store, id: string, isCompleted: bool, env: Env): Store
    requires StoreValid(s)
  {
    match s
    case RemoteStore(docs) => RemoteStore(RemoteRepository.CompletedUpdated(docs, id, isCompleted, env))
    case LocalStore(t) =>
      if LocalRepository.RowWriteOutcome(t, id, env).Ok? then LocalStore(LocalRepository.CompletedTable(t, id, isCompleted)) else s
  }

  function DeleteOutcome(s: Store, id: string, env: Env): Outcome {
    match s
    case RemoteStore(_) => RemoteRepository.DeleteOutcome(env)
    case LocalStore(t) => LocalRepository.RowWriteOutcome(t, id, env)
  }

  function Deleted(s: Store, id: string, env: Env): Store
    requires StoreValid(s)
  {
    match s
    case RemoteStore(docs) => RemoteStore(RemoteRepository.Deleted(docs, id, env))
    case LocalStore(t) =>
      if LocalRepository.RowWriteOutcome(t, id, env).Ok? then LocalStore(LocalRepository.DeletedTable(t, id)) else s
  }

  function Read(s: Store, id: string, env: Env): Option<Todo> {
    match s
    case RemoteStore(docs) => RemoteRepository.ReadById(docs, id, env.readFault)
    case LocalStore(t) => LocalRepository.ReadById(t, id)
  }

  /** The local implementation consults no session and no owner: whoever is signed in, each
      call ends the same way and leaves the same table. It fails only when the table itself
      does: with no read or write fault every call ends normally. */
  lemma LocalIgnoresSession(t: LocalRepository.Table, id: string, target: Option<string>, env: Env, session: Option<string>)
    requires LocalRepository.TableValid(t)
    ensures var env' := env.(session := session);
      && InsertOutcome(LocalStore(t), target, env') == InsertOutcome(LocalStore(t), target, env)
      && UpdateOutcome(LocalStore(t), id, env') == UpdateOutcome(LocalStore(t), id, env)
      && DeleteOutcome(LocalStore(t), id, env') == DeleteOutcome(LocalStore(t), id, env)
      && (forall b :: CompletedUpdated(LocalStore(t), id, b, env') == CompletedUpdated(LocalStore(t), id, b, env))
      && Deleted(LocalStore(t), id, env') == Deleted(LocalStore(t), id, env)
    ensures env.readFault.None? && env.writeFault.None? ==>
      && InsertOutcome(LocalStore(t), target, env).Ok?
      && UpdateOutcome(LocalStore(t), id, env).Ok?
      && DeleteOutcome(LocalStore(t), id, env).Ok?
  {
  }

  /** A local call that fails leaves the table as it was. */
  lemma LocalFailureChangesNothing(t: LocalRepository.Table, id: string, b: bool, env: Env)
    requires LocalRepository.TableValid(t)
    ensures !UpdateOutcome(LocalStore(t), id, env).Ok? ==> CompletedUpdated(LocalStore(t), id, b, env) == LocalStore(t)
    ensures !DeleteOutcome(LocalStore(t), id, env).Ok? ==> Deleted(LocalStore(t), id, env) == LocalStore(t)
  {
  }

  /** A repository: the remote or the local implementation. */
  datatype TodoRepository = Remote(remote: RemoteRepository.FirestoreTodoRepository) | Local(local: LocalRepository.TodoRepositoryImpl) {

    function Obj(): object {
      if Remote? then remote as object else local as object
    }

    ghost predicate Valid()
      reads Obj()
    {
      Local? ==> local.Valid()
    }

    ghost function State(): (s: Store)
      reads Obj()
      ensures Valid() ==> StoreValid(s)
    {
      if Remote? then RemoteStore(remote.todos) else LocalStore(local.table)
    }

    method Insert(title: string, description: Option<string>, id: Option<string>, env: Env) returns (outcome: Outcome)
      requires Valid()
      modifies Obj()
      ensures Valid()
      ensures outcome == InsertOutcome(old(State()), id, env)
      ensures Inserted(old(State()), State(), title, description, id, env)
    {
      if Remote? {
        outcome := remote.Insert(title, description, id, env);
      } else {
        outcome := local.Insert(title, description, id, env);
      }
    }

    method UpdateCompleted(id: string, isCompleted: bool, env: Env) returns (outcome: Outcome)
      requires Valid()
      modifies Obj()
      ensures Valid()
      ensures outcome == UpdateOutcome(old(State()), id, env)
      ensures State() == CompletedUpdated(old(State()), id, isCompleted, env)
    {
      if Remote? {
        outcome := remote.UpdateCompleted(id, isCompleted, env);
      } else {
        outcome := local.UpdateCompleted(id, isCompleted, env);
      }
    }

    method Delete(id: string, env: Env) returns (outcome: Outcome)
      requires Valid()
      modifies Obj()
      ensures Valid()
      ensures outcome == DeleteOutcome(old(State()), id, env)
      ensures State() == Deleted(old(State()), id, env)
    {
      if Remote? {
        outcome := remote.Delete(id, env);
      } else {
        outcome := local.Delete(id, env);
      }
    }

    function GetBy(id: string, env: Env): (r: Option<Todo>)
      reads Obj()
      ensures r == Read(State(), id, env)
    {
      if Remote? then remote.GetBy(id, env) else local.GetBy(id)
    }
  }
}
