/** The list screen's view-model (app/.../ui/feature/list/ListViewModel.kt): it forwards the
    user's intents to the repository, turns a thrown exception into a snackbar, and asks for
    navigation to the add/edit screen. The events sent to the screen are kept in order. */
module TodoList {
  import opened Common
  import opened Repository
  import RemoteRepository
  import Entities

  datatype ListEvent = Delete(id: string) | CompleteChanged(id: string, isCompleted: bool) | AddEdit(todoId: Option<string>)

  const DeleteFailedPrefix := "Falha ao apagar tarefa: "
  const UpdateFailedPrefix := "Falha ao atualizar tarefa: "

  /** What a repository call that the view-model catches sends to the screen: nothing when it
      returned, one snackbar with the prefix and the exception's message when it threw. */
  function FailureEvents(prefix: string, outcome: Outcome): (es: seq<UiEvent>)
    ensures es == [] <==> outcome.Ok?
    ensures !outcome.Ok? ==> es == [ShowSnackbar(prefix + outcome.Message())]
  {
    if outcome.Ok? then [] else [ShowSnackbar(prefix + outcome.Message())]
  }

  class ListViewModel {
    const repository: TodoRepository
    /** The latest list shown; empty until the repository's first emission. */
    var todos: seq<Todo>
    var events: seq<UiEvent>

    ghost predicate Valid()
      reads this, repository.Obj()
    {
      repository.Valid()
    }

    constructor(repository: TodoRepository)
      requires repository.Valid()
      ensures this.repository == repository && Valid()
      ensures todos == [] && events == []
    {
      this.repository := repository;
      todos := [];
      events := [];
    }

    method OnEvent(event: ListEvent, env: Env)
      requires Valid()
      modifies this, repository.Obj()
      ensures Valid() && todos == old(todos)
      ensures event.Delete? ==>
        && repository.State() == Deleted(old(repository.State()), event.id, env)
        && events == old(events) + FailureEvents(DeleteFailedPrefix, DeleteOutcome(old(repository.State()), event.id, env))
      ensures event.CompleteChanged? ==>
        && repository.State() == CompletedUpdated(old(repository.State()), event.id, event.isCompleted, env)
        && events == old(events) + FailureEvents(UpdateFailedPrefix, UpdateOutcome(old(repository.State()), event.id, env))
      ensures event.AddEdit? ==>
        && repository.State() == old(repository.State())
        && events == old(events) + [Navigate(AddEditRoute(event.todoId))]
    {
      match event
      case Delete(id) =>
        DeleteTodo(id, env);
      case CompleteChanged(id, isCompleted) =>
        CompleteChangedTodo(id, isCompleted, env);
      case AddEdit(id) =>
        events := events + [Navigate(AddEditRoute(id))];
    }

    method DeleteTodo(id: string, env: Env)
      requires Valid()
      modifies this, repository.Obj()
      ensures Valid() && todos == old(todos)
      ensures repository.State() == Deleted(old(repository.State()), id, env)
      ensures events == old(events) + FailureEvents(DeleteFailedPrefix, DeleteOutcome(old(repository.State()), id, env))
    {
      var outcome := repository.Delete(id, env);
      if !outcome.Ok? {
        events := events + [ShowSnackbar(DeleteFailedPrefix + outcome.Message())];
      }
    }

    method CompleteChangedTodo(id: string, isCompleted: bool, env: Env)
      requires Valid()
      modifies this, repository.Obj()
      ensures Valid() && todos == old(todos)
      ensures repository.State() == CompletedUpdated(old(repository.State()), id, isCompleted, env)
      ensures events == old(events) + FailureEvents(UpdateFailedPrefix, UpdateOutcome(old(repository.State()), id, env))
    {
      var outcome := repository.UpdateCompleted(id, isCompleted, env);
      if !outcome.Ok? {
        events := events + [ShowSnackbar(UpdateFailedPrefix + outcome.Message())];
      }
    }
  }

  /** Over the remote repository, unchecking the signed-in user's todo whose document still
      carries the legacy "completed": true shows no error and has no visible effect: the next
      emission still shows it completed. */
  method UncheckLegacyCompletedHasNoVisibleEffect(vm: ListViewModel, id: string, env: Env)
    requires vm.Valid() && vm.repository.Remote?
    requires env.session.Some? && env.readFault.None? && env.writeFault.None?
    requires id in vm.repository.remote.todos
    requires var f := vm.repository.remote.todos[id];
      Entities.LegacyCompletedKey in f && f[Entities.LegacyCompletedKey] == Entities.BooleanValue(true)
    requires id in vm.repository.remote.GetAll(env.session, RemoteRepository.Delivered)
    modifies vm, vm.repository.Obj()
    ensures vm.events == old(vm.events)
    ensures id in vm.repository.remote.GetAll(env.session, RemoteRepository.Delivered)
    ensures vm.repository.remote.GetAll(env.session, RemoteRepository.Delivered)[id].isCompleted
  {
    ghost var before := vm.repository.remote.todos;
    RemoteRepository.SnapshotOwnedBySession(env.session, before, RemoteRepository.Delivered, id);
    RemoteRepository.ReadAfterUpdateCompleted(before, id, false, env);
    vm.OnEvent(CompleteChanged(id, false), env);
    ghost var after := vm.repository.remote.todos;
    assert after == RemoteRepository.CompletedUpdated(before, id, false, env);
    assert RemoteRepository.StoredOwner(after[id], env.session.value);
  }
}
