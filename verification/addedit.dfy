/** The add/edit screen's view-model (app/.../ui/feature/addedit/AddEditViewModel.kt): the title
    and description being edited, the id of the todo being edited (none: a new one), and the
    events sent to the screen, kept in order. */
module AddEdit {
  import opened Common
  import opened Repository

  datatype AddEditEvent = TitleChanged(title: string) | DescriptionChanged(description: string) | Save

  const TitleMissing := "Coloque um título!"
  const SaveFailedPrefix := "Falha ao salvar a tarefa: "

  /** The todo to edit, from the navigation argument: none when the argument is absent or is
      the text "null" (how a null route id arrives). */
  function TargetId(savedId: Option<string>): (r: Option<string>)
    ensures r.None? <==> savedId.None? || savedId.value == "null"
    ensures r.Some? ==> r == savedId
  {
    match savedId
    case None => None
    case Some(id) => if id != "null" then Some(id) else None
  }

  /** The description kept for the typed text: none when it is blank. */
  function DescriptionFor(input: string): (r: Option<string>)
    ensures r.None? <==> IsBlank(input)
    ensures r.Some? ==> r.value == input
  {
    if IsBlank(input) then None else Some(input)
  }

  /** The event a save with a non-blank title ends with: back to the list when insert
      returned, a snackbar with the exception's message when it threw. */
  function SaveResult(outcome: Outcome): (e: UiEvent)
    ensures e == NavigateBack <==> outcome.Ok?
    ensures !outcome.Ok? ==> e == ShowSnackbar(SaveFailedPrefix + outcome.Message())
  {
    if outcome.Ok? then NavigateBack else ShowSnackbar(SaveFailedPrefix + outcome.Message())
  }

  class AddEditViewModel {
    const repository: TodoRepository
    var title: string
    var description: Option<string>
    var todoId: Option<string>
    var events: seq<UiEvent>

    ghost predicate Valid()
      reads this, repository.Obj()
    {
      repository.Valid()
    }

    /** Start empty; with a real id, remember it and copy title and description from getBy when
        it finds the todo (left empty otherwise). */
    constructor(repository: TodoRepository, savedId: Option<string>, env: Env)
      requires repository.Valid()
      ensures this.repository == repository && Valid()
      ensures todoId == TargetId(savedId) && events == []
      ensures var loaded := if todoId.Some? then Read(repository.State(), todoId.value, env) else None;
        && title == (if loaded.Some? then loaded.value.title else "")
        && description == (if loaded.Some? then loaded.value.description else None)
    {
      this.repository := repository;
      title := "";
      description := None;
      todoId := None;
      events := [];
      new;
      if savedId.Some? && savedId.value != "null" {
        todoId := savedId;
        var loaded := repository.GetBy(savedId.value, env);
        if loaded.Some? {
          title := loaded.value.title;
          description := loaded.value.description;
        }
      }
    }

    method OnEvent(event: AddEditEvent, env: Env)
      requires Valid()
      modifies this, repository.Obj()
      ensures Valid() && todoId == old(todoId)
      ensures event.TitleChanged? ==>
        title == event.title && description == old(description) && events == old(events)
        && repository.State() == old(repository.State())
      ensures event.DescriptionChanged? ==>
        description == DescriptionFor(event.description) && title == old(title) && events == old(events)
        && repository.State() == old(repository.State())
      ensures event.Save? ==> title == old(title) && description == old(description)
      ensures event.Save? && IsBlank(title) ==>
        events == old(events) + [ShowSnackbar(TitleMissing)] && repository.State() == old(repository.State())
      ensures event.Save? && !IsBlank(title) ==>
        && Inserted(old(repository.State()), repository.State(), title, description, todoId, env)
        && events == old(events) + [SaveResult(InsertOutcome(old(repository.State()), todoId, env))]
    {
      match event
      case TitleChanged(t) =>
        title := t;
      case DescriptionChanged(d) =>
        description := if IsBlank(d) then None else Some(d);
      case Save =>
        SaveTodo(env);
    }

    method SaveTodo(env: Env)
      requires Valid()
      modifies this, repository.Obj()
      ensures Valid() && todoId == old(todoId) && title == old(title) && description == old(description)
      ensures IsBlank(title) ==>
        events == old(events) + [ShowSnackbar(TitleMissing)] && repository.State() == old(repository.State())
      ensures !IsBlank(title) ==>
        && Inserted(old(repository.State()), repository.State(), title, description, todoId, env)
        && events == old(events) + [SaveResult(InsertOutcome(old(repository.State()), todoId, env))]
    {
      if IsBlank(title) {
        events := events + [ShowSnackbar(TitleMissing)];
        return;
      }
      var outcome := repository.Insert(title, description, todoId, env);
      if outcome.Ok? {
        events := events + [NavigateBack];
      } else {
        events := events + [ShowSnackbar(SaveFailedPrefix + outcome.Message())];
      }
    }
  }

  /** Over the remote repository with nobody signed in, saving a todo with a title writes
      nothing and still navigates back. */
  method SaveSignedOutStillNavigatesBack(vm: AddEditViewModel, env: Env)
    requires vm.Valid() && vm.repository.Remote? && env.session.None? && !IsBlank(vm.title)
    modifies vm, vm.repository.Obj()
    ensures vm.events == old(vm.events) + [NavigateBack]
    ensures vm.repository.State() == old(vm.repository.State())
  {
    vm.OnEvent(Save, env);
  }

  /** A blank title never reaches the repository, whichever implementation backs it. */
  method SaveBlankTitleOnlyWarns(vm: AddEditViewModel, env: Env)
    requires vm.Valid() && IsBlank(vm.title)
    modifies vm, vm.repository.Obj()
    ensures vm.events == old(vm.events) + [ShowSnackbar(TitleMissing)]
    ensures vm.repository.State() == old(vm.repository.State())
  {
    vm.OnEvent(Save, env);
  }
}
