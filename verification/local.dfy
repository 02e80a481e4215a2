/** The local repository (app/.../data/TodoRepositoryImpl.kt): the same contract over a local
    table of TodoEntity rows keyed by an auto-increment number. The table's own operations
    (insert-or-replace by key, delete by key, point read by the key's text) are modelled as
    functions on a Table value; the repository reads and rewrites that value. No operation
    looks at a session or an owner. */
module LocalRepository {
  import opened Common
  import opened Entities

  // ---------------------------------------------------------------------------------------
  // Keys as text

  predicate IsDigit(c: char) {
    '0' <= c <= '9'
  }

  predicate AllDigits(s: string) {
    forall i :: 0 <= i < |s| ==> IsDigit(s[i])
  }

  function DigitChar(d: nat): (c: char)
    requires d < 10
    ensures IsDigit(c) && c as int - '0' as int == d
  {
    ('0' as int + d) as char
  }

  /** Decimal text of a non-negative key, as Long.toString writes it. */
  function NatToString(n: nat): (s: string)
    ensures |s| >= 1 && AllDigits(s)
    decreases n
  {
    if n < 10 then [DigitChar(n)] else NatToString(n / 10) + [DigitChar(n % 10)]
  }

  /** Long.toString: a minus sign before the digits of a negative key. */
  function KeyToString(k: int): string {
    if k < 0 then "-" + NatToString(-k) else NatToString(k)
  }

  /** The value of a string of decimal digits (leading zeros allowed). */
  function DigitsValue(s: string): nat
    requires AllDigits(s)
  {
    if s == [] then 0 else DigitsValue(s[..|s| - 1]) * 10 + (s[|s| - 1] as int - '0' as int)
  }

  /** The key a textual id selects when compared with the integer key column: a non-empty run
      of decimal digits; any other text selects no row. */
  function ParseKey(s: string): (r: Option<int>)
    ensures r.Some? <==> |s| > 0 && AllDigits(s)
    ensures r.Some? ==> r.value >= 0
  {
    if |s| > 0 && AllDigits(s) then Some(DigitsValue(s)) else None
  }

  /** Reading back the text of a key gives the key. */
  lemma {:induction false} ParseNatToString(n: nat)
    ensures ParseKey(NatToString(n)) == Some(n)
    decreases n
  {
    var s := NatToString(n);
    if n < 10 {
      assert s[..|s| - 1] == [];
    } else {
      ParseNatToString(n / 10);
      assert s[..|s| - 1] == NatToString(n / 10);
      assert s[|s| - 1] == DigitChar(n % 10);
      assert DigitsValue(s) == (n / 10) * 10 + n % 10;
    }
  }

  /** Distinct keys have distinct texts, so the ids of the projected todos are distinct. */
  lemma KeyToStringInjective(a: nat, b: nat)
    requires a != b
    ensures KeyToString(a) != KeyToString(b)
  {
    ParseNatToString(a);
    ParseNatToString(b);
  }

  // ---------------------------------------------------------------------------------------
  // The table

  /** The rows by key, and the key the next key-0 insert will get (one more than the largest
      key ever assigned). */
  datatype Table = Table(rows: map<int, TodoEntity>, nextKey: int)

  /** Every row sits under its own positive key, below the next key, and has owner "" (this
      repository never sets the owner). */
  ghost predicate TableValid(t: Table) {
    && t.nextKey >= 1
    && forall k :: k in t.rows ==> 1 <= k < t.nextKey && t.rows[k].id == k && t.rows[k].userId == ""
  }

  /** dao.insert: insert-or-replace by primary key; key 0 is given the next key. The row lands
      under its key (the assigned one for key 0), no other row changes, and the counter stays
      above every key it has handed out or seen. */
  function DaoInsert(t: Table, e: TodoEntity): (r: Table)
    ensures var k := if e.id == 0 then t.nextKey else e.id;
      && k in r.rows && r.rows[k] == e.(id := k)
      && (forall j :: j != k ==> (j in r.rows <==> j in t.rows))
      && (forall j :: j != k && j in t.rows ==> r.rows[j] == t.rows[j])
      && r.nextKey >= t.nextKey && r.nextKey > k
  {
    if e.id == 0 then Table(t.rows[t.nextKey := e.(id := t.nextKey)], t.nextKey + 1)
    else Table(t.rows[e.id := e], if e.id >= t.nextKey then e.id + 1 else t.nextKey)
  }

  /** dao.delete: remove the row with the entity's key. */
  function DaoDelete(t: Table, e: TodoEntity): Table {
    Table(t.rows - {e.id}, t.nextKey)
  }

  /** dao.getBy: the row whose key the text selects. */
  function DaoGetBy(t: Table, id: string): (r: Option<TodoEntity>)
    ensures r.Some? <==> ParseKey(id).Some? && ParseKey(id).value in t.rows
    ensures r.Some? ==> r.value == t.rows[ParseKey(id).value]
  {
    match ParseKey(id)
    case Some(k) => if k in t.rows then Some(t.rows[k]) else None
    case None => None
  }

  /** The row a textual id names, if any. */
  predicate Names(t: Table, id: string) {
    ParseKey(id).Some? && ParseKey(id).value in t.rows
  }

  // ---------------------------------------------------------------------------------------
  // The repository's writes, as functions of the table

  /** insert: with the id of an existing row, that row with only title and description
      replaced; otherwise (no id, or an id naming no row) a new uncompleted row, owner "",
      under a fresh key. */
  function InsertedTable(t: Table, title: string, description: Option<string>, id: Option<string>, now: Instant): (r: Table)
    requires TableValid(t)
    ensures TableValid(r)
    ensures id.Some? && Names(t, id.value) ==>
      var k := ParseKey(id.value).value;
      r == Table(t.rows[k := t.rows[k].(title := title, description := description)], t.nextKey)
    ensures !(id.Some? && Names(t, id.value)) ==>
      && r.rows == t.rows[t.nextKey := TodoEntity(t.nextKey, title, description, false, "", now)]
      && t.nextKey !in t.rows
      && r.nextKey == t.nextKey + 1
  {
    var existing := if id.Some? then DaoGetBy(t, id.value) else None;
    var entity := match existing
      case Some(e) => e.(title := title, description := description)
      case None => TodoEntity(title := title, description := description, isCompleted := false, createdAt := now);
    DaoInsert(t, entity)
  }

  /** updateCompleted: a quiet no-op when no row is named; otherwise only that row's
      completion changes. */
  function CompletedTable(t: Table, id: string, isCompleted: bool): (r: Table)
    requires TableValid(t)
    ensures TableValid(r)
    ensures !Names(t, id) ==> r == t
    ensures Names(t, id) ==>
      var k := ParseKey(id).value;
      r == Table(t.rows[k := t.rows[k].(isCompleted := isCompleted)], t.nextKey)
  {
    match DaoGetBy(t, id)
    case None => t
    case Some(e) => DaoInsert(t, e.(isCompleted := isCompleted))
  }

  /** delete: a no-op when no row is named; otherwise exactly that row is removed. */
  function DeletedTable(t: Table, id: string): (r: Table)
    requires TableValid(t)
    ensures TableValid(r)
    ensures !Names(t, id) ==> r == t
    ensures Names(t, id) ==>
      && r.rows.Keys == t.rows.Keys - {ParseKey(id).value}
      && r.nextKey == t.nextKey
      && forall k :: k in r.rows ==> r.rows[k] == t.rows[k]
  {
    match DaoGetBy(t, id)
    case None => t
    case Some(e) => DaoDelete(t, e)
  }

  /** How insert ends. The lookup of the row being edited (made only when an id is given)
      and then the write can each throw; the exception reaches the caller, and the table is
      left as it was. */
  function InsertOutcome(id: Option<string>, env: Env): (r: Outcome)
    ensures r.Ok? <==> (id.None? || env.readFault.None?) && env.writeFault.None?
    ensures id.Some? && env.readFault.Some? ==> r == StoreError(env.readFault.value)
    ensures !r.Ok? ==> r.StoreError?
  {
    if id.Some? && env.readFault.Some? then StoreError(env.readFault.value)
    else if env.writeFault.Some? then StoreError(env.writeFault.value)
    else Ok
  }

  /** How updateCompleted and delete end: the lookup can throw; when it finds no row the call
      returns quietly without writing; otherwise the write can throw. */
  function RowWriteOutcome(t: Table, id: string, env: Env): (r: Outcome)
    ensures r.Ok? <==> env.readFault.None? && (!Names(t, id) || env.writeFault.None?)
    ensures env.readFault.Some? ==> r == StoreError(env.readFault.value)
    ensures !r.Ok? ==> r.StoreError?
  {
    if env.readFault.Some? then StoreError(env.readFault.value)
    else if !Names(t, id) then Ok
    else if env.writeFault.Some? then StoreError(env.writeFault.value)
    else Ok
  }

  // ---------------------------------------------------------------------------------------
  // The repository's reads

  /** The entity-to-Todo mapping: the key as text, the other fields copied. */
  function ToTodo(e: TodoEntity): Todo {
    Todo(KeyToString(e.id), e.title, e.description, e.isCompleted)
  }

  /** getAll's projection of one table emission: same length, same order, row by row. */
  function ToTodos(es: seq<TodoEntity>): (r: seq<Todo>)
    ensures |r| == |es|
    ensures forall i :: 0 <= i < |es| ==> r[i] == ToTodo(es[i])
  {
    if es == [] then [] else [ToTodo(es[0])] + ToTodos(es[1..])
  }

  /** es is one emission of the full-table query: each row of the table exactly once. */
  ghost predicate ListsTable(es: seq<TodoEntity>, t: Table) {
    && (forall i :: 0 <= i < |es| ==> es[i].id in t.rows && t.rows[es[i].id] == es[i])
    && (forall i, j :: 0 <= i < j < |es| ==> es[i].id != es[j].id)
    && (forall k :: k in t.rows ==> exists i :: 0 <= i < |es| && es[i].id == k)
  }

  /** getBy: the mapped row, or None exactly when no row is named. */
  function ReadById(t: Table, id: string): (r: Option<Todo>)
    ensures r.None? <==> !Names(t, id)
    ensures r.Some? ==> r.value == ToTodo(t.rows[ParseKey(id).value])
  {
    match DaoGetBy(t, id)
    case None => None
    case Some(e) => Some(ToTodo(e))
  }

  /** Every todo of a getAll emission can be looked up again by its id, and gives itself; the
      ids in one emission are distinct. */
  lemma {:induction false} EmissionIdsResolve(es: seq<TodoEntity>, t: Table)
    requires TableValid(t) && ListsTable(es, t)
    ensures forall i :: 0 <= i < |es| ==> ReadById(t, ToTodos(es)[i].id) == Some(ToTodos(es)[i])
    ensures forall i, j :: 0 <= i < j < |es| ==> ToTodos(es)[i].id != ToTodos(es)[j].id
  {
    var r := ToTodos(es);
    forall i | 0 <= i < |es|
      ensures ReadById(t, r[i].id) == Some(r[i])
    {
      ParseNatToString(es[i].id);
    }
    forall i, j | 0 <= i < j < |es|
      ensures r[i].id != r[j].id
    {
      KeyToStringInjective(es[i].id, es[j].id);
    }
  }

  /** Looking up the text of a key finds that row, if present. */
  lemma ReadByKey(t: Table, k: nat)
    ensures ReadById(t, KeyToString(k)) == if k in t.rows then Some(ToTodo(t.rows[k])) else None
  {
    ParseNatToString(k);
  }

  /** After an insert that creates a row, the new row reads back, uncompleted, under the text
      of the key it was given. */
  lemma ReadAfterInsertNew(t: Table, title: string, description: Option<string>, id: Option<string>, now: Instant)
    requires TableValid(t)
    requires !(id.Some? && Names(t, id.value))
    ensures ReadById(InsertedTable(t, title, description, id, now), KeyToString(t.nextKey))
         == Some(Todo(KeyToString(t.nextKey), title, description, false))
  {
    ReadByKey(InsertedTable(t, title, description, id, now), t.nextKey);
  }

  /** After an insert that edits a row, reading the same id gives the new title and
      description and the row's old completion: editing keeps completion here. */
  lemma ReadAfterInsertExisting(t: Table, title: string, description: Option<string>, id: string, now: Instant)
    requires TableValid(t) && Names(t, id)
    ensures var r := ReadById(InsertedTable(t, title, description, Some(id), now), id);
      r.Some? && r.value.title == title && r.value.description == description
      && r.value.isCompleted == ReadById(t, id).value.isCompleted
  {
  }

  /** After a delete, the id names no row. */
  lemma ReadAfterDelete(t: Table, id: string)
    requires TableValid(t)
    ensures ReadById(DeletedTable(t, id), id) == None
  {
  }

  // ---------------------------------------------------------------------------------------
  // The repository object

  class TodoRepositoryImpl {
    var table: Table

    ghost predicate Valid()
      reads this
    {
      TableValid(table)
    }

    /** The repository over the table the database already holds. */
    constructor(table: Table)
      requires TableValid(table)
      ensures this.table == table && Valid()
    {
      this.table := table;
    }

    method Insert(title: string, description: Option<string>, id: Option<string>, env: Env) returns (outcome: Outcome)
      requires Valid()
      modifies this
      ensures Valid()
      ensures outcome == InsertOutcome(id, env)
      ensures table == if outcome.Ok? then InsertedTable(old(table), title, description, id, env.now) else old(table)
    {
      var existing: Option<TodoEntity> := None;
      if id.Some? {
        if env.readFault.Some? {
          return StoreError(env.readFault.value);
        }
        existing := DaoGetBy(table, id.value);
      }
      var entity := match existing
        case Some(e) => e.(title := title, description := description)
        case None => TodoEntity(title := title, description := description, isCompleted := false, createdAt := env.now);
      if env.writeFault.Some? {
        return StoreError(env.writeFault.value);
      }
      table := DaoInsert(table, entity);
      outcome := Ok;
    }

    method UpdateCompleted(id: string, isCompleted: bool, env: Env) returns (outcome: Outcome)
      requires Valid()
      modifies this
      ensures Valid()
      ensures outcome == RowWriteOutcome(old(table), id, env)
      ensures table == if outcome.Ok? then CompletedTable(old(table), id, isCompleted) else old(table)
    {
      if env.readFault.Some? {
        return StoreError(env.readFault.value);
      }
      var existing := DaoGetBy(table, id);
      if existing.None? {
        return Ok;
      }
      if env.writeFault.Some? {
        return StoreError(env.writeFault.value);
      }
      table := DaoInsert(table, existing.value.(isCompleted := isCompleted));
      outcome := Ok;
    }

    method Delete(id: string, env: Env) returns (outcome: Outcome)
      requires Valid()
      modifies this
      ensures Valid()
      ensures outcome == RowWriteOutcome(old(table), id, env)
      ensures table == if outcome.Ok? then DeletedTable(old(table), id) else old(table)
    {
      if env.readFault.Some? {
        return StoreError(env.readFault.value);
      }
      var existing := DaoGetBy(table, id);
      if existing.None? {
        return Ok;
      }
      if env.writeFault.Some? {
        return StoreError(env.writeFault.value);
      }
      table := DaoDelete(table, existing.value);
      outcome := Ok;
    }

    function GetBy(id: string): Option<Todo>
      reads this
    {
      ReadById(table, id)
    }

    /** getAll for one emission es of the table query. */
    function GetAll(es: seq<TodoEntity>): seq<Todo>
      reads this
      requires ListsTable(es, table)
    {
      ToTodos(es)
    }
  }
}
