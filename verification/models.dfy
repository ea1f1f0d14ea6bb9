/**
 The two persisted records, `User` and `Expense`, and the store holding them.
 Password hashes and the created/updated timestamps are not modelled.
 */
module Models {
  import opened Wrappers
  import opened Calendar
  import opened IsoDate

  type UserId = nat
  type ExpenseId = nat

  datatype User = User(email: string, username: string, companyName: string)

  /** An expense row. `renewalDate` and `userId` are non-nullable columns, so
      they are plain fields; `reminderSent` defaults to false on insert. */
  datatype Expense = Expense(
    userId: UserId,
    name: string,
    category: string,
    amount: real,
    renewalDate: Day,
    description: string,
    reminderSent: bool)

  /** The `users` and `expenses` tables, keyed by primary key. */
  datatype Store = Store(users: map<UserId, User>, expenses: map<ExpenseId, Expense>)

  /** The database constraints: every expense references an existing user, and
      email and username are each unique across users. */
  ghost predicate Valid(s: Store) {
    && (forall id :: id in s.expenses ==> s.expenses[id].userId in s.users)
    && (forall a, b :: a in s.users && b in s.users && a != b ==>
          s.users[a].email != s.users[b].email && s.users[a].username != s.users[b].username)
  }

  /** The row `filter_by(id=id, user_id=uid).first()` finds. */
  predicate OwnedBy(s: Store, id: ExpenseId, uid: UserId) {
    id in s.expenses && s.expenses[id].userId == uid
  }

  function OwnedIds(s: Store, uid: UserId): set<ExpenseId> {
    set id | id in s.expenses && OwnedBy(s, id, uid)
  }

  /** `Expense.to_dict()` without `created_at`. */
  datatype ExpenseView = ExpenseView(
    id: ExpenseId,
    name: string,
    category: string,
    amount: real,
    renewalDate: string,
    description: string,
    reminderSent: bool)

  /** The JSON view of an expense: the renewal date travels as ISO text that
      reads back as the same date, and the current reminder flag is reported. */
  function ToDict(id: ExpenseId, e: Expense): (v: ExpenseView)
    ensures IsoShaped(v.renewalDate)
    ensures ParseIso(v.renewalDate) == Some(e.renewalDate)
    ensures v.reminderSent == e.reminderSent
    ensures v.id == id && v.name == e.name && v.category == e.category
    ensures v.amount == e.amount && v.description == e.description
  {
    FormatThenParse(e.renewalDate);
    ExpenseView(id, e.name, e.category, e.amount, FormatIso(e.renewalDate), e.description, e.reminderSent)
  }

  /** Deleting a user through the ORM: the `delete-orphan` cascade removes all
      of that user's expenses with it. */
  function DeleteUser(s: Store, uid: UserId): (r: Store)
    ensures uid !in r.users && r.users.Keys == s.users.Keys - {uid}
    ensures forall u :: u in r.users ==> r.users[u] == s.users[u]
    ensures OwnedIds(r, uid) == {}
    ensures r.expenses.Keys == s.expenses.Keys - OwnedIds(s, uid)
    ensures forall id :: id in r.expenses ==> r.expenses[id] == s.expenses[id]
    ensures Valid(s) ==> Valid(r)
  {
    Store(
      map u | u in s.users && u != uid :: s.users[u],
      map id | id in s.expenses && s.expenses[id].userId != uid :: s.expenses[id])
  }
}
