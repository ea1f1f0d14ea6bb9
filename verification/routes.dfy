/**
 The reminder-related parts of the HTTP routes: registration, and creating,
 reading, updating and deleting an expense. Each route takes the world and
 the already-decoded request and returns the new world and the status code.
 The caller `uid` is the id the login session names; `login_required`
 answers 401 when no such user exists.
 */
module Routes {
  import opened Wrappers
  import opened Calendar
  import opened Models
  import opened Tasks
  import opened Http

  /** A route's answer: the world afterwards, the status code, and the JSON
      body's record where the route returns one. */
  datatype Response<T> = Response(world: World, status: int, body: Option<T>)

  // ---------------------------------------------------------------- register

  /** The registration body. A field is usable when present and non-empty
      (`data.get(k)` is truthy). */
  datatype RegisterRequest = RegisterRequest(
    email: Option<string>,
    username: Option<string>,
    password: Option<string>,
    companyName: Option<string>)

  predicate Filled(f: Option<string>) {
    f.Some? && f.value != ""
  }

  predicate EmailTaken(s: Store, email: string) {
    exists u :: u in s.users && s.users[u].email == email
  }

  predicate UsernameTaken(s: Store, username: string) {
    exists u :: u in s.users && s.users[u].username == username
  }

  /** `register`: 400 on a missing field, 409 on a taken email or username,
      otherwise one new user. `newId` is the primary key the database assigns. */
  function Register(w: World, req: RegisterRequest, newId: UserId): (r: Response<User>)
    requires newId !in w.store.users
    ensures r.status in {CreatedStatus, BadRequest, Conflict}
    ensures r.status == BadRequest <==> !(Filled(req.email) && Filled(req.username) && Filled(req.password))
    ensures r.status == Conflict <==>
              && Filled(req.email) && Filled(req.username) && Filled(req.password)
              && (EmailTaken(w.store, req.email.value) || UsernameTaken(w.store, req.username.value))
    ensures r.status != CreatedStatus ==> r.world == w
    ensures r.status == CreatedStatus ==>
              && r.world.store.expenses == w.store.expenses
              && r.world.store.users == w.store.users[newId := User(req.email.value, req.username.value, req.companyName.GetOr(""))]
              && r.body == Some(r.world.store.users[newId])
    ensures r.world.pending == w.pending && r.world.outbox == w.outbox
    ensures Valid(w.store) ==> Valid(r.world.store)
  {
    if !(Filled(req.email) && Filled(req.username) && Filled(req.password)) then Response(w, BadRequest, None)
    else if EmailTaken(w.store, req.email.value) then Response(w, Conflict, None)
    else if UsernameTaken(w.store, req.username.value) then Response(w, Conflict, None)
    else
      var user := User(req.email.value, req.username.value, req.companyName.GetOr(""));
      Response(w.(store := w.store.(users := w.store.users[newId := user])), CreatedStatus, Some(user))
  }

  // ---------------------------------------------------------- create expense

  /** The expense body. `amount` is Malformed when `float()` rejects it and
      `renewalDate` is Malformed when `strptime(..., '%Y-%m-%d')` rejects it. */
  datatype CreateRequest = CreateRequest(
    name: Option<string>,
    category: Option<string>,
    amount: Field<real>,
    renewalDate: Field<Day>,
    description: Option<string>)

  predicate HasRequiredFields(req: CreateRequest) {
    req.name.Some? && req.category.Some? && req.amount.Present() && req.renewalDate.Present()
  }

  /** The expense row a well-formed create request inserts. */
  function NewExpense(uid: UserId, req: CreateRequest): (e: Expense)
    requires req.name.Some? && req.category.Some? && req.amount.Given? && req.renewalDate.Given?
    ensures e.userId == uid && e.renewalDate == req.renewalDate.value && !e.reminderSent
    ensures e.name == req.name.value && e.category == req.category.value && e.amount == req.amount.value
    ensures e.description == req.description.GetOr("")
  {
    Expense(uid, req.name.value, req.category.value, req.amount.value, req.renewalDate.value,
            req.description.GetOr(""), false)
  }

  /** Creation enqueues a reminder exactly when the request succeeds and the
      reminder day, seven days before renewal, is strictly after today. */
  predicate ReminderScheduledOnCreate(req: CreateRequest, today: Day, status: int) {
    status == CreatedStatus && req.renewalDate.Given? && req.renewalDate.value - LeadDays > today
  }

  /** The jobs a create request with outcome `status` queues: one, due at the
      start of the day seven days before renewal, when that day is after today. */
  function JobsQueuedOnCreate(req: CreateRequest, today: Day, newId: ExpenseId, status: int): (jobs: multiset<Job>)
    ensures |jobs| <= 1
    ensures |jobs| == 1 <==> ReminderScheduledOnCreate(req, today, status)
    ensures forall job :: job in jobs ==> job.expenseId == newId && job.fireDay == req.renewalDate.value - LeadDays > today
  {
    if ReminderScheduledOnCreate(req, today, status) then multiset{Job(newId, req.renewalDate.value - LeadDays)}
    else multiset{}
  }

  /** `create_expense`. The row is committed before the reminder day is
      computed, so a renewal date in the first week of year 1 leaves the row in
      place and answers 500 (OverflowError). */
  function CreateExpense(w: World, today: Day, uid: UserId, req: CreateRequest, newId: ExpenseId): (r: Response<ExpenseView>)
    requires newId !in w.store.expenses
    ensures r.status in {CreatedStatus, BadRequest, Unauthorized, ServerError}
    ensures r.status == Unauthorized <==> uid !in w.store.users
    ensures r.status == BadRequest <==>
              uid in w.store.users && (!HasRequiredFields(req) || req.renewalDate.Malformed?)
    // a rejected request creates neither an expense nor a job
    ensures r.status in {BadRequest, Unauthorized} ==> r.world == w
    ensures r.status == CreatedStatus <==>
              && uid in w.store.users && HasRequiredFields(req)
              && req.amount.Given? && req.renewalDate.Given? && req.renewalDate.value > LeadDays
    // the new row belongs to the caller and has not been reminded
    ensures r.status == CreatedStatus ==>
              && OwnedBy(r.world.store, newId, uid)
              && !r.world.store.expenses[newId].reminderSent
              && r.world.store.expenses[newId].renewalDate == req.renewalDate.value
              && r.body == Some(ToDict(newId, r.world.store.expenses[newId]))
    // exactly one job, at renewal - 7, iff that day is strictly in the future
    ensures r.world.pending == w.pending + JobsQueuedOnCreate(req, today, newId, r.status)
    ensures r.world.outbox == w.outbox
  {
    if uid !in w.store.users then Response(w, Unauthorized, None)
    else if !HasRequiredFields(req) || req.renewalDate.Malformed? then Response(w, BadRequest, None)
    else if req.amount.Malformed? then Response(w, ServerError, None)
    else InsertAndSchedule(w, today, uid, req, newId)
  }

  /** The part of `create_expense` after validation: commit the row, then
      compute the reminder day and queue a job if that day is still ahead. */
  function InsertAndSchedule(w: World, today: Day, uid: UserId, req: CreateRequest, newId: ExpenseId): (r: Response<ExpenseView>)
    requires newId !in w.store.expenses && uid in w.store.users
    requires req.name.Some? && req.category.Some? && req.amount.Given? && req.renewalDate.Given?
    ensures r.world.store == w.store.(expenses := w.store.expenses[newId := NewExpense(uid, req)])
    ensures r.status in {CreatedStatus, ServerError}
    ensures r.status == CreatedStatus <==> req.renewalDate.value > LeadDays
    ensures r.status == CreatedStatus ==> r.body == Some(ToDict(newId, NewExpense(uid, req)))
    ensures req.renewalDate.value - LeadDays > today ==>
              r.world.pending == w.pending + multiset{Job(newId, req.renewalDate.value - LeadDays)}
    ensures req.renewalDate.value - LeadDays <= today ==> r.world.pending == w.pending
    ensures r.world.outbox == w.outbox
    ensures Valid(w.store) ==> Valid(r.world.store)
  {
    var e := NewExpense(uid, req);
    var store := w.store.(expenses := w.store.expenses[newId := e]);
    InsertKeepsValid(w.store, newId, e);
    if AddDays(req.renewalDate.value, -LeadDays).None? then
      Response(World(store, w.pending, w.outbox), ServerError, None)
    else if req.renewalDate.value - LeadDays > today then
      Response(Enqueue(World(store, w.pending, w.outbox), Job(newId, req.renewalDate.value - LeadDays)), CreatedStatus, Some(ToDict(newId, e)))
    else
      Response(World(store, w.pending, w.outbox), CreatedStatus, Some(ToDict(newId, e)))
  }

  /** The two 500 answers of `create_expense`: `float(amount)` raising writes
      nothing; the reminder day overflowing leaves the committed row and queues
      no job. */
  lemma CreateServerError(w: World, today: Day, uid: UserId, req: CreateRequest, newId: ExpenseId)
    requires newId !in w.store.expenses
    ensures CreateExpense(w, today, uid, req, newId).status == ServerError <==>
              && uid in w.store.users && HasRequiredFields(req) && !req.renewalDate.Malformed?
              && (req.amount.Malformed? || (req.amount.Given? && req.renewalDate.Given? && req.renewalDate.value <= LeadDays))
    ensures var r := CreateExpense(w, today, uid, req, newId);
            r.status == ServerError && req.amount.Malformed? ==> r.world == w
    ensures var r := CreateExpense(w, today, uid, req, newId);
            r.status == ServerError && req.amount.Given? ==>
              && req.name.Some? && req.category.Some? && req.renewalDate.Given?
              && r.world == World(w.store.(expenses := w.store.expenses[newId := NewExpense(uid, req)]), w.pending, w.outbox)
  {
  }

  /** An accepted create request commits exactly the new row, queues exactly
      the jobs `JobsQueuedOnCreate` names, and sends nothing. */
  lemma CreateAccepted(w: World, today: Day, uid: UserId, req: CreateRequest, newId: ExpenseId)
    requires newId !in w.store.expenses && uid in w.store.users
    requires req.name.Some? && req.category.Some? && req.amount.Given? && req.renewalDate.Given?
    requires req.renewalDate.value > LeadDays
    ensures CreateExpense(w, today, uid, req, newId).status == CreatedStatus
    ensures CreateExpense(w, today, uid, req, newId).world
            == World(w.store.(expenses := w.store.expenses[newId := NewExpense(uid, req)]),
                     w.pending + JobsQueuedOnCreate(req, today, newId, CreatedStatus),
                     w.outbox)
  {
  }

  /** Creating an expense keeps the store constraints: the new row references
      the caller, an existing user. */
  lemma CreateKeepsValid(w: World, today: Day, uid: UserId, req: CreateRequest, newId: ExpenseId)
    requires newId !in w.store.expenses && Valid(w.store)
    ensures Valid(CreateExpense(w, today, uid, req, newId).world.store)
  {
  }

  /** Adding an expense owned by an existing user keeps the store constraints. */
  lemma InsertKeepsValid(s: Store, id: ExpenseId, e: Expense)
    requires e.userId in s.users
    ensures Valid(s) ==> Valid(s.(expenses := s.expenses[id := e]))
  {
  }

  // ------------------------------------------------------------- get expense

  /** `get_expense`: the caller's own expense, or 404; never changes anything. */
  function GetExpense(w: World, uid: UserId, id: ExpenseId): (r: Response<ExpenseView>)
    ensures r.world == w
    ensures r.status in {Ok, Unauthorized, NotFound}
    ensures r.status == Ok <==> uid in w.store.users && OwnedBy(w.store, id, uid)
    ensures r.status == NotFound <==> uid in w.store.users && !OwnedBy(w.store, id, uid)
    ensures r.status == Ok ==> r.body == Some(ToDict(id, w.store.expenses[id]))
  {
    if uid !in w.store.users then Response(w, Unauthorized, None)
    else if !OwnedBy(w.store, id, uid) then Response(w, NotFound, None)
    else Response(w, Ok, Some(ToDict(id, w.store.expenses[id])))
  }

  // ---------------------------------------------------------- update expense

  /** The update body: every key is optional. */
  datatype UpdateRequest = UpdateRequest(
    name: Option<string>,
    category: Option<string>,
    amount: Field<real>,
    description: Option<string>,
    renewalDate: Field<Day>)

  /** `update_expense`. Omitted keys keep their old values; a `renewal_date`
      key replaces the date and clears `reminder_sent`. A bad amount (500) or
      a bad date (400) returns before the commit, so nothing changes. No job is
      enqueued or cancelled. */
  function UpdateExpense(w: World, uid: UserId, id: ExpenseId, req: UpdateRequest): (r: Response<ExpenseView>)
    ensures r.status in {Ok, BadRequest, Unauthorized, NotFound, ServerError}
    ensures r.status == Unauthorized <==> uid !in w.store.users
    ensures r.status == NotFound <==> uid in w.store.users && !OwnedBy(w.store, id, uid)
    ensures r.status == Ok <==>
              uid in w.store.users && OwnedBy(w.store, id, uid) && !req.amount.Malformed? && !req.renewalDate.Malformed?
    // `float(amount)` runs before `strptime(renewal_date)`
    ensures r.status == ServerError <==> uid in w.store.users && OwnedBy(w.store, id, uid) && req.amount.Malformed?
    ensures r.status == BadRequest <==>
              uid in w.store.users && OwnedBy(w.store, id, uid) && !req.amount.Malformed? && req.renewalDate.Malformed?
    ensures r.status != Ok ==> r.world == w
    ensures r.world.pending == w.pending && r.world.outbox == w.outbox
    ensures r.world.store.users == w.store.users
    ensures r.world.store.expenses.Keys == w.store.expenses.Keys
    ensures forall other :: other in w.store.expenses && other != id ==>
              r.world.store.expenses[other] == w.store.expenses[other]
    ensures r.status == Ok ==>
              var before := w.store.expenses[id];
              var after := r.world.store.expenses[id];
              && after.userId == before.userId
              && after.name == req.name.GetOr(before.name)
              && after.category == req.category.GetOr(before.category)
              && after.amount == req.amount.GetOr(before.amount)
              && after.description == req.description.GetOr(before.description)
              && after.renewalDate == req.renewalDate.GetOr(before.renewalDate)
              && (req.renewalDate.Given? ==> !after.reminderSent)
              && (req.renewalDate.Absent? ==> after.reminderSent == before.reminderSent)
              && r.body == Some(ToDict(id, after))
  {
    if uid !in w.store.users then Response(w, Unauthorized, None)
    else if !OwnedBy(w.store, id, uid) then Response(w, NotFound, None)
    else if req.amount.Malformed? then Response(w, ServerError, None)
    else if req.renewalDate.Malformed? then Response(w, BadRequest, None)
    else
      var e := Revise(w.store.expenses[id], req);
      Response(w.(store := w.store.(expenses := w.store.expenses[id := e])), Ok, Some(ToDict(id, e)))
  }

  /** An update keeps the row's owner, so it keeps the store constraints. */
  lemma UpdateKeepsValid(w: World, uid: UserId, id: ExpenseId, req: UpdateRequest)
    requires Valid(w.store)
    ensures Valid(UpdateExpense(w, uid, id, req).world.store)
  {
    var r := UpdateExpense(w, uid, id, req);
    if r.status == Ok {
      InsertKeepsValid(w.store, id, r.world.store.expenses[id]);
    }
  }

  /** The row after a well-formed update: each key given replaces its field,
      and a new renewal date re-arms the reminder. */
  function Revise(before: Expense, req: UpdateRequest): (after: Expense)
    requires !req.amount.Malformed? && !req.renewalDate.Malformed?
    ensures after.userId == before.userId
    ensures after.name == req.name.GetOr(before.name)
    ensures after.category == req.category.GetOr(before.category)
    ensures after.amount == req.amount.GetOr(before.amount)
    ensures after.description == req.description.GetOr(before.description)
    ensures after.renewalDate == req.renewalDate.GetOr(before.renewalDate)
    ensures req.renewalDate.Given? ==> !after.reminderSent
    ensures req.renewalDate.Absent? ==> after.reminderSent == before.reminderSent
  {
    var e := before.(name := req.name.GetOr(before.name),
                     category := req.category.GetOr(before.category),
                     amount := req.amount.GetOr(before.amount),
                     description := req.description.GetOr(before.description));
    if req.renewalDate.Given? then e.(renewalDate := req.renewalDate.value, reminderSent := false) else e
  }

  // ---------------------------------------------------------- delete expense

  /** `delete_expense`: removes the caller's own expense or answers 404. Queued
      jobs for it stay queued. */
  function DeleteExpense(w: World, uid: UserId, id: ExpenseId): (r: Response<ExpenseView>)
    ensures r.status in {Ok, Unauthorized, NotFound}
    ensures r.status == Ok <==> uid in w.store.users && OwnedBy(w.store, id, uid)
    ensures r.status == NotFound <==> uid in w.store.users && !OwnedBy(w.store, id, uid)
    ensures r.status != Ok ==> r.world == w
    ensures r.status == Ok ==>
              && id !in r.world.store.expenses
              && r.world.store.expenses.Keys == w.store.expenses.Keys - {id}
              && (forall other :: other in r.world.store.expenses ==> r.world.store.expenses[other] == w.store.expenses[other])
    ensures r.world.store.users == w.store.users
    ensures r.world.pending == w.pending && r.world.outbox == w.outbox
    ensures r.body == None
    ensures Valid(w.store) ==> Valid(r.world.store)
  {
    if uid !in w.store.users then Response(w, Unauthorized, None)
    else if !OwnedBy(w.store, id, uid) then Response(w, NotFound, None)
    else Response(w.(store := w.store.(expenses := w.store.expenses - {id})), Ok, None)
  }
}
