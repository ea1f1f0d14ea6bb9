/**
 The reminder task and its queue: `send_renewal_reminder_task`, the
 `schedule_renewal_reminder` helper, and the broker that holds jobs until
 their ETA. The notifier is abstract: the handler is told whether sending
 succeeded, and a successful send is recorded as a `Notice`.
 */
module Tasks {
  import opened Wrappers
  import opened Calendar
  import opened Models

  /** A queued `send_renewal_reminder_task(expense_id)` with its ETA day; it
      becomes due at the start of `fireDay`. */
  datatype Job = Job(expenseId: ExpenseId, fireDay: Day)

  /** A delivered reminder email: recipient address and the expense it is about. */
  datatype Notice = Notice(recipient: string, expenseId: ExpenseId)

  /** What a task run ends with: a return value, or an exception out of the notifier. */
  datatype TaskResult = Returned(value: bool) | Raised

  /** One run of the handler: the store afterwards, what it sent, how it ended. */
  datatype HandlerRun = HandlerRun(store: Store, sent: seq<Notice>, result: TaskResult)

  /** Everything the reminder lifecycle touches: the database, the broker's
      pending jobs, and every reminder delivered so far. */
  datatype World = World(store: Store, pending: multiset<Job>, outbox: seq<Notice>)

  /** Reminders are sent this many days before the renewal date. */
  const LeadDays := 7

  /** The expense exists, has not been reminded yet, and its owner exists:
      the handler passes all three guards. */
  predicate Ready(s: Store, id: ExpenseId) {
    id in s.expenses && !s.expenses[id].reminderSent && s.expenses[id].userId in s.users
  }

  /** s2 differs from s1 at most in the `reminderSent` flag of expense `id`. */
  ghost predicate OnlyFlagChanged(s1: Store, s2: Store, id: ExpenseId) {
    && s2.users == s1.users
    && s2.expenses.Keys == s1.expenses.Keys
    && (forall other :: other in s1.expenses && other != id ==> s2.expenses[other] == s1.expenses[other])
    && (id in s1.expenses ==> s2.expenses[id] == s1.expenses[id].(reminderSent := s2.expenses[id].reminderSent))
  }

  /** `send_renewal_reminder_task`: three guards, then one notification to the
      owner, then the flag is set. `delivered` says whether `send_email` returned. */
  function SendRenewalReminder(s: Store, id: ExpenseId, delivered: bool): (o: HandlerRun)
    // absent expense: nothing sent, store untouched
    ensures id !in s.expenses ==> o == HandlerRun(s, [], Returned(false))
    // already reminded: nothing sent, store untouched
    ensures id in s.expenses && s.expenses[id].reminderSent ==> o == HandlerRun(s, [], Returned(false))
    // owner missing: nothing sent, flag stays false
    ensures id in s.expenses && s.expenses[id].userId !in s.users ==>
              o.result == Returned(false) && o.sent == [] && o.store == s
    // success: exactly one notice to the owner's address, flag set, True returned
    ensures o.result == Returned(true) <==> Ready(s, id) && delivered
    ensures o.result == Returned(true) ==>
              && o.sent == [Notice(s.users[s.expenses[id].userId].email, id)]
              && id in o.store.expenses && o.store.expenses[id].reminderSent
    // notifier failure: the exception escapes before the flag is written
    ensures o.result == Raised <==> Ready(s, id) && !delivered
    ensures o.result == Raised ==> o.sent == [] && o.store == s
    // a notice is sent exactly when the flag goes from false to true
    ensures o.sent != [] <==> o.result == Returned(true)
    ensures OnlyFlagChanged(s, o.store, id)
  {
    if id !in s.expenses || s.expenses[id].reminderSent then HandlerRun(s, [], Returned(false))
    else
      var e := s.expenses[id];
      if e.userId !in s.users then HandlerRun(s, [], Returned(false))
      else if !delivered then HandlerRun(s, [], Raised)
      else
        var notice := Notice(s.users[e.userId].email, id);
        HandlerRun(s.(expenses := s.expenses[id := e.(reminderSent := true)]), [notice], Returned(true))
  }

  /** `apply_async(args=[id], eta=day)`: the broker now holds one more job. */
  function Enqueue(w: World, job: Job): (r: World)
    ensures r.pending[job] == w.pending[job] + 1
    ensures forall j :: j != job ==> r.pending[j] == w.pending[j]
    ensures r.store == w.store && r.outbox == w.outbox
  {
    w.(pending := w.pending + multiset{job})
  }

  /** What `schedule_renewal_reminder` did: the new world, and whether
      `renewal_date - timedelta(days=7)` raised OverflowError. */
  datatype ScheduleRun = ScheduleRun(world: World, overflow: bool)

  /** `schedule_renewal_reminder`: enqueues one job at `renewal_date - 7` for an
      existing expense. Unlike expense creation it never compares that day
      with today, so a day already past is enqueued as well. */
  function ScheduleRenewalReminder(w: World, id: ExpenseId): (r: ScheduleRun)
    ensures id !in w.store.expenses ==> r == ScheduleRun(w, false)
    ensures r.world.store == w.store && r.world.outbox == w.outbox
    ensures r.overflow <==> id in w.store.expenses && w.store.expenses[id].renewalDate <= LeadDays
    ensures r.overflow ==> r.world == w
    ensures id in w.store.expenses && !r.overflow ==>
              && w.store.expenses[id].renewalDate - LeadDays >= 1
              && r.world.pending == w.pending + multiset{Job(id, w.store.expenses[id].renewalDate - LeadDays)}
  {
    if id !in w.store.expenses then ScheduleRun(w, false)
    else
      match AddDays(w.store.expenses[id].renewalDate, -LeadDays)
      case None => ScheduleRun(w, true)
      case Some(day) => ScheduleRun(Enqueue(w, Job(id, day)), false)
  }

  /** A job the worker may run on `today`: still queued and its ETA reached. */
  predicate Due(w: World, job: Job, today: Day) {
    job in w.pending && job.fireDay <= today
  }

  /** What one worker step did: the new world, and the handler's outcome if
      the job was run. */
  datatype FireRun = FireRun(world: World, result: Option<TaskResult>)

  /** The worker takes one due job off the queue and runs the handler. A job
      that is not due is not run (None). The broker does not retry a job
      whose handler raised. */
  function Fire(w: World, job: Job, today: Day, delivered: bool): (r: FireRun)
    ensures !Due(w, job, today) ==> r == FireRun(w, None)
    ensures Due(w, job, today) ==>
              && r.result.Some?
              && r.world.pending == w.pending - multiset{job}
              && r.world.pending[job] == w.pending[job] - 1
              && var o := SendRenewalReminder(w.store, job.expenseId, delivered);
                 r.world.store == o.store && r.world.outbox == w.outbox + o.sent && r.result.value == o.result
  {
    if !Due(w, job, today) then FireRun(w, None)
    else
      var o := SendRenewalReminder(w.store, job.expenseId, delivered);
      FireRun(World(o.store, w.pending - multiset{job}, w.outbox + o.sent), Some(o.result))
  }
}
