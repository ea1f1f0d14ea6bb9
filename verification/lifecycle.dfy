/**
 Properties of the reminder lifecycle across several operations: what the
 reminder-sent flag guarantees, and the scenarios in which the absence of
 job cancellation and rescheduling shows.
 */
module Lifecycle {
  import opened Wrappers
  import opened Calendar
  import opened Models
  import opened Tasks
  import opened Routes
  import opened Http

  /** Two handler runs for one expense with nothing in between send at most
      one reminder; unless the first run's notifier raised, the second run
      returns False and sends nothing. */
  lemma HandlerIdempotent(s: Store, id: ExpenseId, delivered1: bool, delivered2: bool)
    ensures var o1 := SendRenewalReminder(s, id, delivered1);
            var o2 := SendRenewalReminder(o1.store, id, delivered2);
            && |o1.sent| + |o2.sent| <= 1
            && (o1.result != Raised ==> o2.result == Returned(false) && o2.sent == [])
  {
  }

  /** A worker that runs two queued jobs for the same expense, with no request
      in between, delivers at most one reminder for it. */
  lemma FireTwiceSendsOnce(w: World, j1: Job, j2: Job, day1: Day, day2: Day, delivered1: bool, delivered2: bool)
    requires j1.expenseId == j2.expenseId
    ensures var FireRun(w1, r1) := Fire(w, j1, day1, delivered1);
            var FireRun(w2, r2) := Fire(w1, j2, day2, delivered2);
            && |w2.outbox| <= |w.outbox| + 1
            && (r1 == Some(Returned(true)) && r2.Some? ==> r2.value == Returned(false) && w2.outbox == w1.outbox)
  {
    var FireRun(w1, r1) := Fire(w, j1, day1, delivered1);
    HandlerIdempotent(w.store, j1.expenseId, delivered1, delivered2);
  }

  /** The handler keeps the store invariant: it only ever sets one flag. */
  lemma FireKeepsValid(w: World, job: Job, today: Day, delivered: bool)
    requires Valid(w.store)
    ensures Valid(Fire(w, job, today, delivered).world.store)
  {
    var o := SendRenewalReminder(w.store, job.expenseId, delivered);
    assert OnlyFlagChanged(w.store, o.store, job.expenseId);
  }

  /** A job left behind by a deleted expense does nothing when it fires: no
      reminder, no change to the store, False returned. */
  lemma DeletedExpenseJobHarmless(w: World, uid: UserId, id: ExpenseId, job: Job, today: Day, delivered: bool)
    requires job.expenseId == id
    requires DeleteExpense(w, uid, id).status == Ok
    ensures var w1 := DeleteExpense(w, uid, id).world;
            var FireRun(w2, r) := Fire(w1, job, today, delivered);
            && w2.store == w1.store
            && w2.outbox == w1.outbox
            && (r.Some? ==> r.value == Returned(false))
  {
  }

  /** Deleting a user cascades to their expenses, so none of the jobs queued
      for those expenses can send anything afterwards. */
  lemma DeletedUserJobsHarmless(w: World, uid: UserId, job: Job, today: Day, delivered: bool)
    requires job.expenseId in w.store.expenses && w.store.expenses[job.expenseId].userId == uid
    ensures var w1 := w.(store := DeleteUser(w.store, uid));
            var FireRun(w2, r) := Fire(w1, job, today, delivered);
            w2.outbox == w1.outbox && w2.store == w1.store
  {
    assert job.expenseId !in OwnedIds(DeleteUser(w.store, uid), uid);
  }

  /** A due job for an expense that passes the guards delivers one reminder to
      the owner and sets the flag; any later job for the expense delivers nothing. */
  lemma RemindOnceThenNothing(w: World, job: Job, day: Day, again: Job, laterDay: Day, delivered: bool)
    requires Due(w, job, day) && Ready(w.store, job.expenseId)
    requires again.expenseId == job.expenseId
    ensures var FireRun(w1, r1) := Fire(w, job, day, true);
            && r1 == Some(Returned(true))
            && w1.outbox == w.outbox + [Notice(w.store.users[w.store.expenses[job.expenseId].userId].email, job.expenseId)]
            && w1.store.expenses[job.expenseId].reminderSent
            && var FireRun(w2, r2) := Fire(w1, again, laterDay, delivered);
               w2.outbox == w1.outbox && (r2.Some? ==> r2.value == Returned(false))
  {
  }

  /** The end-to-end path: an expense created today renewing in ten days gets
      one job three days from now; running it delivers exactly one reminder to
      the owner and sets the flag; running any job for it again delivers nothing. */
  lemma CreateThenRemindOnce(w: World, today: Day, uid: UserId, req: CreateRequest, newId: ExpenseId,
                             again: Job, laterDay: Day, delivered: bool)
    requires newId !in w.store.expenses && uid in w.store.users
    requires req.name.Some? && req.category.Some? && req.amount.Given?
    requires req.renewalDate == Given(today + 10)
    requires again.expenseId == newId
    ensures var c := CreateExpense(w, today, uid, req, newId);
            && c.status == CreatedStatus
            && c.world.pending == w.pending + multiset{Job(newId, today + 3)}
            && var FireRun(w1, r1) := Fire(c.world, Job(newId, today + 3), today + 3, true);
               && r1 == Some(Returned(true))
               && w1.outbox == w.outbox + [Notice(w.store.users[uid].email, newId)]
               && w1.store.expenses[newId].reminderSent
               && var FireRun(w2, r2) := Fire(w1, again, laterDay, delivered);
                  w2.outbox == w1.outbox && (r2.Some? ==> r2.value == Returned(false))
  {
    var c := CreateExpense(w, today, uid, req, newId);
    var job := Job(newId, today + 3);
    CreateTenDaysOut(w, today, uid, req, newId);
    assert c.world.store.expenses[newId] == NewExpense(uid, req);
    assert Due(c.world, job, today + 3) && Ready(c.world.store, newId);
    RemindOnceThenNothing(c.world, job, today + 3, again, laterDay, delivered);
  }

  /** Creating an expense that renews in ten days answers 201, commits the row
      and queues one job three days from now. */
  lemma CreateTenDaysOut(w: World, today: Day, uid: UserId, req: CreateRequest, newId: ExpenseId)
    requires newId !in w.store.expenses && uid in w.store.users
    requires req.name.Some? && req.category.Some? && req.amount.Given?
    requires req.renewalDate == Given(today + 10)
    ensures CreateExpense(w, today, uid, req, newId).status == CreatedStatus
    ensures CreateExpense(w, today, uid, req, newId).world
            == World(w.store.(expenses := w.store.expenses[newId := NewExpense(uid, req)]),
                     w.pending + multiset{Job(newId, today + 3)},
                     w.outbox)
  {
    CreateAccepted(w, today, uid, req, newId);
    TenDaysOutQueuesOne(req, today, newId);
  }

  /** The job of an accepted request renewing in ten days is due in three. */
  lemma TenDaysOutQueuesOne(req: CreateRequest, today: Day, newId: ExpenseId)
    requires req.renewalDate == Given(today + 10)
    ensures JobsQueuedOnCreate(req, today, newId, CreatedStatus) == multiset{Job(newId, today + 3)}
  {
    AcceptedQueuesOne(req, today, newId);
  }

  /** A renewal less than a week away is created without any job. */
  lemma CreateInsideWindowSchedulesNothing(w: World, today: Day, uid: UserId, req: CreateRequest, newId: ExpenseId)
    requires newId !in w.store.expenses
    requires req.renewalDate.Given? && req.renewalDate.value <= today + LeadDays
    ensures CreateExpense(w, today, uid, req, newId).world.pending == w.pending
  {
  }

  /** Updating the renewal date neither cancels the old job nor adds one for
      the new date. The old job later fires on its original day, finds the
      flag cleared by the update, and delivers the new cycle's reminder early;
      no job is left for the new date's reminder day. */
  lemma StaleJobRemindsEarly(w: World, uid: UserId, id: ExpenseId, oldJob: Job, newDate: Day, req: UpdateRequest)
    requires uid in w.store.users && OwnedBy(w.store, id, uid)
    requires oldJob.expenseId == id && w.pending == multiset{oldJob}
    requires req.renewalDate == Given(newDate) && !req.amount.Malformed?
    requires oldJob.fireDay < newDate - LeadDays
    ensures var u := UpdateExpense(w, uid, id, req);
            && u.status == Ok
            && u.world.pending == multiset{oldJob}
            && var FireRun(w1, r) := Fire(u.world, oldJob, oldJob.fireDay, true);
               && r == Some(Returned(true))
               && |w1.outbox| == |w.outbox| + 1
               && w1.store.expenses[id].renewalDate == newDate
               && w1.store.expenses[id].renewalDate - oldJob.fireDay > LeadDays
               && w1.store.expenses[id].reminderSent
               && w1.pending == multiset{}
  {
    var u := UpdateExpense(w, uid, id, req);
    assert Ready(u.world.store, id);
  }

  /** "At most one live job per expense" does not hold: the scheduling helper
      adds a second job for an expense whose creation already queued one. */
  lemma HelperDuplicatesJob(w: World, today: Day, uid: UserId, req: CreateRequest, newId: ExpenseId)
    requires newId !in w.store.expenses && uid in w.store.users
    requires req.name.Some? && req.category.Some? && req.amount.Given? && req.renewalDate.Given?
    requires req.renewalDate.value - LeadDays > today
    ensures var c := CreateExpense(w, today, uid, req, newId);
            var h := ScheduleRenewalReminder(c.world, newId);
            h.world.pending[Job(newId, req.renewalDate.value - LeadDays)]
              == w.pending[Job(newId, req.renewalDate.value - LeadDays)] + 2
  {
    var c := CreateExpense(w, today, uid, req, newId);
    var job := Job(newId, req.renewalDate.value - LeadDays);
    CreateQueuesJob(w, today, uid, req, newId, job);
    HelperAddsOne(c.world, newId, job);
  }

  /** A create request that schedules its reminder queues one more copy of
      its job, and the row it commits carries the requested renewal date. */
  lemma CreateQueuesJob(w: World, today: Day, uid: UserId, req: CreateRequest, newId: ExpenseId, job: Job)
    requires newId !in w.store.expenses && uid in w.store.users
    requires req.name.Some? && req.category.Some? && req.amount.Given? && req.renewalDate.Given?
    requires req.renewalDate.value - LeadDays > today
    requires job == Job(newId, req.renewalDate.value - LeadDays)
    ensures CreateExpense(w, today, uid, req, newId).world.pending[job] == w.pending[job] + 1
    ensures newId in CreateExpense(w, today, uid, req, newId).world.store.expenses
    ensures CreateExpense(w, today, uid, req, newId).world.store.expenses[newId].renewalDate == req.renewalDate.value
  {
    CreateAccepted(w, today, uid, req, newId);
    AcceptedQueuesOne(req, today, newId);
  }

  /** An accepted create request whose reminder day is after today queues
      exactly that day's job. */
  lemma AcceptedQueuesOne(req: CreateRequest, today: Day, newId: ExpenseId)
    requires req.renewalDate.Given? && req.renewalDate.value - LeadDays > today
    ensures JobsQueuedOnCreate(req, today, newId, CreatedStatus)
            == multiset{Job(newId, req.renewalDate.value - LeadDays)}
  { }

  /** On any world, the helper adds one copy of the expense's job when the
      renewal is after the first week of year 1. */
  lemma HelperAddsOne(w: World, id: ExpenseId, job: Job)
    requires id in w.store.expenses && w.store.expenses[id].renewalDate > LeadDays
    requires job == Job(id, w.store.expenses[id].renewalDate - LeadDays)
    ensures ScheduleRenewalReminder(w, id).world.pending[job] == w.pending[job] + 1
  {
  }

  /** The helper has no future check: for a renewal date at most a week away it
      queues a job that is already due today. */
  lemma HelperQueuesOverdueJob(w: World, id: ExpenseId, today: Day)
    requires id in w.store.expenses
    requires LeadDays < w.store.expenses[id].renewalDate <= today + LeadDays
    ensures var h := ScheduleRenewalReminder(w, id);
            !h.overflow && Due(h.world, Job(id, w.store.expenses[id].renewalDate - LeadDays), today)
  {
  }

  /** Re-sending the current renewal date in an update clears the flag even
      though the date did not change, so a second job still queued for the
      expense reminds the owner again about the same renewal. */
  lemma SameDateUpdateRemindsTwice(w: World, uid: UserId, id: ExpenseId, job: Job, today: Day, req: UpdateRequest)
    requires uid in w.store.users && OwnedBy(w.store, id, uid)
    requires w.store.expenses[id].reminderSent
    requires req.renewalDate == Given(w.store.expenses[id].renewalDate) && !req.amount.Malformed?
    requires job.expenseId == id && Due(w, job, today)
    ensures var u := UpdateExpense(w, uid, id, req);
            && u.world.store.expenses[id].renewalDate == w.store.expenses[id].renewalDate
            && var FireRun(w1, r) := Fire(u.world, job, today, true);
               r == Some(Returned(true)) && |w1.outbox| == |w.outbox| + 1
  {
    var u := UpdateExpense(w, uid, id, req);
    assert Ready(u.world.store, id);
  }

  /** A job outlives its expense. If the database hands the deleted expense's
      id to a new expense, the old job reminds the new expense's owner. */
  lemma ReusedIdInheritsJob(w: World, today: Day, uid: UserId, id: ExpenseId, job: Job, req: CreateRequest, fireDay: Day)
    requires job.expenseId == id && job in w.pending && job.fireDay <= fireDay
    requires DeleteExpense(w, uid, id).status == Ok
    requires CreateExpense(DeleteExpense(w, uid, id).world, today, uid, req, id).status == CreatedStatus
    ensures var d := DeleteExpense(w, uid, id);
            var c := CreateExpense(d.world, today, uid, req, id);
            var FireRun(w1, r) := Fire(c.world, job, fireDay, true);
            && r == Some(Returned(true))
            && w1.outbox == w.outbox + [Notice(w.store.users[uid].email, id)]
  {
    var d := DeleteExpense(w, uid, id);
    var c := CreateExpense(d.world, today, uid, req, id);
    assert job in c.world.pending;
  }
}
