# Spend manager: the renewal-reminder lifecycle

The spend manager stores each user's recurring expenses. Seven days before an
expense renews, it emails the owner a reminder. This project is a Dafny model
of that lifecycle as the Python code implements it. It covers:

- the records and their constraints;
- the routes that create, update and delete expenses and register users;
- the Celery task that sends the reminder and the helper that schedules it;
- the broker that holds jobs until their ETA;
- the date and count parts of the two dashboard routes.

The model is functional. A `World` holds three things:

- the `Store`, two finite maps from primary key to row;
- the broker's pending jobs, a multiset of `(expense id, ETA day)`;
- the outbox, the list of every reminder delivered so far.

The routes that write (register, create, update, delete), the task, the
scheduling helper and the worker step are pure transitions on a `World`. The
two dashboard routes only read. They are methods over the `Store` that return
a response and leave the order of the expense listing open.

Dates are Python `date` ordinals (`Calendar.Day`). Ordinal 1 is 0001-01-01 and
3652059 is 9999-12-31. A `timedelta` step that leaves this range raises
OverflowError in Python; `Calendar.AddDays` models that as `None`.

`IsoDate` models the JSON text of a date. `FormatIso` is `date.isoformat()`.
`ParseIso` reads the canonical `YYYY-MM-DD` strings. The two are proved
inverse in both directions.

The docstring of `schedule_renewal_reminder` (app/tasks.py:22-25) says the
helper is called whenever an expense is created or updated. The routes do
not keep that promise, and nothing else keeps a reminder in step with its
expense. The model follows the code:

- Update and delete never cancel or reschedule a queued job.
- Update never queues a job for the new date.
- The task checks only `reminder_sent`, never whether the job still matches the renewal date.
- `schedule_renewal_reminder` has no "fire day is in the future" check.
- No route calls `schedule_renewal_reminder`.

So "at most one live job per expense" is not an invariant of this code. Module
`Lifecycle` proves what the code does guarantee:

- the flag makes the task idempotent;
- deleted expenses and deleted users are harmless;
- the create-then-remind path sends exactly one reminder.

It also proves the gaps as scenarios:

- a job left from before a date change sends the new cycle's reminder early;
- the helper duplicates a job and queues overdue ones;
- re-submitting the same renewal date re-arms the flag;
- a reused id inherits the old expense's job.

Nothing from the outside world is modelled directly:

- The current day (`datetime.utcnow().date()`) is a `today` parameter.
- Whether `send_email` succeeds is a `delivered` parameter.
- The primary key the database assigns to a new row is a `newId` parameter, required to be unused.
- `float()` and `strptime` conversions of request fields arrive already decided, as `Field.Given`, `Field.Malformed` or `Field.Absent`.
- The logged-in user is `uid`; `login_required` answers 401 when no such user exists.

## Model

| member | source | states |
|---|---|---|
| Calendar.AddDays | app/routes.py:104 | stepping a date by `timedelta(days=n)` succeeds iff the result lies in 0001-01-01 .. 9999-12-31, and then moves the ordinal by exactly n; otherwise OverflowError |
| Calendar.FromOrdinal | app/models.py:50 | every date ordinal has a valid year/month/day, and that triple maps back to the same ordinal |
| Calendar.CivilRoundTrip | app/models.py:50 | every valid year/month/day between 0001-01-01 and 9999-12-31 is a date ordinal that converts back to the same triple |
| IsoDate.FormatIso | app/models.py:62 | `isoformat()` yields `YYYY-MM-DD` text whose year, month and day digits form a valid date with the same ordinal |
| IsoDate.FormatThenParse | app/models.py:62 | the ISO text of a date reads back as that same date |
| IsoDate.ParseThenFormat | app/routes.py:87 | a canonical `YYYY-MM-DD` string that reads as a date is exactly that date's ISO text |
| Models.ToDict | app/models.py:56-66 | the expense view carries the renewal date as ISO text that reads back as the stored date, and the current `reminder_sent` |
| Models.DeleteUser | app/models.py:21 | deleting a user removes all of that user's expenses, keeps every other expense unchanged, and keeps the store constraints |
| Tasks.SendRenewalReminder | app/tasks.py:40-118 | absent expense or flag already set: False, nothing sent, store unchanged; owner missing: False, nothing sent, flag stays false; otherwise one notice to the owner's email, flag set, True; a notifier failure raises before the flag is written; only that expense's flag can change |
| Tasks.Enqueue | app/tasks.py:35-38 | `apply_async` adds one copy of the job to the broker, leaves every other job's count, the store and the outbox unchanged |
| Tasks.ScheduleRenewalReminder | app/tasks.py:21-38 | absent expense: nothing queued; otherwise exactly one job at renewal date minus 7, whatever today is; a renewal in the first week of year 1 raises OverflowError and queues nothing |
| Tasks.Fire | app/routes.py:105-109 | a job runs only once its ETA day has begun and it is still queued; running it consumes one copy and applies the task's outcome to store and outbox |
| Routes.Register | app/routes.py:15-40 | a missing or empty email, username or password gives 400; a taken email or username gives 409 with no user added; otherwise one new user; email and username stay unique |
| Routes.NewExpense | app/routes.py:91-98 | the inserted row belongs to the caller, takes name, category, amount and renewal date from the request, description defaulting to empty, and `reminder_sent` false |
| Routes.CreateExpense | app/routes.py:77-111 | 401 for an unknown caller; a missing field or unparsable date gives 400 with neither expense nor job; 201 iff the caller exists, every required field is present and convertible, and the renewal is after the first week of year 1, any other case being 500; a created expense belongs to the caller with `reminder_sent` false and is returned as its view; exactly one job at renewal minus 7 iff the answer is 201 and that day is strictly after today; nothing is sent |
| Routes.InsertAndSchedule | app/routes.py:91-111 | the committed row is the caller's new expense with `reminder_sent` false; 201 with its view iff the renewal is after the first week of year 1, else 500 after the commit; a job at renewal minus 7 is queued iff that day is after today; the outbox is untouched; the store constraints are kept |
| Routes.CreateAccepted | app/routes.py:100-111 | a complete request from an existing caller with a renewal after the first week of year 1 answers 201, adds exactly the new row and the jobs the create path queues, and sends nothing |
| Routes.CreateServerError | app/routes.py:91-104 | 500 iff an unconvertible amount or a reminder day before year 1 follows otherwise valid input; the first writes nothing, the second leaves only the committed row |
| Routes.CreateKeepsValid | app/models.py:13-46 | creating an expense for an existing caller under an unused id keeps every expense owned by an existing user and emails and usernames unique |
| Routes.GetExpense | app/routes.py:122-131 | 200 with the view iff the expense exists and belongs to the caller, 404 otherwise; nothing changes |
| Routes.UpdateExpense | app/routes.py:134-159 | 404 with no change for an expense not the caller's; omitted fields keep their values; a given renewal date replaces the old one and clears `reminder_sent`; without one the flag is unchanged; an unconvertible amount answers 500 and, with a good amount, an unparsable date answers 400, both changing nothing; no job is queued or cancelled |
| Routes.UpdateKeepsValid | app/routes.py:138-157 | an update only changes a row the caller owns and keeps its owner, so the store constraints are kept |
| Routes.DeleteExpense | app/routes.py:162-174 | removes only the caller's own expense, else 404 with no change; queued jobs are left untouched |
| Dashboard.ListOwned | app/routes.py:186 | the listing holds each of the caller's expenses exactly once and nothing else, so its length is the caller's expense count |
| Dashboard.InsertKeepsSorted | app/routes.py:201 | inserting by renewal date into a list ordered by renewal date keeps it ordered |
| Dashboard.UpcomingRenewals | app/routes.py:196-201 | 500 (None) iff today + 30 overflows; else exactly the caller's expenses with today <= renewal date <= today + 30, each once, in non-decreasing renewal order |
| Dashboard.CountByCategory | app/routes.py:227-230 | each category appears once, with a positive count equal to its number of occurrences, and the counts sum to the number of expenses |
| Dashboard.DashboardStats | app/routes.py:179-215 | 401 for an unknown caller, 500 when the window end overflows, else `expense_count` is the caller's expense count and the upcoming list is as above |
| Dashboard.Summary | app/routes.py:218-245 | `total_subscriptions` is the caller's expense count and the category counts are positive, distinct and sum to it; a category is counted iff one of the caller's expenses has it |
| Lifecycle.HandlerIdempotent | app/tasks.py:46-48 | two task runs for one expense send at most one reminder; unless the first raised, the second returns False and sends nothing |
| Lifecycle.FireTwiceSendsOnce | app/tasks.py:46-48 | running two jobs for the same expense with nothing in between grows the outbox by at most one |
| Lifecycle.FireKeepsValid | app/tasks.py:112-116 | running a job keeps the store constraints |
| Lifecycle.DeletedExpenseJobHarmless | app/tasks.py:46-48 | after an expense is deleted, its leftover job sends nothing, changes no row and returns False |
| Lifecycle.DeletedUserJobsHarmless | app/models.py:21 | after a user is deleted, no job for any of their expenses sends anything |
| Lifecycle.RemindOnceThenNothing | app/tasks.py:111-118 | a due job for an unreminded expense with an owner delivers one reminder to the owner and sets the flag; any later job for it delivers nothing |
| Lifecycle.CreateThenRemindOnce | app/routes.py:103-109 | an expense renewing in 10 days gets one job in 3 days; it delivers one reminder; a second job for it delivers none |
| Lifecycle.CreateInsideWindowSchedulesNothing | app/routes.py:104-105 | a renewal at most 7 days away is created with no job |
| Lifecycle.StaleJobRemindsEarly | app/routes.py:150-153 | after a date change the old job stays the only job; it fires on its old day and reminds for the new date more than 7 days early; no job remains for the new date |
| Lifecycle.HelperDuplicatesJob | app/tasks.py:35-38 | the helper queues a second identical job for an expense whose creation already queued one |
| Lifecycle.HelperQueuesOverdueJob | app/tasks.py:31-38 | for a renewal at most 7 days away the helper queues a job that is already due today |
| Lifecycle.SameDateUpdateRemindsTwice | app/routes.py:150-153 | re-sending the unchanged renewal date clears the flag, so a second queued job reminds again for the same renewal |
| Lifecycle.ReusedIdInheritsJob | app/tasks.py:46-52 | if a deleted expense's id is reused for a new expense, the old job reminds the new expense's owner |

## Left out

- Flask, Celery and Flask-Login wiring (`app/__init__.py`, `run.py`, `celery_run.py`) are framework plumbing. The `login`, `logout` and `me` routes are sessions and password checks through werkzeug.
- Real-time dispatch, broker redelivery, worker concurrency and the ETA time zone are left out. `Tasks.Fire` lets any due queued job run, one at a time, chosen by the caller.
- `send_email` and the HTML/text bodies are I/O and string rendering. A delivered reminder is a `Notice(recipient, expense id)`.
- Amounts are stored as `real` but never added up. `total_monthly_spend`, `category_spend`, `total_yearly_spend`, `highest_spend_category` and `:.2f` formatting are floating point and left out.
- `recently_added` orders by `created_at` and is left out. So are the `created_at` and `updated_at` timestamps.
- Password hashing and `User.to_dict` are left out.
- The exact `strptime('%Y-%m-%d')` behaviour is left out. The routes receive the parse outcome. `IsoDate.ParseIso` accepts only canonical text; strptime also accepts one-digit months and days.
- SQLAlchemy sessions are left out. An update that answers 400 or 500 returns before `commit()`; the request's session is discarded, so the model leaves the store unchanged. Commit failures are not modelled (for example a JSON `null` name hitting a NOT NULL column).
- Request bodies that are not JSON objects are not modelled. A missing body counts as "all keys absent" for create and register. In update, `data.get` on a missing body raises; that path is not modelled.
- Non-string JSON values for text fields are not modelled.
- `get_expenses` is not modelled separately. It is `Dashboard.ListOwned` followed by `Models.ToDict`.
- Which unused primary key the database picks is left to the caller (`newId`). `Lifecycle.ReusedIdInheritsJob` covers a database that reuses the id of a deleted row.
- `Dashboard.Summary`: states for each category only whether it is counted. The exact per-category count is stated by `Dashboard.CountByCategory` over the listed categories.
- `Tasks.ScheduleRenewalReminder` passes a `date`, not a `datetime`, as the ETA. The model treats it as that day's start, like `create_expense` does.
