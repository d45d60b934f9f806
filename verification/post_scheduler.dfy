/** The slot arithmetic and task list of the scheduler (src/scheduler/PostScheduler.ts).
    The cron library is not modelled: a scheduled task is the (hour, minute) pair it is
    registered with. `Math.random()` is a roll in [0, 1) passed in per draw; the posting
    job is its outcome. */
module PostScheduler {
  import opened Wrappers

  const HOURS_PER_DAY: int := 24

  /** A registered task: the cron expression `minute hour * * *`. */
  datatype Task = Task(hour: int, minute: int)

  /** The scheduler's settings, read from the environment. */
  datatype Config = Config(postsPerDay: int, minDelayMinutes: int, maxDelayMinutes: int)

  predicate ValidRoll(roll: real) {
    0.0 <= roll < 1.0
  }

  /** JavaScript's `%` on integers: the remainder takes the sign of the dividend. */
  function JsRemainder(a: int, b: int): (r: int)
    requires b > 0
    ensures a >= 0 ==> r == a % b
    ensures a >= 0 ==> 0 <= r < b
    ensures a < 0 ==> -b < r <= 0
  {
    if a >= 0 then a % b else -((-a) % b)
  }

  /** A roll scaled by a positive width stays below the width. */
  lemma ScaledRollBelow(roll: real, n: real)
    requires ValidRoll(roll) && n > 0.0
    ensures 0.0 <= roll * n < n
  {
  }

  /** For naturals the floor of the exact quotient is the integer quotient. */
  lemma FloorOfQuotient(a: nat, b: int)
    requires b >= 1
    ensures ((a as real) / (b as real)).Floor == a / b
  {
    var q := a / b;
    var x := a as real / b as real;
    assert x * b as real == a as real;
    assert q * b <= a < (q + 1) * b;
    assert (q as real) * (b as real) <= x * (b as real);
    assert x * (b as real) < ((q + 1) as real) * (b as real);
  }

  lemma QuotientMonotone(a: nat, c: nat, n: int)
    requires a <= c && n >= 1
    ensures a / n <= c / n
  {
    FloorOfQuotient(a, n);
    FloorOfQuotient(c, n);
    assert a as real / n as real <= c as real / n as real;
  }

  /** `getRandomDelay(min, max)`: `Math.floor(roll * (max - min + 1)) + min`. */
  function RandomDelay(roll: real, min: int, max: int): (d: int)
    requires ValidRoll(roll)
    ensures min <= max ==> min <= d <= max
    ensures min <= max ==> (d - min) as real <= roll * (max - min + 1) as real < (d - min + 1) as real
  {
    var n := (max - min + 1) as real;
    var x := roll * n;
    if min <= max then
      ScaledRollBelow(roll, n);
      x.Floor + min
    else
      x.Floor + min
  }

  /** Every delay in range can be drawn: the roll `(d - min) / (max - min + 1)` gives `d`. */
  lemma RandomDelayReachesAll(d: int, min: int, max: int)
    requires min <= d <= max
    ensures var roll := (d - min) as real / (max - min + 1) as real;
      ValidRoll(roll) && RandomDelay(roll, min, max) == d
  {
    var n := (max - min + 1) as real;
    var roll := (d - min) as real / n;
    assert roll * n == (d - min) as real;
    FloorOfQuotient(d - min, max - min + 1);
    assert (d - min) / (max - min + 1) == 0;
  }

  /** The hour of slot `i` (line 22): `Math.floor((i * (24 / postsPerDay)) % 24)`.
      In exact arithmetic `i * (24 / n)` is `24 * i / n`, and the remainder of the
      non-negative `x` is `x - 24 * floor(x / 24)`. */
  function SlotHour(i: nat, postsPerDay: int): (h: int)
    requires postsPerDay >= 1
    ensures 0 <= h < HOURS_PER_DAY
  {
    var x := (HOURS_PER_DAY * i) as real / postsPerDay as real;
    var q := (x / HOURS_PER_DAY as real).Floor;
    var m := x - HOURS_PER_DAY as real * q as real;
    assert 0.0 <= m < HOURS_PER_DAY as real;
    m.Floor
  }

  /** Within a day's slots the remainder never wraps: the hour is `24 * i div n`. */
  lemma SlotHourInDay(i: nat, postsPerDay: int)
    requires 1 <= postsPerDay && i < postsPerDay
    ensures SlotHour(i, postsPerDay) == (HOURS_PER_DAY * i) / postsPerDay
  {
    var x := (HOURS_PER_DAY * i) as real / postsPerDay as real;
    FloorOfQuotient(HOURS_PER_DAY * i, postsPerDay);
    FloorOfQuotient(i, postsPerDay);
    assert x / HOURS_PER_DAY as real == i as real / postsPerDay as real;
    assert i / postsPerDay == 0;
  }

  /** Slot hours never go backwards within a day. */
  lemma SlotHoursNonDecreasing(i: nat, j: nat, postsPerDay: int)
    requires 1 <= postsPerDay && i <= j < postsPerDay
    ensures SlotHour(i, postsPerDay) <= SlotHour(j, postsPerDay)
  {
    SlotHourInDay(i, postsPerDay);
    SlotHourInDay(j, postsPerDay);
    QuotientMonotone(HOURS_PER_DAY * i, HOURS_PER_DAY * j, postsPerDay);
  }

  /** Three posts a day go out at 0, 8 and 16 o'clock; five at 0, 4, 9, 14 and 19. */
  lemma SlotHourExamples()
    ensures SlotHour(0, 3) == 0 && SlotHour(1, 3) == 8 && SlotHour(2, 3) == 16
    ensures SlotHour(0, 5) == 0 && SlotHour(1, 5) == 4 && SlotHour(2, 5) == 9
    ensures SlotHour(3, 5) == 14 && SlotHour(4, 5) == 19
  {
    SlotHourInDay(1, 3);
    SlotHourInDay(2, 3);
    SlotHourInDay(1, 5);
    SlotHourInDay(2, 5);
    SlotHourInDay(3, 5);
    SlotHourInDay(4, 5);
  }

  /** The task of slot `i`, drawn with `roll` (lines 22-27). */
  function SlotTask(i: nat, config: Config, roll: real): (t: Task)
    requires config.postsPerDay >= 1 && ValidRoll(roll)
    ensures 0 <= t.hour < HOURS_PER_DAY && -60 < t.minute < 60
    ensures 0 <= config.minDelayMinutes <= config.maxDelayMinutes ==> 0 <= t.minute < 60
  {
    Task(SlotHour(i, config.postsPerDay),
         JsRemainder(RandomDelay(roll, config.minDelayMinutes, config.maxDelayMinutes), 60))
  }

  /** The roll picks only the minute: two draws for the same slot agree on the hour. */
  lemma RollNeverMovesTheHour(i: nat, config: Config, roll1: real, roll2: real)
    requires config.postsPerDay >= 1 && ValidRoll(roll1) && ValidRoll(roll2)
    ensures SlotTask(i, config, roll1).hour == SlotTask(i, config, roll2).hour
  {
  }

  /** `start()`: one task per post of the day appended to `tasks`, slot `i` drawing
      `rolls[i]`; nothing is appended when `postsPerDay` is not positive. */
  method Start(tasks: seq<Task>, config: Config, rolls: seq<real>) returns (r: seq<Task>)
    requires forall k :: 0 <= k < |rolls| ==> ValidRoll(rolls[k])
    requires |rolls| >= config.postsPerDay
    ensures config.postsPerDay <= 0 ==> r == tasks
    ensures config.postsPerDay >= 1 ==> |r| == |tasks| + config.postsPerDay
    ensures r[..|tasks|] == tasks
    ensures forall k :: 0 <= k < |r| - |tasks| ==> r[|tasks| + k] == SlotTask(k, config, rolls[k])
    ensures forall k, l :: |tasks| <= k <= l < |r| ==> r[k].hour <= r[l].hour
    ensures forall k :: |tasks| <= k < |r| ==> 0 <= r[k].hour < HOURS_PER_DAY
  {
    r := tasks;
    var i := 0;
    while i < config.postsPerDay
      invariant 0 <= i <= |rolls| && (i > 0 ==> i <= config.postsPerDay)
      invariant |r| == |tasks| + i
      invariant r[..|tasks|] == tasks
      invariant forall k :: 0 <= k < i ==> r[|tasks| + k] == SlotTask(k, config, rolls[k])
      invariant forall k, l :: |tasks| <= k <= l < |r| ==> r[k].hour <= r[l].hour
      invariant forall k :: |tasks| <= k < |r| ==> 0 <= r[k].hour < HOURS_PER_DAY
    {
      var t := SlotTask(i, config, rolls[i]);
      forall k | |tasks| <= k < |r|
        ensures r[k].hour <= t.hour
      {
        assert r[|tasks| + (k - |tasks|)] == SlotTask(k - |tasks|, config, rolls[k - |tasks|]);
        SlotHoursNonDecreasing(k - |tasks|, i, config.postsPerDay);
      }
      r := r + [t];
      i := i + 1;
    }
  }

  /** `stop()`: every task is stopped, in order, and the list is emptied. */
  function Stop(tasks: seq<Task>): (r: (seq<Task>, seq<Task>))
    ensures r.0 == [] && r.1 == tasks
  {
    ([], tasks)
  }

  /** What a run of the job leaves: its outcome, and the error the scheduler itself logged.
      Informational lines and the job's own logging are not part of it. */
  datatype JobRun = JobRun(result: Result<()>, loggedError: Option<string>)

  /** `runNow()`: the job once, its error propagated to the caller. */
  function RunNow(job: Result<()>): (r: JobRun)
    ensures r.result.Failure? <==> job.Failure?
    ensures job.Failure? ==> r.result.error == job.error
    ensures r.loggedError == None
  {
    JobRun(job, None)
  }

  /** The callback cron fires (lines 31-37): a failing job is caught and logged. */
  function ScheduledRun(job: Result<()>): (r: JobRun)
    ensures r.result.Success?
    ensures r.loggedError.Some? <==> job.Failure?
    ensures job.Failure? ==> r.loggedError.value == job.error
  {
    match job
    case Success(_) => JobRun(Success(()), None)
    case Failure(e) => JobRun(Success(()), Some(e))
  }

  /** The two triggers differ only in who sees a failure: the caller of `runNow`, or
      the log of the scheduled run. */
  lemma TriggersAgreeOnFailure(job: Result<()>)
    ensures RunNow(job).result.Failure? <==> ScheduledRun(job).loggedError.Some?
    ensures RunNow(job).result.Failure? ==> RunNow(job).result.error == ScheduledRun(job).loggedError.value
  {
  }

  /** Starting after a stop schedules exactly one day's slots. */
  method RestartedSchedule(tasks: seq<Task>, config: Config, rolls: seq<real>) returns (r: seq<Task>)
    requires forall k :: 0 <= k < |rolls| ==> ValidRoll(rolls[k])
    requires |rolls| >= config.postsPerDay >= 1
    ensures |r| == config.postsPerDay
    ensures forall k :: 0 <= k < |r| ==> 0 <= r[k].hour < HOURS_PER_DAY
  {
    var stopped := Stop(tasks);
    r := Start(stopped.0, config, rolls);
  }
}
