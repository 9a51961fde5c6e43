/**
 * The job store and job processor of app.py: the `jobs` and `videos` tables
 * held by one object, the helpers that change them, `process_job` and one
 * iteration of `worker_loop`. Every operation is atomic (the `db_lock` of the
 * source) and clock readings are parameters.
 */
module App {
  import opened Wrappers
  import opened JobTables
  import opened Pexels
  import opened Pipeline

  /** `DAILY_LIMIT` when the environment does not set it. */
  const DefaultDailyLimit: int := 5
  const DailyLimitMessage: string := "Daily limit reached"

  /** The character of decimal digit `d`. */
  function DigitChar(d: nat): (c: char)
    requires d < 10
    ensures '0' <= c <= '9' && (c - '0') as nat == d
  {
    ('0' as int + d) as char
  }

  /** `str(n)` for a non-negative integer: its digits, without leading zeros. */
  function Decimal(n: nat): (r: string)
    ensures |r| >= 1 && forall i | 0 <= i < |r| :: '0' <= r[i] <= '9'
    ensures n == 0 || r[0] != '0'
  {
    if n < 10 then [DigitChar(n)] else Decimal(n / 10) + [DigitChar(n % 10)]
  }

  /** The number a string of decimal digits denotes. */
  function DecimalValue(s: string): nat
    requires forall i | 0 <= i < |s| :: '0' <= s[i] <= '9'
  {
    if s == [] then 0 else 10 * DecimalValue(s[..|s| - 1]) + (s[|s| - 1] - '0') as nat
  }

  /** `str(n)` reads back as `n`. */
  lemma {:induction false} DecimalRoundTrip(n: nat)
    ensures DecimalValue(Decimal(n)) == n
  {
    if n >= 10 {
      DecimalRoundTrip(n / 10);
      var s := Decimal(n);
      assert s[..|s| - 1] == Decimal(n / 10);
    }
  }

  /** The basename of `OUTPUT_DIR/f"funny_{int(time.time())}.mp4"`. */
  function OutputName(stamp: nat): (r: string)
    ensures |r| > 10 && r[..6] == "funny_" && r[|r| - 4..] == ".mp4"
    ensures var digits := r[6..|r| - 4];
      (forall i | 0 <= i < |digits| :: '0' <= digits[i] <= '9') && DecimalValue(digits) == stamp
  {
    var digits := Decimal(stamp);
    var r := "funny_" + digits + ".mp4";
    DecimalRoundTrip(stamp);
    assert r[6..|r| - 4] == digits;
    r
  }

  /**
   * The row `process_job` leaves behind: first `processing` at `start`, then
   * `error` with the quota message at `start`, `error` with the exception's
   * message at `finish`, or `done` naming the rendered file at `finish`.
   */
  function ProcessedRow(j: Job, quotaReached: bool, failure: Option<string>, start: nat, finish: nat, stamp: nat): (r: Job)
    ensures r.status == Done || r.status == Error
    ensures r.topic == j.topic && r.createdAt == j.createdAt && r.attempts == j.attempts
    ensures r.status == Error ==>
      r.result == j.result && r.error == (if quotaReached then Some(DailyLimitMessage) else failure)
    ensures r.status == Done <==> !quotaReached && failure.None?
    ensures r.status == Done ==> r.result == Some(JobResult(OutputName(stamp))) && r.error == j.error
    ensures r.updatedAt == if quotaReached then start else finish
  {
    if quotaReached then j.(status := Error, error := Some(DailyLimitMessage), updatedAt := start)
    else match failure
      case Some(m) => j.(status := Error, error := Some(m), updatedAt := finish)
      case None => j.(status := Done, result := Some(JobResult(OutputName(stamp))), updatedAt := finish)
  }

  /** The `videos` table after `process_job`: one new row exactly when the job succeeded. */
  function ProcessedVideos(videos: seq<Video>, lastVideoId: nat, quotaReached: bool, failure: Option<string>,
                           topic: string, finish: nat, stamp: nat): (r: seq<Video>)
    ensures |r| == |videos| + (if !quotaReached && failure.None? then 1 else 0)
    ensures r[..|videos|] == videos
    ensures |r| > |videos| ==>
      r[|videos|] == Video(lastVideoId + 1, OutputName(stamp), finish, VideoMeta(topic))
  {
    if !quotaReached && failure.None?
    then videos + [Video(lastVideoId + 1, OutputName(stamp), finish, VideoMeta(topic))]
    else videos
  }

  /** The keyword arguments of the last `update_job` call of `process_job`. */
  function Outcome(failure: Option<string>, stamp: nat): seq<Assignment>
  {
    if failure.Some? then [SetStatus(Error), SetError(failure)]
    else [SetStatus(Done), SetResult(Some(JobResult(OutputName(stamp))))]
  }

  lemma ApplyOne(j: Job, a: Assignment)
    ensures ApplyAll(j, [a]) == Apply(j, a)
  {
    assert [a][..0] == [];
  }

  lemma ApplyTwo(j: Job, a: Assignment, b: Assignment)
    ensures ApplyAll(j, [a, b]) == Apply(Apply(j, a), b)
  {
    assert [a, b][..1] == [a];
    ApplyOne(j, a);
  }

  /** The two `update_job` calls on the quota path leave the row `ProcessedRow` describes. */
  lemma QuotaRow(j: Job, start: nat, failure: Option<string>, finish: nat, stamp: nat)
    ensures Patched(Patched(j, [SetStatus(Processing)], start), [SetStatus(Error), SetError(Some(DailyLimitMessage))], start)
            == ProcessedRow(j, true, failure, start, finish, stamp)
  {
    ApplyOne(j, SetStatus(Processing));
    ApplyTwo(Patched(j, [SetStatus(Processing)], start), SetStatus(Error), SetError(Some(DailyLimitMessage)));
  }

  /** The two `update_job` calls past the quota gate leave the row `ProcessedRow` describes. */
  lemma ConcludedRow(j: Job, start: nat, failure: Option<string>, finish: nat, stamp: nat)
    ensures Patched(Patched(j, [SetStatus(Processing)], start), Outcome(failure, stamp), finish)
            == ProcessedRow(j, false, failure, start, finish, stamp)
  {
    ApplyOne(j, SetStatus(Processing));
    var kw := Outcome(failure, stamp);
    ApplyTwo(Patched(j, [SetStatus(Processing)], start), kw[0], kw[1]);
  }

  class JobDb {
    var jobs: map<nat, Job>
    var videos: seq<Video>
    /** The AUTOINCREMENT counters: the largest id ever handed out in each table. */
    var lastJobId: nat
    var lastVideoId: nat
    const dailyLimit: int

    ghost predicate Valid()
      reads this
    {
      && (forall id | id in jobs :: 1 <= id <= lastJobId)
      && IdsAscending(videos)
      && (forall i | 0 <= i < |videos| :: 1 <= videos[i].id <= lastVideoId)
    }

    /** `init_db()` on a fresh database, with `DAILY_LIMIT` read from the environment. */
    constructor (dailyLimit: int)
      ensures Valid()
      ensures jobs == map[] && videos == [] && lastJobId == 0 && lastVideoId == 0
      ensures this.dailyLimit == dailyLimit
    {
      jobs, videos := map[], [];
      lastJobId, lastVideoId := 0, 0;
      this.dailyLimit := dailyLimit;
    }

    /** `enqueue_job(topic)`: insert a queued row under a fresh id and return the id. */
    method EnqueueJob(topic: string, now: nat) returns (id: nat)
      requires Valid()
      modifies this
      ensures Valid()
      ensures id == old(lastJobId) + 1 && lastJobId == id
      ensures forall other | other in old(jobs) :: other < id
      ensures jobs == old(jobs)[id := QueuedJob(topic, now)]
      ensures videos == old(videos) && lastVideoId == old(lastVideoId)
    {
      lastJobId := lastJobId + 1;
      id := lastJobId;
      jobs := jobs[id := QueuedJob(topic, now)];
    }

    /**
     * `update_job(id, **kw)`: the named columns take their values, in the
     * order given, and `updated_at` becomes `now`; an unknown id changes
     * nothing and is not an error.
     */
    method UpdateJob(id: nat, kw: seq<Assignment>, now: nat)
      requires Valid()
      modifies this
      ensures Valid()
      ensures jobs == if id in old(jobs) then old(jobs)[id := Patched(old(jobs)[id], kw, now)] else old(jobs)
      ensures videos == old(videos) && lastJobId == old(lastJobId) && lastVideoId == old(lastVideoId)
    {
      if id in jobs {
        var row := jobs[id];
        var i := 0;
        while i < |kw|
          invariant 0 <= i <= |kw|
          invariant row == ApplyAll(old(jobs)[id], kw[..i])
        {
          assert kw[..i + 1][..i] == kw[..i];
          row := Apply(row, kw[i]);
          i := i + 1;
        }
        assert kw[..i] == kw;
        jobs := jobs[id := row.(updatedAt := now)];
      }
    }

    /** `record_video(fname, meta)`: append a row under a fresh id. */
    method RecordVideo(filename: string, meta: VideoMeta, now: nat)
      requires Valid()
      modifies this
      ensures Valid()
      ensures videos == old(videos) + [Video(old(lastVideoId) + 1, filename, now, meta)]
      ensures lastVideoId == old(lastVideoId) + 1
      ensures jobs == old(jobs) && lastJobId == old(lastJobId)
    {
      lastVideoId := lastVideoId + 1;
      videos := videos + [Video(lastVideoId, filename, now, meta)];
    }

    /**
     * `process_job(id, topic)`: mark the job processing, apply the daily
     * quota gate, run the external steps, and record the outcome. It never
     * raises; `calls` are the collaborator calls it made, in order.
     */
    method ProcessJob(id: nat, topic: string, start: nat, finish: nat, stamp: nat, k: Collaborators)
      returns (calls: seq<Call>)
      requires Valid()
      modifies this
      ensures Valid()
      ensures var quotaReached := VideosCreatedToday(old(videos), start) >= dailyLimit;
        && calls == (if quotaReached then [] else Expected(k).calls)
        && jobs == (if id in old(jobs)
                    then old(jobs)[id := ProcessedRow(old(jobs)[id], quotaReached, Expected(k).failure, start, finish, stamp)]
                    else old(jobs))
        && videos == ProcessedVideos(old(videos), old(lastVideoId), quotaReached, Expected(k).failure, topic, finish, stamp)
      ensures lastJobId == old(lastJobId)
      ensures lastVideoId == old(lastVideoId) + |videos| - |old(videos)|
    {
      ghost var before := jobs;
      UpdateJob(id, [SetStatus(Processing)], start);
      if VideosCreatedToday(videos, start) >= dailyLimit {
        if id in before {
          QuotaRow(before[id], start, Expected(k).failure, finish, stamp);
        }
        UpdateJob(id, [SetStatus(Error), SetError(Some(DailyLimitMessage))], start);
        calls := [];
      } else {
        if id in before {
          ConcludedRow(before[id], start, Expected(k).failure, finish, stamp);
        }
        var failure;
        calls, failure := RunExternalSteps(k);
        Conclude(id, failure, topic, finish, stamp);
      }
    }

    /**
     * The end of `process_job` past the quota gate: on success record the
     * video and mark the job done with that file; on an exception mark it
     * as failed with the exception's message.
     */
    method Conclude(id: nat, failure: Option<string>, topic: string, finish: nat, stamp: nat)
      requires Valid()
      modifies this
      ensures Valid()
      ensures jobs == if id in old(jobs) then old(jobs)[id := Patched(old(jobs)[id], Outcome(failure, stamp), finish)] else old(jobs)
      ensures videos == ProcessedVideos(old(videos), old(lastVideoId), false, failure, topic, finish, stamp)
      ensures lastJobId == old(lastJobId)
      ensures lastVideoId == old(lastVideoId) + |videos| - |old(videos)|
    {
      if failure.Some? {
        UpdateJob(id, [SetStatus(Error), SetError(failure)], finish);
      } else {
        var name := OutputName(stamp);
        RecordVideo(name, VideoMeta(topic), finish);
        UpdateJob(id, [SetStatus(Done), SetResult(Some(JobResult(name)))], finish);
      }
    }

    /**
     * One iteration of `worker_loop`: take the queued job with the smallest
     * id, if any, and process it. The job taken leaves the queue for good,
     * so the next iteration moves on to the next queued job.
     */
    method WorkerStep(start: nat, finish: nat, stamp: nat, k: Collaborators)
      returns (picked: Option<nat>, calls: seq<Call>)
      requires Valid()
      modifies this
      ensures Valid()
      ensures picked == NextJob(old(jobs))
      ensures picked.None? ==> calls == [] && jobs == old(jobs) && videos == old(videos)
      ensures picked.Some? ==>
        var id := picked.value;
        var quotaReached := VideosCreatedToday(old(videos), start) >= dailyLimit;
        && calls == (if quotaReached then [] else Expected(k).calls)
        && jobs == old(jobs)[id := ProcessedRow(old(jobs)[id], quotaReached, Expected(k).failure, start, finish, stamp)]
        && videos == ProcessedVideos(old(videos), old(lastVideoId), quotaReached, Expected(k).failure,
                                     old(jobs)[id].topic, finish, stamp)
      ensures picked.Some? ==> QueuedIds(jobs) == QueuedIds(old(jobs)) - {picked.value}
      ensures lastJobId == old(lastJobId)
      ensures lastVideoId == old(lastVideoId) + |videos| - |old(videos)|
    {
      picked := NextJob(jobs);
      calls := [];
      if picked.Some? {
        calls := ProcessJob(picked.value, jobs[picked.value].topic, start, finish, stamp, k);
      }
    }
  }

  // -----------------------------------------------------------------------
  // Two runs of the service, end to end

  lemma NoFailure(k: Collaborators)
    requires AllSucceed(k)
    ensures Expected(k).failure == None
  {
    ExpectedSuccess(k);
  }

  /**
   * A job for "cats" enqueued on a fresh service with the default limit, and
   * collaborators that all succeed, is done after one worker iteration, and `/videos` then lists exactly the one
   * file it produced, recorded with topic "cats".
   */
  method CatsScenario(now: nat, k: Collaborators) returns (job: Job, listing: seq<Listing>, recorded: seq<Video>)
    requires AllSucceed(k)
    ensures job.status == Done && job.result == Some(JobResult(OutputName(now)))
    ensures listing == [Listing(OutputName(now), now)]
    ensures |recorded| == 1 && recorded[0].metadata == VideoMeta("cats")
  {
    var db := new JobDb(DefaultDailyLimit);
    var id := db.EnqueueJob("cats", now);
    assert QueuedIds(db.jobs) == {id};
    NoFailure(k);
    ghost var row := db.jobs[id];
    var picked, calls := db.WorkerStep(now, now, now, k);
    assert db.jobs[id] == ProcessedRow(row, false, None, now, now, now);
    job := db.jobs[id];
    listing := ListVideos(db.videos);
    recorded := db.videos;
  }

  /**
   * With the default limit of five, five jobs that succeed on one day fill
   * the quota: a sixth job processed that day ends in error with the limit
   * message, and no collaborator is called for it.
   */
  method SixthJobHitsLimit(now: nat, k: Collaborators) returns (done: seq<Status>, sixth: Job, sixthCalls: seq<Call>)
    requires AllSucceed(k)
    ensures done == [Done, Done, Done, Done, Done]
    ensures sixth.status == Error && sixth.error == Some(DailyLimitMessage)
    ensures sixthCalls == []
  {
    var db := new JobDb(DefaultDailyLimit);
    NoFailure(k);
    done := [];
    while |done| < 5
      invariant db.Valid() && db.dailyLimit == DefaultDailyLimit
      invariant |done| <= 5 && forall i | 0 <= i < |done| :: done[i] == Done
      invariant QueuedIds(db.jobs) == {}
      invariant VideosCreatedToday(db.videos, now) == |done|
    {
      var row, _ := EnqueueAndProcess(db, now, k);
      done := done + [row.status];
    }
    sixth, sixthCalls := EnqueueAndProcess(db, now, k);
  }

  /** Enqueue a job on an idle service and run one worker iteration, all at `now`. */
  method EnqueueAndProcess(db: JobDb, now: nat, k: Collaborators) returns (row: Job, calls: seq<Call>)
    requires db.Valid() && QueuedIds(db.jobs) == {}
    requires Expected(k).failure == None
    modifies db
    ensures db.Valid() && QueuedIds(db.jobs) == {}
    ensures var today := VideosCreatedToday(old(db.videos), now);
      if today >= db.dailyLimit
      then row.status == Error && row.error == Some(DailyLimitMessage) && calls == []
      else row.status == Done && VideosCreatedToday(db.videos, now) == today + 1
  {
    var id := db.EnqueueJob("joke", now);
    assert QueuedIds(db.jobs) == {id};
    ghost var before := db.videos;
    var picked;
    picked, calls := db.WorkerStep(now, now, now, k);
    row := db.jobs[id];
    if VideosCreatedToday(before, now) < db.dailyLimit {
      VideosCreatedTodayAppend(before, db.videos[|db.videos| - 1], now);
      assert db.videos == before + [db.videos[|db.videos| - 1]];
    }
  }
}
