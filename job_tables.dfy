/**
 * The two SQLite tables of app.py as values: rows of `jobs` keyed by their
 * id, the rows of `videos` in insertion order, and the read-only queries the
 * service runs over them. Timestamps are seconds since the epoch, UTC.
 */
module JobTables {
  import opened Wrappers

  datatype Status = Queued | Processing | Done | Error

  /** The `result_json` column, `{"file": <name>}` once serialised. */
  datatype JobResult = JobResult(file: string)

  /** One row of `jobs`; `result` and `error` are NULL until set. */
  datatype Job = Job(
    topic: string,
    status: Status,
    createdAt: nat,
    updatedAt: nat,
    attempts: int,
    result: Option<JobResult>,
    error: Option<string>)

  /** The `metadata` column of a video row, `{"topic": <topic>}` once serialised. */
  datatype VideoMeta = VideoMeta(topic: string)

  /** One row of `videos`. */
  datatype Video = Video(id: nat, filename: string, createdAt: nat, metadata: VideoMeta)

  /** One element of the `/videos` answer: `{"file": ..., "created": ...}`. */
  datatype Listing = Listing(file: string, created: nat)

  /** The row `enqueue_job` inserts. */
  function QueuedJob(topic: string, now: nat): Job
  {
    Job(topic, Queued, now, now, 0, None, None)
  }

  // ---------------------------------------------------------------------
  // update_job: the keyword arguments become `SET col=?` assignments

  /** The columns a caller of `update_job` names; `updated_at` is always set by the update itself. */
  datatype Column = TopicCol | StatusCol | CreatedAtCol | AttemptsCol | ResultCol | ErrorCol

  datatype Value =
    | TopicVal(topic: string)
    | StatusVal(status: Status)
    | TimeVal(time: nat)
    | IntVal(n: int)
    | ResultVal(result: Option<JobResult>)
    | ErrorVal(error: Option<string>)

  /** One keyword argument of `update_job`. */
  datatype Assignment =
    | SetTopic(topic: string)
    | SetStatus(status: Status)
    | SetCreatedAt(createdAt: nat)
    | SetAttempts(attempts: int)
    | SetResult(result: Option<JobResult>)
    | SetError(error: Option<string>)

  function Target(a: Assignment): Column
  {
    match a
    case SetTopic(_) => TopicCol
    case SetStatus(_) => StatusCol
    case SetCreatedAt(_) => CreatedAtCol
    case SetAttempts(_) => AttemptsCol
    case SetResult(_) => ResultCol
    case SetError(_) => ErrorCol
  }

  function Assigned(a: Assignment): Value
  {
    match a
    case SetTopic(t) => TopicVal(t)
    case SetStatus(s) => StatusVal(s)
    case SetCreatedAt(t) => TimeVal(t)
    case SetAttempts(n) => IntVal(n)
    case SetResult(r) => ResultVal(r)
    case SetError(e) => ErrorVal(e)
  }

  /** The value a row holds in column `c`. */
  function Get(j: Job, c: Column): Value
  {
    match c
    case TopicCol => TopicVal(j.topic)
    case StatusCol => StatusVal(j.status)
    case CreatedAtCol => TimeVal(j.createdAt)
    case AttemptsCol => IntVal(j.attempts)
    case ResultCol => ResultVal(j.result)
    case ErrorCol => ErrorVal(j.error)
  }

  /** One `col=?` assignment: the named column takes the value, every other column and `updated_at` keep theirs. */
  function Apply(j: Job, a: Assignment): (r: Job)
    ensures Get(r, Target(a)) == Assigned(a)
    ensures forall c | c != Target(a) :: Get(r, c) == Get(j, c)
    ensures r.updatedAt == j.updatedAt
  {
    match a
    case SetTopic(t) => j.(topic := t)
    case SetStatus(s) => j.(status := s)
    case SetCreatedAt(t) => j.(createdAt := t)
    case SetAttempts(n) => j.(attempts := n)
    case SetResult(r) => j.(result := r)
    case SetError(e) => j.(error := e)
  }

  /** The assignments applied left to right, as the loop of `update_job` lists them. */
  function ApplyAll(j: Job, kw: seq<Assignment>): Job
  {
    if kw == [] then j else Apply(ApplyAll(j, kw[..|kw| - 1]), kw[|kw| - 1])
  }

  /** The whole effect of `update_job(id, **kw)` on the row it matches. */
  function Patched(j: Job, kw: seq<Assignment>, now: nat): Job
  {
    ApplyAll(j, kw).(updatedAt := now)
  }

  /**
   * SQLite's reading of `SET a=?, b=?, ...`: a column named more than once
   * takes its rightmost value; `None` means the column is not named.
   */
  function RightmostValue(kw: seq<Assignment>, c: Column): (r: Option<Value>)
    ensures r.None? <==> forall i | 0 <= i < |kw| :: Target(kw[i]) != c
    ensures r.Some? ==> exists i | 0 <= i < |kw| :: Target(kw[i]) == c && r.value == Assigned(kw[i])
                          && forall k | i < k < |kw| :: Target(kw[k]) != c
  {
    if kw == [] then None
    else if Target(kw[|kw| - 1]) == c then Some(Assigned(kw[|kw| - 1]))
    else
      var r := RightmostValue(kw[..|kw| - 1], c);
      assert forall i | 0 <= i < |kw| - 1 :: kw[..|kw| - 1][i] == kw[i];
      r
  }

  /**
   * `update_job` changes exactly the columns it names, each to the rightmost
   * value given for it, refreshes `updated_at`, and leaves every other column
   * as it was.
   */
  lemma {:induction false} PatchedColumns(j: Job, kw: seq<Assignment>, now: nat, c: Column)
    ensures Patched(j, kw, now).updatedAt == now
    ensures Get(Patched(j, kw, now), c) ==
      match RightmostValue(kw, c) case Some(v) => v case None => Get(j, c)
  {
    if kw != [] {
      PatchedColumns(j, kw[..|kw| - 1], now, c);
    }
  }

  // ---------------------------------------------------------------------
  // get_next_job: SELECT ... WHERE status='queued' ORDER BY id LIMIT 1

  /** The ids of the rows whose status is `queued`. */
  function QueuedIds(jobs: map<nat, Job>): (r: set<nat>)
    ensures forall id :: id in r <==> id in jobs && jobs[id].status == Queued
  {
    set id | id in jobs && jobs[id].status == Queued
  }

  /** The smallest member of `s` that is at least `i`, found by counting up towards the witness `w`. */
  function LeastFrom(s: set<nat>, i: nat, w: nat): (m: nat)
    requires w in s && i <= w
    ensures m in s && i <= m
    ensures forall x | x in s && i <= x :: m <= x
    decreases w - i
  {
    if i in s then i else LeastFrom(s, i + 1, w)
  }

  function Least(s: set<nat>): (m: nat)
    requires s != {}
    ensures m in s && forall x | x in s :: m <= x
  {
    var w :| w in s;
    LeastFrom(s, 0, w)
  }

  /** `get_next_job()`: the id of the queued row with the smallest id, if any. */
  function NextJob(jobs: map<nat, Job>): (r: Option<nat>)
    ensures r.None? <==> forall id | id in jobs :: jobs[id].status != Queued
    ensures r.Some? ==> r.value in jobs && jobs[r.value].status == Queued
    ensures r.Some? ==> forall id | id in jobs && jobs[id].status == Queued :: r.value <= id
  {
    var queued := QueuedIds(jobs);
    if queued == {} then None else Some(Least(queued))
  }

  // ---------------------------------------------------------------------
  // videos_created_today: SELECT COUNT(*) FROM videos WHERE created_at >= <today>T00:00:00

  const SecondsPerDay: nat := 86400

  /** Midnight (UTC) of the day that contains `now`. */
  function DayStart(now: nat): (r: nat)
    ensures r <= now < r + SecondsPerDay && r % SecondsPerDay == 0
  {
    now - now % SecondsPerDay
  }

  /** The number of video rows created at or after `since`. */
  function CountSince(videos: seq<Video>, since: nat): (r: nat)
    ensures r <= |videos|
  {
    if videos == [] then 0
    else CountSince(videos[..|videos| - 1], since) + (if videos[|videos| - 1].createdAt >= since then 1 else 0)
  }

  function IndicesSince(videos: seq<Video>, since: nat): set<nat>
  {
    set i: nat | i < |videos| && videos[i].createdAt >= since
  }

  /** The count is the number of rows that satisfy the WHERE clause. */
  lemma {:induction false} CountSinceIsRowCount(videos: seq<Video>, since: nat)
    ensures CountSince(videos, since) == |IndicesSince(videos, since)|
  {
    if videos != [] {
      var n := |videos| - 1;
      var init := videos[..n];
      CountSinceIsRowCount(init, since);
      var before := IndicesSince(init, since);
      if videos[n].createdAt >= since {
        assert IndicesSince(videos, since) == before + {n};
        assert n !in before;
      } else {
        assert IndicesSince(videos, since) == before;
      }
    }
  }

  /** `videos_created_today()` at time `now`. */
  function VideosCreatedToday(videos: seq<Video>, now: nat): nat
  {
    CountSince(videos, DayStart(now))
  }

  /** Appending a row created today adds one to today's count; a row from an earlier day adds nothing. */
  lemma VideosCreatedTodayAppend(videos: seq<Video>, v: Video, now: nat)
    ensures VideosCreatedToday(videos + [v], now) ==
      VideosCreatedToday(videos, now) + (if v.createdAt >= DayStart(now) then 1 else 0)
  {
    assert (videos + [v])[..|videos|] == videos;
  }

  // ---------------------------------------------------------------------
  // /videos: SELECT filename, created_at FROM videos ORDER BY id DESC

  /** Rows appear in the table in strictly increasing id order (AUTOINCREMENT, never deleted). */
  predicate IdsAscending(videos: seq<Video>)
  {
    forall i, j | 0 <= i < j < |videos| :: videos[i].id < videos[j].id
  }

  /** The rows, newest (largest id) first. */
  function NewestFirst(videos: seq<Video>): (r: seq<Video>)
    ensures |r| == |videos|
    ensures forall i | 0 <= i < |r| :: r[i] == videos[|videos| - 1 - i]
  {
    if videos == [] then []
    else [videos[|videos| - 1]] + NewestFirst(videos[..|videos| - 1])
  }

  /** `ORDER BY id DESC` over the table: the same rows, in strictly descending id order. */
  lemma NewestFirstOrder(videos: seq<Video>)
    requires IdsAscending(videos)
    ensures multiset(NewestFirst(videos)) == multiset(videos)
    ensures forall i, j | 0 <= i < j < |videos| :: NewestFirst(videos)[i].id > NewestFirst(videos)[j].id
  {
    NewestFirstPermutes(videos);
  }

  lemma {:induction false} NewestFirstPermutes(videos: seq<Video>)
    ensures multiset(NewestFirst(videos)) == multiset(videos)
  {
    if videos != [] {
      var n := |videos| - 1;
      NewestFirstPermutes(videos[..n]);
      assert videos == videos[..n] + [videos[n]];
    }
  }

  /** The `/videos` answer: file name and creation time of each row, newest first. */
  function ListVideos(videos: seq<Video>): (r: seq<Listing>)
    ensures |r| == |videos|
    ensures forall i | 0 <= i < |r| :: r[i] == Listing(NewestFirst(videos)[i].filename, NewestFirst(videos)[i].createdAt)
  {
    var rows := NewestFirst(videos);
    seq(|rows|, i requires 0 <= i < |rows| => Listing(rows[i].filename, rows[i].createdAt))
  }
}
