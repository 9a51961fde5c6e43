# funny-video-generator: job store, job lifecycle and FIFO worker

This project models the bookkeeping core of the funny-video-generator service in Dafny.

The service turns a topic into a short vertical video. It does this by calling out for:

- background music;
- an AI-written joke script;
- stock clips from Pexels;
- speech synthesis;
- a moviepy render.

Around those calls sit two small state machines. The model covers both of them.

**The SQLite job store of `app.py`** (modules `JobTables` and `App`). State lives in class `App.JobDb`:

- a map from job id to a `jobs` row;
- the `videos` rows in insertion order;
- the AUTOINCREMENT counter of each table.

Its operations are:

- `enqueue_job`;
- `update_job`, a partial update that always refreshes `updated_at`;
- `get_next_job`, the queued row with the smallest id;
- `videos_created_today`, which counts video rows created since UTC midnight;
- `record_video`;
- the newest-first `/videos` listing;
- `process_job`;
- one iteration of `worker_loop`.

`process_job` works like this:

1. It marks the job `processing`.
2. It refuses the job with "Daily limit reached" once the day's quota of videos is used.
3. Otherwise it calls the external collaborators in order (module `Pipeline`). Each collaborator is an oracle that returns normally or raises with a message.
4. On success it records the video and marks the job `done`. On the first exception it marks the job `error` with that exception's message.

**The clip choice `best_pexels_link`** (module `Pexels`). From a Pexels hit's files it keeps the `video/mp4` entries. It then takes the entry whose width/height ratio is closest to 9:16. Python's `sorted` is stable, so the first entry in input order wins a tie. The exceptions Python raises on the way are modelled too:

- no mp4 entry gives "list index out of range";
- an mp4 entry of height 0 gives "division by zero".

**The in-process worker of `worker.py`** (module `FifoWorker`). It has a FIFO queue of joke texts with `None` as the stop sentinel. The worker loop:

- drains the queue in order;
- stops at the first sentinel;
- asks the generator for a URL per joke;
- appends `{"joke", "url"}` to the shared metadata list when the URL is truthy.

`list_videos_metadata` hands out that very list object, class `FifoWorker.MetadataList`. Later appends therefore show up in the caller's list.

Timestamps are whole seconds since the epoch, UTC, supplied by the caller. `process_job` receives three of them:

- `start`: the `processing` update and the quota gate;
- `finish`: the recorded video and the final update;
- `stamp`: the `int(time.time())` in the output file name.

## Model

| member | source | states |
|---|---|---|
| Pexels.Mp4s | app.py:128 | the kept entries are exactly the input entries whose `file_type` is `video/mp4` |
| Pexels.Mp4sConcat | app.py:128 | the comprehension keeps input order and duplicates: it filters the parts of a concatenation separately and joins the results in order |
| Pexels.Mp4sSingle | app.py:128 | a single entry is kept exactly when it is an mp4 |
| Pexels.SortBySkewSorts | app.py:129 | the stand-in for `sorted(mp4s, key=skew)` returns a permutation of its input, ordered by skew |
| Pexels.SortedHeadIsFirstClosest | app.py:129 | the head of the sorted mp4 entries is the first entry in input order among those with the least skew |
| Pexels.BestPexelsLinkChoice | app.py:126-129 | fails with "division by zero" iff some mp4 entry has height 0; otherwise fails with "list index out of range" iff there is no mp4 entry; otherwise succeeds with the link of the first mp4 entry of least \|w/h − 9/16\| |
| JobTables.RightmostValue | app.py:91-97 | a column named in `SET` takes the value of its rightmost assignment; a column not named has none |
| JobTables.PatchedColumns | app.py:89-98 | after `update_job` every column holds the rightmost value given for it, or its old value when not named, and `updated_at` is the time of the call |
| JobTables.Apply | app.py:92-94 | one `col=?` assignment sets its column and leaves every other column and `updated_at` as they were |
| JobTables.NextJob | app.py:100-104 | nothing exactly when no row is queued; otherwise the id of a queued row no larger than the id of any queued row |
| JobTables.CountSinceIsRowCount | app.py:106-111 | the count equals the number of video rows whose `created_at` is at or after the given instant |
| JobTables.DayStart | app.py:107 | the start of the UTC day: a multiple of 86400 no later than now and less than a day before it |
| JobTables.VideosCreatedTodayAppend | app.py:106-117 | recording one more video raises today's count by one exactly when it is created today |
| JobTables.NewestFirst | app.py:264 | the rows in reverse insertion order |
| JobTables.NewestFirstOrder | app.py:262-265 | `ORDER BY id DESC` returns every row exactly once, in strictly descending id order |
| JobTables.ListVideos | app.py:262-265 | the answer holds, per row and newest first, its file name and creation time |
| Pipeline.WalkShape | app.py:218-233 | the steps run in order: a run makes a prefix of its plan, every call but the last returns normally, and it ends without exception iff no planned call raises |
| Pipeline.AllOrFirstFailure | app.py:225 | a list comprehension either yields every element value in order, or raises the exception of the first element that raises |
| Pipeline.ClipLinks | app.py:225 | over the first min(number of hits, 3) hits: the links `best_pexels_link` picks, in hit order, or the exception of the first hit whose choice raises |
| Pipeline.ExpectedSuccess | app.py:218-231 | the external steps end without exception iff every collaborator succeeds and every hit yields a link; the calls are then music, script, search, one download per link, speech and render, in that order |
| Pipeline.ExpectedFailure | app.py:218-233 | after an exception every call but the last returned normally, and the stored message is the last call's, or the one raised while choosing links right after the search |
| Pipeline.DownloadClips | app.py:226 | the downloads made, in link order, up to and including the first that raises; no failure iff no download raises |
| Pipeline.FetchAndRender | app.py:226-229 | downloads, speech and render run in order and stop at the first exception |
| Pipeline.RunExternalSteps | app.py:221-229 | the calls made and the exception raised are exactly the specified run of the external steps |
| App.Decimal | app.py:228 | `str(n)` of a non-negative integer: a non-empty string of decimal digits with no leading zero (only 0 itself starts with `0`) |
| App.DecimalRoundTrip | app.py:228 | the digits `str(n)` writes denote `n` again |
| App.OutputName | app.py:228-230 | the basename of the output path: `funny_`, then digits that denote the stamp, then `.mp4` |
| App.ProcessedRow | app.py:216-233 | the job row after `process_job`: `error` with "Daily limit reached" when the quota is used, `error` with the exception's message after a failure, and `done` naming the output file exactly when no quota stop and no failure; topic, creation time and attempts are kept; `updated_at` is `start` on the quota path and `finish` otherwise |
| App.ProcessedVideos | app.py:219-230 | exactly one video row is added, with the next id, the output file name, the finish time and `{"topic": topic}`, exactly when the job succeeds; existing rows are kept |
| App.QuotaRow | app.py:217-220 | the `processing` update followed by the quota update leaves the row `ProcessedRow` describes |
| App.ConcludedRow | app.py:217-233 | the `processing` update followed by the final `done` or `error` update leaves the row `ProcessedRow` describes |
| App.JobDb.constructor | app.py:57-76 | `init_db()` on a fresh database file: both tables empty, both counters at zero |
| App.JobDb.EnqueueJob | app.py:80-87 | inserts exactly one row, queued, with `created_at == updated_at`, under a fresh id larger than every id ever allocated; the videos table is unchanged |
| App.JobDb.UpdateJob | app.py:89-98 | the row with that id becomes the patched row; every other row is unchanged; an unknown id changes nothing and raises nothing |
| App.JobDb.RecordVideo | app.py:113-117 | appends one video row with the next id, the given file name, time and metadata |
| App.JobDb.ProcessJob | app.py:216-234 | at quota: `error` with "Daily limit reached", no video row, no collaborator call; otherwise the calls are the specified run, and the job and video rows are `ProcessedRow`/`ProcessedVideos`; it never raises; the video counter advances by the number of rows added and the job counter stays |
| App.JobDb.Conclude | app.py:229-233 | on success records the video, then marks the job `done` with that file; on an exception marks it `error` with the message; the video counter advances by the rows added and the job counter stays |
| App.JobDb.WorkerStep | app.py:236-244 | takes `get_next_job()` and processes it; the job taken leaves the queued set and no other queued job does; the job counter stays and the video counter advances by the rows added |
| App.CatsScenario | app.py:216-265 | a "cats" job on a fresh service with succeeding collaborators ends `done`, and `/videos` lists exactly its one file |
| App.SixthJobHitsLimit | app.py:216-220 | with the default limit of 5, five succeeding jobs on one day end `done` and a sixth ends `error` with "Daily limit reached", calling nobody |
| FifoWorker.SentinelIndex | worker.py:9-12 | the position of the first `None` in the queue, or its length when there is none |
| FifoWorker.SentinelAt | worker.py:9-12 | any position with only jokes before it and `None` (or the end of the queue) at it is the sentinel index, so the loop's stopping point is unique |
| FifoWorker.CollectedGrows | worker.py:6-16 | `video_metadata` only grows: entries collected for earlier jokes stay in place and in order |
| FifoWorker.CollectedEntries | worker.py:14-16 | every entry carries a joke and its truthy URL, every joke with a truthy URL has its entry, and there are never more entries than jokes |
| FifoWorker.TruthyPositions | worker.py:14-15 | the positions of the jokes whose generator answer is truthy: all of them, and only them, in strictly increasing (dequeue) order |
| FifoWorker.CollectedInOrder | worker.py:10-16 | exactly one entry per truthy answer, in dequeue order: the k-th entry carries the joke and URL at the k-th truthy position |
| FifoWorker.Worker.constructor | worker.py:5-6 | an empty queue and an empty metadata list |
| FifoWorker.Worker.EnqueueJob | worker.py:20-21 | appends the item at the back of the queue |
| FifoWorker.Worker.WorkerLoop | worker.py:8-17 | processes the jokes in FIFO order up to the first `None`, which it consumes; items behind it stay queued; appends the entries for truthy URLs; one `task_done` per joke and none for the sentinel |
| FifoWorker.Worker.ProcessJoke | worker.py:13-17 | one joke: one generator call, one entry appended when its URL is truthy and none otherwise, one `task_done`; the queue is untouched |
| FifoWorker.Worker.ListVideosMetadata | worker.py:24-25 | returns the shared metadata list object itself |
| FifoWorker.SentinelStopsWorker | worker.py:8-21 | with `a`, `b`, `None`, `c` queued, the worker processes `a` then `b`, stops, and leaves `c` queued |
| FifoWorker.ListingIsLive | worker.py:16-25 | a list obtained before the worker runs shows the entry the worker appends afterwards |

## Left out

- Concurrency: `db_lock`, the worker thread of `start_worker_thread`, and `time.sleep(5)`. Every operation is modelled as atomic and sequential.
- The blocking `job_queue.get()` of `worker.py`: when the queue runs dry without a sentinel, `WorkerLoop` returns where the real loop would block.
- `worker_loop` in `app.py` runs forever. The model gives one iteration (`WorkerStep`) and proves that the job it takes leaves the queue, so the next iteration moves on.
- The Flask routes, JSON (de)serialisation of `result_json` and `metadata`, `send_file`, `/health`, the `/job/<id>` lookup and the environment-variable warnings. `/videos` is modelled as the query result it serialises.
- `init_db()` over an existing `video_jobs.db` keeps its rows (`CREATE TABLE IF NOT EXISTS`), today's quota count included. A restart is not modelled as its own constructor: any state satisfying `JobDb.Valid()` stands for the database it reopens.
- Clock reads: the source reads the clock at every `update_job`, at `videos_created_today` and at `record_video`. The model folds these reads into two instants per job. `start` is used for the `processing` update, the quota gate and the quota `error` update; `finish` is used for the recorded video and the final update.
- SQLite mechanics: cursors, SQL text and commits. The database calls are assumed never to raise.
- ISO-8601 timestamp strings are modelled as whole seconds. The string comparison `created_at >= "<today>T00:00:00"` becomes `createdAt >= DayStart(now)`.
- `generator.py` is not part of this model. `generate_final_video` is an oracle from (position, joke) to a URL or `None`; it catches its own errors, so it never raises.
- The network, LLM, TTS and moviepy calls are modelled only by their outcome, normal return or a message:
  - `download_background_music`, `generate_script` with its `hook`/`setup`/`punchline` lookups, `search_pexels_videos`, `download_video`, `make_tts`;
  - `build_video` with `make_vertical_clip`, `add_captions` and `add_music`.
  What they write to disk and what they return is not modelled.
- Pexels.BestPexelsLinkChoice: aspect ratios are compared with exact rational arithmetic, not IEEE doubles, so float rounding ties are not reproduced. A file without `width` or `height` (a `KeyError`) is not modelled; every file carries both.
- JobTables.PatchedColumns: `update_job` keyword arguments are limited to the real columns other than `id` and `updated_at`, so an unknown column name (an SQLite error) cannot be expressed.
- Output file names: `funny_{int(time.time())}.mp4` has one-second resolution, so nothing claims that file names are unique.
- `App.JobDb.UpdateJob` on an unknown id changes nothing and raises nothing, as the code does. A 404 for unknown jobs exists only in the `/job/<id>` route.
- The daily quota counts rows of `videos`, as the code does, not jobs marked `done`. The code has no upload step, so none is modelled.
- `attempts` is never incremented by the code; the model keeps it at the 0 that `enqueue_job` stores.
