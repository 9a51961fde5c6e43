/**
 * The in-process worker of worker.py: a FIFO queue of joke texts drained by
 * one loop that stops at the first `None`, asks the generator for a URL per
 * joke and appends `{"joke", "url"}` to the shared metadata list when the URL
 * is truthy. The generator is an oracle: answer `generate(i, joke)` is what
 * `generate_final_video` returns for the i-th joke the loop takes.
 */
module FifoWorker {
  import opened Wrappers

  datatype Entry = Entry(joke: string, url: string)

  /** Python truthiness of the generator's answer: `None` and `""` are false. */
  predicate Truthy(url: Option<string>)
  {
    url.Some? && url.value != ""
  }

  /** The list object `video_metadata`; whoever got it from `list_videos_metadata` holds this very object. */
  class MetadataList {
    var items: seq<Entry>

    constructor ()
      ensures items == []
    {
      items := [];
    }
  }

  /** The index of the first stop sentinel (`None`) in the queue, or its length when there is none. */
  function SentinelIndex(q: seq<Option<string>>): (n: nat)
    ensures n <= |q|
    ensures forall i | 0 <= i < n :: q[i].Some?
    ensures n < |q| ==> q[n].None?
  {
    if q == [] || q[0].None? then 0
    else
      var n := SentinelIndex(q[1..]);
      assert forall i | 0 < i <= n :: q[i] == q[1..][i - 1];
      1 + n
  }

  /** A position with only jokes before it, and the sentinel or the end at it, is the sentinel index. */
  lemma {:induction false} SentinelAt(q: seq<Option<string>>, k: nat)
    requires k <= |q| && forall i | 0 <= i < k :: q[i].Some?
    requires k == |q| || q[k].None?
    ensures SentinelIndex(q) == k
  {
    if k > 0 {
      SentinelAt(q[1..], k - 1);
    }
  }

  /** The texts of queue items that are not the sentinel. */
  function Jokes(items: seq<Option<string>>): (r: seq<string>)
    requires forall i | 0 <= i < |items| :: items[i].Some?
    ensures |r| == |items| && forall i | 0 <= i < |items| :: items[i] == Some(r[i])
  {
    seq(|items|, i requires 0 <= i < |items| => items[i].value)
  }

  /** The entries appended while the worker processes `jokes` in order. */
  function Collected(jokes: seq<string>, generate: (nat, string) -> Option<string>): seq<Entry>
  {
    if jokes == [] then []
    else
      var n := |jokes| - 1;
      var url := generate(n, jokes[n]);
      Collected(jokes[..n], generate) + (if Truthy(url) then [Entry(jokes[n], url.value)] else [])
  }

  lemma CollectedSnoc(jokes: seq<string>, joke: string, generate: (nat, string) -> Option<string>)
    ensures var url := generate(|jokes|, joke);
      Collected(jokes + [joke], generate) ==
      Collected(jokes, generate) + (if Truthy(url) then [Entry(joke, url.value)] else [])
  {
    assert (jokes + [joke])[..|jokes|] == jokes;
  }

  lemma JokesSnoc(q: seq<Option<string>>, k: nat)
    requires k < |q| && forall i | 0 <= i <= k :: q[i].Some?
    ensures Jokes(q[..k + 1]) == Jokes(q[..k]) + [q[k].value]
  {
  }

  /**
   * The list only grows: what was collected for the first jokes stays, in
   * place and in order, whatever is processed afterwards.
   */
  lemma {:induction false} CollectedGrows(jokes: seq<string>, more: seq<string>, generate: (nat, string) -> Option<string>)
    ensures Collected(jokes, generate) <= Collected(jokes + more, generate)
  {
    if more != [] {
      var all := jokes + more;
      var n := |all| - 1;
      assert all[..n] == jokes + more[..|more| - 1];
      CollectedGrows(jokes, more[..|more| - 1], generate);
    } else {
      assert jokes + more == jokes;
    }
  }

  /**
   * An entry is collected exactly for each joke whose generator answer is
   * truthy, carrying that joke and that URL; there are never more entries
   * than jokes.
   */
  lemma {:induction false} CollectedEntries(jokes: seq<string>, generate: (nat, string) -> Option<string>)
    ensures |Collected(jokes, generate)| <= |jokes|
    ensures forall e | e in Collected(jokes, generate) ::
      exists i | 0 <= i < |jokes| :: Truthy(generate(i, jokes[i])) && e == Entry(jokes[i], generate(i, jokes[i]).value)
    ensures forall i | 0 <= i < |jokes| && Truthy(generate(i, jokes[i])) ::
      Entry(jokes[i], generate(i, jokes[i]).value) in Collected(jokes, generate)
  {
    if jokes != [] {
      var n := |jokes| - 1;
      var init := jokes[..n];
      CollectedEntries(init, generate);
      assert forall i | 0 <= i < n :: init[i] == jokes[i];
    }
  }

  /** The positions, in dequeue order, of the jokes whose generator answer is truthy. */
  function TruthyPositions(jokes: seq<string>, generate: (nat, string) -> Option<string>): (p: seq<nat>)
    ensures forall k | 0 <= k < |p| :: p[k] < |jokes| && Truthy(generate(p[k], jokes[p[k]]))
    ensures forall k, l | 0 <= k < l < |p| :: p[k] < p[l]
    ensures forall i | 0 <= i < |jokes| && Truthy(generate(i, jokes[i])) :: i in p
  {
    if jokes == [] then []
    else
      var n := |jokes| - 1;
      var init := jokes[..n];
      var p := TruthyPositions(init, generate);
      assert forall i | 0 <= i < n :: init[i] == jokes[i];
      p + (if Truthy(generate(n, jokes[n])) then [n] else [])
  }

  /**
   * One entry per truthy answer and no other, in dequeue order: the k-th
   * entry carries the joke and URL of the k-th joke whose answer is truthy.
   */
  lemma {:induction false} CollectedInOrder(jokes: seq<string>, generate: (nat, string) -> Option<string>)
    ensures var c, p := Collected(jokes, generate), TruthyPositions(jokes, generate);
      && |c| == |p|
      && forall k | 0 <= k < |c| :: c[k] == Entry(jokes[p[k]], generate(p[k], jokes[p[k]]).value)
  {
    if jokes != [] {
      var n := |jokes| - 1;
      var init := jokes[..n];
      CollectedInOrder(init, generate);
      assert forall i | 0 <= i < n :: init[i] == jokes[i];
    }
  }

  class Worker {
    /** `job_queue`; `None` asks the worker to stop. */
    var jobQueue: seq<Option<string>>
    /** The queue's count of items put and not yet marked `task_done`. */
    var unfinishedTasks: nat
    const videoMetadata: MetadataList

    ghost predicate Valid()
      reads this
    {
      |jobQueue| <= unfinishedTasks
    }

    /** The module state at import: an empty queue and an empty metadata list. */
    constructor ()
      ensures Valid()
      ensures jobQueue == [] && unfinishedTasks == 0
      ensures fresh(videoMetadata) && videoMetadata.items == []
    {
      jobQueue, unfinishedTasks := [], 0;
      videoMetadata := new MetadataList();
    }

    /** `enqueue_job(joke_text)`: put the item at the back of the queue. */
    method EnqueueJob(joke: Option<string>)
      requires Valid()
      modifies this
      ensures Valid()
      ensures jobQueue == old(jobQueue) + [joke] && unfinishedTasks == old(unfinishedTasks) + 1
    {
      jobQueue := jobQueue + [joke];
      unfinishedTasks := unfinishedTasks + 1;
    }

    /**
     * `worker_loop()`: take items from the front, one at a time, until the
     * first `None`, which is consumed without `task_done`; items behind it
     * stay queued. Each joke taken gets one generator call, one entry when
     * the URL is truthy, and one `task_done`. When the queue runs dry
     * without a sentinel the model returns where the real loop would block.
     */
    method WorkerLoop(generate: (nat, string) -> Option<string>) returns (processed: seq<string>, stopped: bool)
      requires Valid()
      modifies this, videoMetadata
      ensures Valid()
      ensures var n := SentinelIndex(old(jobQueue));
        && processed == Jokes(old(jobQueue)[..n])
        && stopped == (n < |old(jobQueue)|)
        && jobQueue == (if stopped then old(jobQueue)[n + 1..] else [])
        && videoMetadata.items == old(videoMetadata.items) + Collected(processed, generate)
        && unfinishedTasks == old(unfinishedTasks) - n
    {
      ghost var queue := jobQueue;
      processed, stopped := [], false;
      while jobQueue != []
        invariant |processed| <= |queue| && jobQueue == queue[|processed|..]
        invariant forall i | 0 <= i < |processed| :: queue[i].Some?
        invariant processed == Jokes(queue[..|processed|])
        invariant videoMetadata.items == old(videoMetadata.items) + Collected(processed, generate)
        invariant |queue| <= old(unfinishedTasks) && unfinishedTasks == old(unfinishedTasks) - |processed|
        decreases |jobQueue|
      {
        var joke := jobQueue[0];
        jobQueue := jobQueue[1..];
        if joke.None? {
          SentinelAt(queue, |processed|);
          stopped := true;
          break;
        }
        ProcessJoke(processed, joke.value, generate);
        CollectedSnoc(processed, joke.value, generate);
        JokesSnoc(queue, |processed|);
        processed := processed + [joke.value];
      }
      if !stopped {
        SentinelAt(queue, |processed|);
      }
    }

    /**
     * The body of `worker_loop` for one joke, the `done`-th taken: one
     * generator call, one entry when its URL is truthy, one `task_done`.
     */
    method ProcessJoke(done: seq<string>, joke: string, generate: (nat, string) -> Option<string>)
      requires unfinishedTasks > 0
      modifies this, videoMetadata
      ensures var url := generate(|done|, joke);
        videoMetadata.items == old(videoMetadata.items) + (if Truthy(url) then [Entry(joke, url.value)] else [])
      ensures unfinishedTasks == old(unfinishedTasks) - 1 && jobQueue == old(jobQueue)
    {
      var url := generate(|done|, joke);
      if Truthy(url) {
        videoMetadata.items := videoMetadata.items + [Entry(joke, url.value)];
      }
      unfinishedTasks := unfinishedTasks - 1;
    }

    /** `list_videos_metadata()`: the shared list object itself, not a copy. */
    function ListVideosMetadata(): (r: MetadataList)
      ensures r == videoMetadata
    {
      videoMetadata
    }
  }

  /**
   * FIFO order and the sentinel: with `a`, `b`, the sentinel and `c` queued,
   * the worker processes `a` then `b`, stops, and leaves `c` queued.
   */
  method SentinelStopsWorker(a: string, b: string, c: string, url: string)
    returns (processed: seq<string>, left: seq<Option<string>>, entries: seq<Entry>)
    requires url != ""
    ensures processed == [a, b]
    ensures left == [Some(c)]
    ensures entries == [Entry(a, url), Entry(b, url)]
  {
    var w := new Worker();
    w.EnqueueJob(Some(a));
    w.EnqueueJob(Some(b));
    w.EnqueueJob(None);
    w.EnqueueJob(Some(c));
    var q := w.jobQueue;
    assert q == [Some(a), Some(b), None, Some(c)];
    assert SentinelIndex(q[2..]) == 0;
    assert SentinelIndex(q[1..]) == 1 by { assert q[1..][1..] == q[2..]; }
    assert SentinelIndex(q) == 2;
    var generate := (i: nat, joke: string) => Some(url);
    var stopped;
    processed, stopped := w.WorkerLoop(generate);
    assert q[..2] == [Some(a), Some(b)];
    left := w.jobQueue;
    entries := w.videoMetadata.items;
    assert [a, b][..1] == [a] && [a][..0] == [];
    assert Collected([a], generate) == [Entry(a, url)];
  }

  /**
   * The list handed out by `list_videos_metadata` is live: an entry the
   * worker appends later shows up in the list the caller already holds.
   */
  method ListingIsLive(joke: string, url: string) returns (before: seq<Entry>, after: seq<Entry>)
    requires url != ""
    ensures before == []
    ensures after == [Entry(joke, url)]
  {
    var w := new Worker();
    var listing := w.ListVideosMetadata();
    before := listing.items;
    w.EnqueueJob(Some(joke));
    w.EnqueueJob(None);
    var q := w.jobQueue;
    assert SentinelIndex(q) == 1 by { assert q[1..] == [None]; }
    var processed, stopped := w.WorkerLoop((i, j) => Some(url));
    assert q[..1] == [Some(joke)];
    assert processed[..0] == [];
    after := listing.items;
  }
}
