/**
 * The external part of `process_job` in app.py: background music, the joke
 * script, the Pexels search, the choice of one link per hit, one download per
 * link, speech synthesis and rendering. Each collaborator is an oracle that
 * either returns normally or raises with a message; the steps run in order
 * and the first exception ends the run.
 */
module Pipeline {
  import opened Wrappers
  import opened Pexels

  /** A call to an external collaborator. */
  datatype Call =
    | FetchMusic                              // download_background_music()
    | WriteScript                             // generate_script(topic) and the hook/setup/punchline lookups
    | SearchClips                             // search_pexels_videos(topic)
    | DownloadClip(index: nat, link: string)  // download_video(links[index], CLIPS_DIR)
    | Synthesize                              // make_tts(text)
    | Render                                  // build_video(paths, script, tts, out)

  /**
   * How each collaborator behaves in one run: `None` (or `Success`) when it
   * returns normally, otherwise the message of the exception it raises.
   * `downloadFailures[i]` is the message raised by the download of link `i`.
   */
  datatype Collaborators = Collaborators(
    music: Option<string>,
    script: Option<string>,
    search: Result<seq<PexelsVideo>>,
    downloadFailures: map<nat, string>,
    speech: Option<string>,
    render: Option<string>)

  /** The exception a call raises, if any. */
  function Raised(c: Call, k: Collaborators): Option<string>
  {
    match c
    case FetchMusic => k.music
    case WriteScript => k.script
    case SearchClips => if k.search.Failure? then Some(k.search.error) else None
    case DownloadClip(i, _) => if i in k.downloadFailures then Some(k.downloadFailures[i]) else None
    case Synthesize => k.speech
    case Render => k.render
  }

  /** The calls made, in order, and the message of the exception that ended the run, if one did. */
  datatype Run = Run(calls: seq<Call>, failure: Option<string>)

  /** Make the planned calls in order, stopping right after the first one that raises. */
  function Walk(plan: seq<Call>, k: Collaborators): Run
  {
    if plan == [] then Run([], None)
    else
      match Raised(plan[0], k)
      case Some(m) => Run([plan[0]], Some(m))
      case None =>
        var rest := Walk(plan[1..], k);
        Run([plan[0]] + rest.calls, rest.failure)
  }

  /**
   * A walk makes a prefix of the plan; every call but the last returned
   * normally; it ends without an exception exactly when no planned call
   * raises, having made them all; otherwise its message is the last call's.
   */
  lemma {:induction false} WalkShape(plan: seq<Call>, k: Collaborators)
    ensures var r := Walk(plan, k);
      && r.calls <= plan
      && (forall i | 0 <= i < |r.calls| - 1 :: Raised(r.calls[i], k).None?)
      && (r.failure.None? <==> forall i | 0 <= i < |plan| :: Raised(plan[i], k).None?)
      && (r.failure.None? ==> r.calls == plan)
      && (r.failure.Some? ==> r.calls != [] && Raised(r.calls[|r.calls| - 1], k) == r.failure)
  {
    if plan != [] && Raised(plan[0], k).None? {
      var rest := plan[1..];
      WalkShape(rest, k);
      var w := Walk(rest, k);
      assert Walk(plan, k) == Run([plan[0]] + w.calls, w.failure);
      assert plan == [plan[0]] + rest;
      forall i | 0 < i < |plan| ensures plan[i] == rest[i - 1] { }
      forall i | 0 < i < |w.calls| + 1 ensures ([plan[0]] + w.calls)[i] == w.calls[i - 1] { }
    }
  }

  /** Walking a plan whose first part all returns normally is walking the rest after it. */
  lemma {:induction false} WalkAfterSuccesses(p: seq<Call>, q: seq<Call>, k: Collaborators)
    requires forall i | 0 <= i < |p| :: Raised(p[i], k).None?
    ensures Walk(p + q, k) == Run(p + Walk(q, k).calls, Walk(q, k).failure)
  {
    if p != [] {
      var w := Walk(q, k);
      assert (p + q)[0] == p[0] && (p + q)[1..] == p[1..] + q;
      WalkAfterSuccesses(p[1..], q, k);
      assert Raised((p + q)[0], k).None?;
      assert Walk(p + q, k) == Run([p[0]] + Walk(p[1..] + q, k).calls, Walk(p[1..] + q, k).failure);
      assert [p[0]] + (p[1..] + w.calls) == p + w.calls;
    } else {
      assert p + q == q && p + Walk(q, k).calls == Walk(q, k).calls;
    }
  }

  /** Walking a plan stops at the first call that raises. */
  lemma {:induction false} WalkStopsAt(p: seq<Call>, q: seq<Call>, k: Collaborators, i: nat)
    requires i < |p| && Raised(p[i], k).Some?
    requires forall j | 0 <= j < i :: Raised(p[j], k).None?
    ensures Walk(p + q, k) == Run(p[..i + 1], Raised(p[i], k))
  {
    if i > 0 {
      assert (p + q)[1..] == p[1..] + q;
      WalkStopsAt(p[1..], q, k, i - 1);
      assert p[..i + 1] == [p[0]] + p[1..][..i];
    }
  }

  const MaxClips: nat := 3

  /** A list comprehension whose element expressions may raise: every value, or the first exception. */
  function AllOrFirstFailure(rs: seq<Result<string>>): (r: Result<seq<string>>)
    ensures r.Success? <==> forall i | 0 <= i < |rs| :: rs[i].Success?
    ensures r.Success? ==>
      |r.value| == |rs| && forall i | 0 <= i < |rs| :: r.value[i] == rs[i].value
    ensures r.Failure? ==>
      exists i | 0 <= i < |rs| :: rs[i] == Failure(r.error) && forall j | 0 <= j < i :: rs[j].Success?
  {
    if rs == [] then Success([])
    else
      assert forall i | 0 < i < |rs| :: rs[i] == rs[1..][i - 1];
      match rs[0]
      case Failure(m) => Failure(m)
      case Success(link) =>
        match AllOrFirstFailure(rs[1..])
        case Failure(m) => Failure(m)
        case Success(links) => Success([link] + links)
  }

  /** `[best_pexels_link(v) for v in vids[:3]]`. */
  function ClipLinks(vids: seq<PexelsVideo>): (r: Result<seq<string>>)
    ensures var n := if |vids| < MaxClips then |vids| else MaxClips;
      && (r.Success? <==> forall i | 0 <= i < n :: BestPexelsLink(vids[i]).Success?)
      && (r.Success? ==> |r.value| == n && forall i | 0 <= i < n :: r.value[i] == BestPexelsLink(vids[i]).value)
      && (r.Failure? ==>
            exists i | 0 <= i < n :: BestPexelsLink(vids[i]) == Failure(r.error)
              && forall j | 0 <= j < i :: BestPexelsLink(vids[j]).Success?)
  {
    var n := if |vids| < MaxClips then |vids| else MaxClips;
    var links := seq(n, i requires 0 <= i < n => BestPexelsLink(vids[i]));
    assert forall i | 0 <= i < n :: links[i] == BestPexelsLink(vids[i]);
    AllOrFirstFailure(links)
  }

  /** One download per link, in link order. */
  function DownloadPlan(links: seq<string>): (r: seq<Call>)
    ensures |r| == |links| && forall i | 0 <= i < |r| :: r[i] == DownloadClip(i, links[i])
  {
    seq(|links|, i requires 0 <= i < |links| => DownloadClip(i, links[i]))
  }

  const Prelude: seq<Call> := [FetchMusic, WriteScript, SearchClips]
  const Finale: seq<Call> := [Synthesize, Render]

  /** The three calls before the link choice, each stopping the run if it raises. */
  lemma WalkPrelude(k: Collaborators)
    ensures Walk(Prelude, k) ==
      if k.music.Some? then Run([FetchMusic], k.music)
      else if k.script.Some? then Run([FetchMusic, WriteScript], k.script)
      else if k.search.Failure? then Run(Prelude, Some(k.search.error))
      else Run(Prelude, None)
  {
    var p1, p2 := [WriteScript, SearchClips], [SearchClips];
    assert Prelude[0] == FetchMusic && Prelude[1..] == p1;
    assert p1[0] == WriteScript && p1[1..] == p2;
    assert p2[0] == SearchClips && p2[1..] == [];
    if k.music.None? && k.script.None? {
      var w2 := Walk(p2, k);
      if k.search.Failure? {
        assert w2 == Run(p2, Some(k.search.error));
      } else {
        assert w2 == Run([SearchClips] + Walk([], k).calls, None);
        assert w2 == Run(p2, None);
      }
      assert Walk(p1, k) == Run([WriteScript] + w2.calls, w2.failure);
      assert [FetchMusic] + ([WriteScript] + p2) == Prelude;
    }
  }

  /** The two calls after the downloads, the second made only if the first returns normally. */
  lemma WalkFinale(k: Collaborators)
    ensures Walk(Finale, k) ==
      if k.speech.Some? then Run([Synthesize], k.speech)
      else if k.render.Some? then Run(Finale, k.render)
      else Run(Finale, None)
  {
    var p1 := [Render];
    assert Finale[0] == Synthesize && Finale[1..] == p1;
    assert p1[0] == Render && p1[1..] == [];
    if k.speech.None? {
      var w1 := Walk(p1, k);
      if k.render.Some? {
        assert w1 == Run(p1, k.render);
      } else {
        assert w1 == Run([Render] + Walk([], k).calls, None);
        assert w1 == Run(p1, None);
      }
      assert [Synthesize] + p1 == Finale;
    }
  }

  /** The run `process_job` makes once past the quota gate. */
  function Expected(k: Collaborators): Run
  {
    var head := Walk(Prelude, k);
    if head.failure.Some? then head
    else
      WalkPrelude(k);
      match ClipLinks(k.search.value)
      case Failure(m) => Run(head.calls, Some(m))
      case Success(links) =>
        var tail := Walk(DownloadPlan(links) + Finale, k);
        Run(head.calls + tail.calls, tail.failure)
  }

  /** Every collaborator returns normally and every hit yields a link. */
  predicate AllSucceed(k: Collaborators)
  {
    && k.music.None? && k.script.None? && k.search.Success?
    && ClipLinks(k.search.value).Success?
    && (forall i | 0 <= i < |ClipLinks(k.search.value).value| :: i !in k.downloadFailures)
    && k.speech.None? && k.render.None?
  }

  /**
   * The run ends without an exception exactly when every step succeeds, and
   * then it has called every collaborator once, in the source's order, with
   * one download per chosen link.
   */
  lemma ExpectedSuccess(k: Collaborators)
    ensures Expected(k).failure.None? <==> AllSucceed(k)
    ensures AllSucceed(k) ==>
      Expected(k).calls == Prelude + DownloadPlan(ClipLinks(k.search.value).value) + Finale
  {
    WalkPrelude(k);
    if k.music.None? && k.script.None? && k.search.Success? && ClipLinks(k.search.value).Success? {
      var links := ClipLinks(k.search.value).value;
      var plan := DownloadPlan(links) + Finale;
      ExpectedPastSearch(k, links);
      WalkShape(plan, k);
      DownloadsSucceed(k, links);
    }
  }

  /** Past a successful search and link choice, the run is the prelude followed by the walk of the rest. */
  lemma ExpectedPastSearch(k: Collaborators, links: seq<string>)
    requires k.music.None? && k.script.None? && k.search.Success?
    requires ClipLinks(k.search.value) == Success(links)
    ensures Expected(k) == Run(Prelude + Walk(DownloadPlan(links) + Finale, k).calls,
                               Walk(DownloadPlan(links) + Finale, k).failure)
  {
    WalkPrelude(k);
  }

  lemma DownloadsSucceed(k: Collaborators, links: seq<string>)
    ensures var plan := DownloadPlan(links) + Finale;
      (forall i | 0 <= i < |plan| :: Raised(plan[i], k).None?) <==>
      (forall i | 0 <= i < |links| :: i !in k.downloadFailures) && k.speech.None? && k.render.None?
  {
    var plan := DownloadPlan(links) + Finale;
    assert plan[|links|] == Synthesize && plan[|links| + 1] == Render;
    if forall i | 0 <= i < |plan| :: Raised(plan[i], k).None? {
      forall i | 0 <= i < |links| ensures i !in k.downloadFailures {
        assert plan[i] == DownloadClip(i, links[i]);
      }
    }
    if (forall i | 0 <= i < |links| :: i !in k.downloadFailures) && k.speech.None? && k.render.None? {
      forall i | 0 <= i < |plan| ensures Raised(plan[i], k).None? {
        if i < |links| { assert plan[i] == DownloadClip(i, links[i]); }
      }
    }
  }

  /**
   * A failed run: every call but the last returned normally, and the stored
   * message is the one the last call raised, or the one raised while choosing
   * the links right after the search.
   */
  lemma ExpectedFailure(k: Collaborators)
    requires Expected(k).failure.Some?
    ensures var r := Expected(k);
      && r.calls != []
      && (forall i | 0 <= i < |r.calls| - 1 :: Raised(r.calls[i], k).None?)
      && (Raised(r.calls[|r.calls| - 1], k) == r.failure ||
          (r.calls == Prelude && k.search.Success? && ClipLinks(k.search.value) == Failure(r.failure.value)))
  {
    WalkPrelude(k);
    var head := Walk(Prelude, k);
    if head.failure.None? && ClipLinks(k.search.value).Success? {
      var plan := DownloadPlan(ClipLinks(k.search.value).value) + Finale;
      WalkShape(plan, k);
      var tail := Walk(plan, k);
      var calls := head.calls + tail.calls;
      forall i | 0 <= i < |calls| - 1 ensures Raised(calls[i], k).None? {
        if i >= |head.calls| { assert calls[i] == tail.calls[i - |head.calls|]; }
      }
      assert calls[|calls| - 1] == tail.calls[|tail.calls| - 1];
    }
  }

  /**
   * `[download_video(u, CLIPS_DIR) for u in links]`: the downloads made, in
   * link order, up to and including the first one that raises.
   */
  method DownloadClips(links: seq<string>, k: Collaborators) returns (made: seq<Call>, failure: Option<string>)
    ensures failure.None? <==> forall i | 0 <= i < |links| :: i !in k.downloadFailures
    ensures failure.None? ==> made == DownloadPlan(links)
    ensures failure.Some? ==> forall rest :: Walk(DownloadPlan(links) + rest, k) == Run(made, failure)
  {
    ghost var plan := DownloadPlan(links);
    made := [];
    var i := 0;
    while i < |links|
      invariant 0 <= i <= |links|
      invariant made == plan[..i]
      invariant forall j | 0 <= j < i :: j !in k.downloadFailures
    {
      made := made + [DownloadClip(i, links[i])];
      assert plan[..i + 1] == plan[..i] + [plan[i]];
      if i in k.downloadFailures {
        forall rest ensures Walk(plan + rest, k) == Run(made, Some(k.downloadFailures[i])) {
          WalkStopsAt(plan, rest, k, i);
        }
        return made, Some(k.downloadFailures[i]);
      }
      i := i + 1;
    }
    assert plan[..i] == plan;
    return made, None;
  }

  /**
   * The steps after the link choice: the downloads, speech synthesis and
   * rendering, each made only if every earlier one returned normally.
   */
  method FetchAndRender(links: seq<string>, k: Collaborators) returns (calls: seq<Call>, failure: Option<string>)
    ensures Run(calls, failure) == Walk(DownloadPlan(links) + Finale, k)
  {
    calls, failure := DownloadClips(links, k);
    if failure.Some? { return; }
    DownloadsSucceed(k, links);
    WalkAfterSuccesses(DownloadPlan(links), Finale, k);
    WalkFinale(k);
    calls := calls + [Synthesize];
    if k.speech.Some? { return calls, k.speech; }
    calls := calls + [Render];
    if k.render.Some? { return calls, k.render; }
    return calls, None;
  }

  /**
   * The steps of `process_job` after the quota gate, in the source's order:
   * the calls it makes and the message of the exception that stops it.
   */
  method RunExternalSteps(k: Collaborators) returns (calls: seq<Call>, failure: Option<string>)
    ensures Run(calls, failure) == Expected(k)
  {
    WalkPrelude(k);
    calls := [FetchMusic];
    if k.music.Some? { return calls, k.music; }
    calls := calls + [WriteScript];
    if k.script.Some? { return calls, k.script; }
    calls := calls + [SearchClips];
    if k.search.Failure? { return calls, Some(k.search.error); }
    assert calls == Prelude;
    var picked := ClipLinks(k.search.value);
    if picked.Failure? { return calls, Some(picked.error); }
    ExpectedPastSearch(k, picked.value);
    var rest;
    rest, failure := FetchAndRender(picked.value, k);
    calls := calls + rest;
  }
}
