/**
 * The clip-selection rule of app.py: among the `video_files` of one Pexels
 * video, keep the `video/mp4` entries, sort them (stably) by how far their
 * aspect ratio is from 9:16 and take the link of the first one.
 * Aspect ratios are exact reals here, not Python floats.
 */
module Pexels {
  import opened Wrappers

  const Mp4Type: string := "video/mp4"
  /** Python's message for `sorted(...)[0]` on an empty list. */
  const EmptyListMessage: string := "list index out of range"
  /** Python's message for `width / height` with `height == 0`. */
  const ZeroHeightMessage: string := "division by zero"

  datatype VideoFile = VideoFile(fileType: string, width: int, height: int, link: string)

  /** One search hit; a hit without `video_files` has the empty list. */
  datatype PexelsVideo = PexelsVideo(videoFiles: seq<VideoFile>)

  predicate IsMp4(f: VideoFile) { f.fileType == Mp4Type }

  function Abs(x: real): real { if x < 0.0 then -x else x }

  /** The sort key: distance of the aspect ratio from 9:16. */
  function Skew(f: VideoFile): real
    requires f.height != 0
  {
    Abs(f.width as real / f.height as real - 9.0 / 16.0)
  }

  /** The comprehension `[x for x in vids if x.get("file_type") == "video/mp4"]`. */
  function Mp4s(files: seq<VideoFile>): (r: seq<VideoFile>)
    ensures forall f :: f in r <==> f in files && IsMp4(f)
  {
    if files == [] then []
    else if IsMp4(files[0]) then [files[0]] + Mp4s(files[1..])
    else Mp4s(files[1..])
  }

  /** The comprehension keeps a single entry exactly when it is an mp4. */
  lemma Mp4sSingle(f: VideoFile)
    ensures Mp4s([f]) == if IsMp4(f) then [f] else []
  {
    assert [f][1..] == [];
  }

  /**
   * The comprehension keeps order and duplicates: it filters each part of a
   * concatenation on its own and joins the results in order.
   */
  lemma {:induction false} Mp4sConcat(a: seq<VideoFile>, b: seq<VideoFile>)
    ensures Mp4s(a + b) == Mp4s(a) + Mp4s(b)
  {
    if a == [] {
      assert a + b == b;
    } else {
      Mp4sConcat(a[1..], b);
      assert (a + b)[0] == a[0] && (a + b)[1..] == a[1..] + b;
    }
  }

  predicate AllNonZeroHeight(s: seq<VideoFile>)
  {
    forall i | 0 <= i < |s| :: s[i].height != 0
  }

  /** Stable insertion of `f` in front of every entry it does not exceed. */
  function Insert(f: VideoFile, sorted: seq<VideoFile>): (r: seq<VideoFile>)
    requires f.height != 0 && AllNonZeroHeight(sorted)
    ensures multiset(r) == multiset(sorted) + multiset{f}
    ensures AllNonZeroHeight(r)
  {
    if sorted == [] || Skew(f) <= Skew(sorted[0]) then [f] + sorted
    else
      assert sorted == [sorted[0]] + sorted[1..];
      [sorted[0]] + Insert(f, sorted[1..])
  }

  /** Python's stable `sorted(mp4s, key=Skew)`, as an insertion sort from the back. */
  function SortBySkew(s: seq<VideoFile>): (r: seq<VideoFile>)
    requires AllNonZeroHeight(s)
    ensures multiset(r) == multiset(s)
    ensures AllNonZeroHeight(r)
  {
    if s == [] then []
    else
      assert s == [s[0]] + s[1..];
      Insert(s[0], SortBySkew(s[1..]))
  }

  predicate SortedBySkew(s: seq<VideoFile>)
    requires AllNonZeroHeight(s)
  {
    forall i, j | 0 <= i < j < |s| :: Skew(s[i]) <= Skew(s[j])
  }

  /** `best_pexels_link(v)`: the link of the head of the sorted mp4 entries, or the exception it raises. */
  function BestPexelsLink(v: PexelsVideo): Result<string>
  {
    var mp4s := Mp4s(v.videoFiles);
    if !AllNonZeroHeight(mp4s) then Failure(ZeroHeightMessage)
    else
      var sorted := SortBySkew(mp4s);
      if sorted == [] then Failure(EmptyListMessage) else Success(sorted[0].link)
  }

  /** Every mp4 entry of `files` has a non-zero height, so its skew is defined. */
  predicate Mp4HeightsNonZero(files: seq<VideoFile>)
  {
    forall j | 0 <= j < |files| && IsMp4(files[j]) :: files[j].height != 0
  }

  /**
   * Index `i` of `files` holds the entry the rule picks: an mp4 whose skew is
   * not larger than any other mp4's, and strictly smaller than that of every
   * mp4 before it (the first in input order among ties).
   */
  predicate IsFirstClosest(files: seq<VideoFile>, i: int)
    requires Mp4HeightsNonZero(files)
  {
    && 0 <= i < |files| && IsMp4(files[i])
    && (forall j | 0 <= j < |files| && IsMp4(files[j]) :: Skew(files[i]) <= Skew(files[j]))
    && (forall j | 0 <= j < i && IsMp4(files[j]) :: Skew(files[j]) > Skew(files[i]))
  }

  lemma Mp4HeightsNonZeroFilter(files: seq<VideoFile>)
    ensures Mp4HeightsNonZero(files) <==> AllNonZeroHeight(Mp4s(files))
  {
    var mp4s := Mp4s(files);
    if Mp4HeightsNonZero(files) {
      forall k | 0 <= k < |mp4s| ensures mp4s[k].height != 0 {
        assert mp4s[k] in mp4s;
      }
    }
    if AllNonZeroHeight(mp4s) {
      forall j | 0 <= j < |files| && IsMp4(files[j]) ensures files[j].height != 0 {
        assert files[j] in mp4s;
      }
    }
  }

  lemma {:induction false} InsertHead(f: VideoFile, sorted: seq<VideoFile>)
    requires f.height != 0 && AllNonZeroHeight(sorted)
    ensures |Insert(f, sorted)| == |sorted| + 1
    ensures Insert(f, sorted)[0] == if sorted == [] || Skew(f) <= Skew(sorted[0]) then f else sorted[0]
  {
    var r := Insert(f, sorted);
    assert |r| == |multiset(r)| == |multiset(sorted)| + 1 == |sorted| + 1;
  }

  /** Inserting an entry no closer than `c` into entries no closer than `c` keeps them all no closer than `c`. */
  lemma {:induction false} InsertLowerBound(f: VideoFile, sorted: seq<VideoFile>, c: real)
    requires f.height != 0 && AllNonZeroHeight(sorted)
    requires c <= Skew(f) && forall i | 0 <= i < |sorted| :: c <= Skew(sorted[i])
    ensures forall i | 0 <= i < |Insert(f, sorted)| :: c <= Skew(Insert(f, sorted)[i])
  {
    if sorted != [] && Skew(sorted[0]) < Skew(f) {
      InsertLowerBound(f, sorted[1..], c);
    }
  }

  lemma {:induction false} InsertSorted(f: VideoFile, sorted: seq<VideoFile>)
    requires f.height != 0 && AllNonZeroHeight(sorted) && SortedBySkew(sorted)
    ensures SortedBySkew(Insert(f, sorted))
  {
    if sorted == [] || Skew(f) <= Skew(sorted[0]) {
    } else {
      var tail := sorted[1..];
      InsertSorted(f, tail);
      InsertLowerBound(f, tail, Skew(sorted[0]));
      var r := Insert(f, sorted);
      assert r == [sorted[0]] + Insert(f, tail);
    }
  }

  /** The stand-in for Python's `sorted` really sorts: ordered by skew, and a permutation of its input. */
  lemma {:induction false} SortBySkewSorts(s: seq<VideoFile>)
    requires AllNonZeroHeight(s)
    ensures multiset(SortBySkew(s)) == multiset(s)
    ensures SortedBySkew(SortBySkew(s))
  {
    if s != [] {
      SortBySkewSorts(s[1..]);
      InsertSorted(s[0], SortBySkew(s[1..]));
    }
  }

  /** A first-closest index of the tail stays one after a non-mp4 entry or a strictly worse mp4 entry. */
  lemma FirstClosestShift(f: VideoFile, rest: seq<VideoFile>, i: int)
    requires Mp4HeightsNonZero([f] + rest)
    ensures Mp4HeightsNonZero(rest) && (IsMp4(f) ==> f.height != 0)
    ensures IsFirstClosest(rest, i) && (!IsMp4(f) || Skew(f) > Skew(rest[i])) ==> IsFirstClosest([f] + rest, i + 1)
  {
    var files := [f] + rest;
    assert files[0] == f;
    forall j | 0 <= j < |rest| ensures rest[j] == files[j + 1] { }
  }

  /** An mp4 entry in front of a tail whose closest mp4 is not closer is the pick. */
  lemma FirstClosestFront(f: VideoFile, rest: seq<VideoFile>, i: int)
    requires Mp4HeightsNonZero([f] + rest) && IsMp4(f)
    ensures Mp4HeightsNonZero(rest) && f.height != 0
    ensures (IsFirstClosest(rest, i) && Skew(f) <= Skew(rest[i])) || (forall j | 0 <= j < |rest| :: !IsMp4(rest[j]))
            ==> IsFirstClosest([f] + rest, 0)
  {
    var files := [f] + rest;
    assert files[0] == f;
    forall j | 0 <= j < |rest| ensures rest[j] == files[j + 1] { }
  }

  lemma {:induction false} SortedHeadIsFirstClosest(files: seq<VideoFile>)
    requires Mp4HeightsNonZero(files)
    ensures AllNonZeroHeight(Mp4s(files))
    ensures SortBySkew(Mp4s(files)) == [] <==> forall j | 0 <= j < |files| :: !IsMp4(files[j])
    ensures SortBySkew(Mp4s(files)) != [] ==>
      exists i :: IsFirstClosest(files, i) && files[i] == SortBySkew(Mp4s(files))[0]
  {
    Mp4HeightsNonZeroFilter(files);
    var sorted := SortBySkew(Mp4s(files));
    assert |sorted| == |multiset(sorted)| == |multiset(Mp4s(files))| == |Mp4s(files)|;
    if files != [] {
      var f, rest := files[0], files[1..];
      assert files == [f] + rest;
      FirstClosestShift(f, rest, 0);
      SortedHeadIsFirstClosest(rest);
      var tail := SortBySkew(Mp4s(rest));
      if IsMp4(f) {
        assert Mp4s(files) == [f] + Mp4s(rest);
        assert sorted == Insert(f, tail);
        InsertHead(f, tail);
        if tail == [] {
          FirstClosestFront(f, rest, 0);
        } else {
          var i :| IsFirstClosest(rest, i) && rest[i] == tail[0];
          FirstClosestFront(f, rest, i);
          FirstClosestShift(f, rest, i);
        }
      } else {
        assert Mp4s(files) == Mp4s(rest);
        if tail != [] {
          var i :| IsFirstClosest(rest, i) && rest[i] == tail[0];
          FirstClosestShift(f, rest, i);
        } else {
          forall j | 0 <= j < |files| ensures !IsMp4(files[j]) {
            if j > 0 { assert files[j] == rest[j - 1]; }
          }
        }
      }
    }
  }

  /**
   * What `best_pexels_link` returns: it fails with the division error when some
   * mp4 entry has height 0, with the index error when there is no mp4 entry,
   * and otherwise yields the link of the first mp4 entry closest to 9:16.
   */
  lemma BestPexelsLinkChoice(v: PexelsVideo)
    ensures var files := v.videoFiles;
      && (!Mp4HeightsNonZero(files) <==> BestPexelsLink(v) == Failure(ZeroHeightMessage))
      && (BestPexelsLink(v) == Failure(EmptyListMessage) <==>
            Mp4HeightsNonZero(files) && forall j | 0 <= j < |files| :: !IsMp4(files[j]))
      && (BestPexelsLink(v).Success? <==>
            Mp4HeightsNonZero(files) && exists j | 0 <= j < |files| :: IsMp4(files[j]))
      && (BestPexelsLink(v).Success? ==>
            exists i :: IsFirstClosest(files, i) && BestPexelsLink(v).value == files[i].link)
  {
    Mp4HeightsNonZeroFilter(v.videoFiles);
    if Mp4HeightsNonZero(v.videoFiles) {
      SortedHeadIsFirstClosest(v.videoFiles);
    }
  }
}
