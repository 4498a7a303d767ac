/**
 * Extraction of the resource key of a route: `getBasePath` splits the route on
 * '/', drops the empty segments and takes the first one that remains.
 */
module RoutePaths {
  import opened Wrappers

  const Slash: char := '/'

  /** No character of `s` is the separator. */
  predicate SlashFree(s: string) {
    forall i :: 0 <= i < |s| ==> s[i] != Slash
  }

  /** Every character of `s` is the separator (vacuously so for ""). */
  predicate AllSlashes(s: string) {
    forall i :: 0 <= i < |s| ==> s[i] == Slash
  }

  /** Glues segments back together with the separator between them. */
  function Join(segs: seq<string>): (s: string)
    requires |segs| >= 1
  {
    if |segs| == 1 then segs[0] else segs[0] + [Slash] + Join(segs[1..])
  }

  /**
   * `s.split('/')`: the maximal slash-free pieces between separators, so
   * that there is always one more piece than there are separators, and ""
   * splits into [""].
   */
  function Split(s: string): (segs: seq<string>)
    ensures |segs| >= 1
    ensures forall i :: 0 <= i < |segs| ==> SlashFree(segs[i])
    ensures Join(segs) == s
  {
    if s == [] then [[]]
    else if s[0] == Slash then [[]] + Split(s[1..])
    else
      var rest := Split(s[1..]);
      JoinConsHead(s[0], rest);
      [[s[0]] + rest[0]] + rest[1..]
  }

  /** Prepending a character to the first segment prepends it to the join. */
  lemma {:induction false} JoinConsHead(c: char, segs: seq<string>)
    requires |segs| >= 1
    ensures Join([[c] + segs[0]] + segs[1..]) == [c] + Join(segs)
  {
  }

  /** Split undoes Join on slash-free segments: the round trip in the other direction. */
  lemma {:induction false} SplitJoin(segs: seq<string>)
    requires |segs| >= 1
    requires forall i :: 0 <= i < |segs| ==> SlashFree(segs[i])
    ensures Split(Join(segs)) == segs
    decreases |segs|, |segs[0]|
  {
    if segs[0] == [] {
      if |segs| > 1 {
        var s := Join(segs);
        assert s == [Slash] + Join(segs[1..]);
        assert s[1..] == Join(segs[1..]);
        SplitJoin(segs[1..]);
        assert [segs[0]] + segs[1..] == segs;
      }
    } else {
      var c := segs[0][0];
      var tail := [segs[0][1..]] + segs[1..];
      assert segs[0] == [c] + segs[0][1..];
      assert tail[1..] == segs[1..];
      assert [[c] + tail[0]] + tail[1..] == segs;
      JoinConsHead(c, tail);
      var s := Join(segs);
      assert s == [c] + Join(tail);
      assert s[0] == c && s[1..] == Join(tail);
      SplitJoin(tail);
    }
  }

  /** `filter(i => i)`: keeps the segments that are not the empty (falsy) string, in order. */
  function NonEmptySegments(segs: seq<string>): (r: seq<string>)
    ensures forall i :: 0 <= i < |r| ==> r[i] != []
    ensures forall x :: x in r ==> x in segs
    ensures r == [] <==> AllEmpty(segs)
  {
    if segs == [] then []
    else if segs[0] == [] then NonEmptySegments(segs[1..])
    else [segs[0]] + NonEmptySegments(segs[1..])
  }

  /** Every segment of `segs` is the empty string. */
  predicate AllEmpty(segs: seq<string>) {
    forall j :: 0 <= j < |segs| ==> segs[j] == []
  }

  /** Filtering distributes over concatenation, so it keeps every non-empty segment in its original order. */
  lemma {:induction false} NonEmptySegmentsAppend(a: seq<string>, b: seq<string>)
    ensures NonEmptySegments(a + b) == NonEmptySegments(a) + NonEmptySegments(b)
  {
    if a != [] {
      assert (a + b)[0] == a[0] && (a + b)[1..] == a[1..] + b;
      NonEmptySegmentsAppend(a[1..], b);
    } else {
      assert a + b == b;
    }
  }

  /** Every non-empty segment is kept as often as it occurs, and no empty one is. */
  lemma {:induction false} NonEmptySegmentsCounts(segs: seq<string>)
    ensures multiset(NonEmptySegments(segs))[[]] == 0
    ensures forall x :: x != [] ==> multiset(NonEmptySegments(segs))[x] == multiset(segs)[x]
  {
    if segs != [] {
      NonEmptySegmentsCounts(segs[1..]);
      assert segs == [segs[0]] + segs[1..];
    }
  }

  /** The first segment kept is the first non-empty segment of the input. */
  lemma {:induction false} NonEmptySegmentsFirst(segs: seq<string>)
    requires NonEmptySegments(segs) != []
    ensures exists i :: 0 <= i < |segs| && NonEmptySegments(segs)[0] == segs[i] && AllEmpty(segs[..i])
  {
    if segs[0] == [] {
      NonEmptySegmentsFirst(segs[1..]);
      var i :| 0 <= i < |segs| - 1 && NonEmptySegments(segs[1..])[0] == segs[1..][i] && AllEmpty(segs[1..][..i]);
      assert segs[..i + 1] == [segs[0]] + segs[1..][..i];
      assert NonEmptySegments(segs)[0] == segs[i + 1];
    } else {
      assert segs[..0] == [];
    }
  }

  /** `getBasePath(route)`: the first non-empty segment, or `undefined` when there is none. */
  function BasePath(route: string): (b: Option<string>)
    ensures b.Some? ==> b.value != [] && SlashFree(b.value) && b.value in Split(route)
    ensures b.None? <==> AllEmpty(Split(route))
  {
    var parts := Split(route);
    var segs := NonEmptySegments(parts);
    if segs == [] then None
    else
      assert segs[0] in parts && forall x :: x in parts ==> SlashFree(x);
      Some(segs[0])
  }

  /** Number of separators at the start of `s`. */
  function LeadingSlashes(s: string): (k: nat)
    ensures k <= |s|
    ensures AllSlashes(s[..k])
    ensures k < |s| ==> s[k] != Slash
  {
    if s != [] && s[0] == Slash then 1 + LeadingSlashes(s[1..]) else 0
  }

  /** The characters of `s` up to (not including) the first separator. */
  function SegmentPrefix(s: string): (seg: string)
    ensures SlashFree(seg)
    ensures |seg| <= |s| && seg == s[..|seg|]
    ensures |seg| < |s| ==> s[|seg|] == Slash
  {
    if s == [] || s[0] == Slash then [] else [s[0]] + SegmentPrefix(s[1..])
  }

  /**
   * A direct reading of the resource key, independent of split and filter:
   * skip the leading separators; if nothing is left there is no key,
   * otherwise the key runs up to the next separator.
   */
  function ScanBasePath(route: string): Option<string> {
    var k := LeadingSlashes(route);
    if k == |route| then None else Some(SegmentPrefix(route[k..]))
  }

  /** The first piece of a split is everything up to the first separator. */
  lemma {:induction false} SplitHead(s: string)
    ensures Split(s)[0] == SegmentPrefix(s)
  {
    if s != [] && s[0] != Slash {
      SplitHead(s[1..]);
    }
  }

  /** Split-filter-first and the direct scan agree on every route. */
  lemma {:induction false} BasePathIsScan(route: string)
    ensures BasePath(route) == ScanBasePath(route)
  {
    if route == [] {
    } else if route[0] == Slash {
      BasePathIsScan(route[1..]);
      assert route[LeadingSlashes(route)..] == route[1..][LeadingSlashes(route[1..])..];
    } else {
      SplitHead(route[1..]);
      assert LeadingSlashes(route) == 0 && route[0..] == route;
    }
  }

  /** There is no resource key exactly when the route is made of separators only. */
  lemma NoBasePathIffAllSlashes(route: string)
    ensures BasePath(route).None? <==> AllSlashes(route)
  {
    BasePathIsScan(route);
    var k := LeadingSlashes(route);
    if k < |route| {
      assert route[k] != Slash;
    } else {
      assert route[..k] == route;
    }
  }

  /**
   * A resource key is never empty and never contains a separator, and it is
   * the stretch of the route right after the leading separators.
   */
  lemma BasePathShape(route: string)
    requires BasePath(route).Some?
    ensures var key, k := BasePath(route).value, LeadingSlashes(route);
      key != [] && SlashFree(key) && k + |key| <= |route| && route[k..k + |key|] == key
      && (k + |key| == |route| || route[k + |key|] == Slash)
  {
    BasePathIsScan(route);
    var k := LeadingSlashes(route);
    var key := SegmentPrefix(route[k..]);
    assert route[k..][0] != Slash;
    assert route[k..k + |key|] == route[k..][..|key|];
  }

  /** Separators in front of a route do not change its resource key. */
  lemma LeadingSlashIgnored(route: string)
    ensures BasePath([Slash] + route) == BasePath(route)
  {
  }

  /**
   * A route that starts with a non-empty slash-free segment, followed by
   * nothing or by a separator, has that segment as its resource key,
   * whatever comes after the separator.
   */
  lemma {:induction false} FirstSegmentIsBasePath(key: string, rest: string)
    requires key != [] && SlashFree(key)
    requires rest == [] || rest[0] == Slash
    ensures BasePath(key + rest) == Some(key)
  {
    BasePathIsScan(key + rest);
    assert LeadingSlashes(key + rest) == 0 && (key + rest)[0..] == key + rest;
    SegmentPrefixOf(key, rest);
  }

  /**
   * The usual spellings of a route, with the key "companies" say: "/companies",
   * "companies/", "//companies///5" and "/companies/3/edit" all have that key.
   */
  lemma RouteSpellings(key: string, route: string)
    requires key != [] && SlashFree(key)
    requires route in {[Slash] + key, key + [Slash], [Slash, Slash] + key + "///5", [Slash] + key + "/3/edit"}
    ensures BasePath(route) == Some(key)
  {
    if route == [Slash] + key {
      FirstSegmentIsBasePath(key, "");
      assert key + "" == key;
      LeadingSlashIgnored(key);
    } else if route == key + [Slash] {
      FirstSegmentIsBasePath(key, [Slash]);
    } else if route == [Slash, Slash] + key + "///5" {
      var rest := "///5";
      FirstSegmentIsBasePath(key, rest);
      LeadingSlashIgnored(key + rest);
      LeadingSlashIgnored([Slash] + (key + rest));
      assert route == [Slash] + ([Slash] + (key + rest));
    } else {
      var rest := "/3/edit";
      FirstSegmentIsBasePath(key, rest);
      LeadingSlashIgnored(key + rest);
      assert route == [Slash] + (key + rest);
    }
  }

  lemma {:induction false} SegmentPrefixOf(key: string, rest: string)
    requires SlashFree(key)
    requires rest == [] || rest[0] == Slash
    ensures SegmentPrefix(key + rest) == key
  {
    if key != [] {
      assert (key + rest)[1..] == key[1..] + rest;
      SegmentPrefixOf(key[1..], rest);
      assert [key[0]] + key[1..] == key;
    } else {
      assert key + rest == rest;
    }
  }
}
