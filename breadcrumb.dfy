/** The breadcrumb trail (components/Breadcrumb.tsx): the path is split into
    its non-empty segments, and each segment adds an item whose link is the
    path up to and including it. */
module Breadcrumb {
  import opened Wrappers
  import opened Text
  import opened Seqs

  datatype Crumb = Crumb(name: string, href: string)

  /** `pathMapping`. */
  const PathMapping: map<string, string> := map[
    "/" := "Dashboard",
    "/pack/new" := "Create Question Pack",
    "/run" := "Test Runner",
    "/admin/catalog" := "Catalog Management",
    "/admin/projects" := "Project Management"
  ]

  const Home := Crumb("Dashboard", "/")

  function NonEmpty(): string -> bool {
    (s: string) => s != ""
  }

  /** `pathname.split('/').filter(Boolean)`. */
  function Segments(pathname: string): (r: seq<string>)
    ensures forall k :: 0 <= k < |r| ==> r[k] != "" && '/' !in r[k]
  {
    Filter(Split(pathname, '/'), NonEmpty())
  }

  /** A path written as "/" and non-empty segments splits back into them. */
  lemma SegmentsOfPath(segments: seq<string>)
    requires segments != []
    requires forall k :: 0 <= k < |segments| ==> segments[k] != "" && '/' !in segments[k]
    ensures Segments("/" + Join(segments, "/")) == segments
  {
    var rest := Join(segments, "/");
    TakeUntilJoined("", '/', rest);
    assert "/" + rest == "" + ['/'] + rest;
    assert ("/" + rest)[1..] == rest;
    SplitJoin(segments, '/');
    assert Split("/" + rest, '/') == [""] + segments;
    FilterConcat([""], segments, NonEmpty());
    FilterKeepsAll(segments, NonEmpty());
  }

  /** `segment.charAt(0).toUpperCase() + segment.slice(1)`. */
  function Capitalized(segment: string): (r: string)
    ensures |r| == |segment|
    ensures segment != "" ==> r[0] == Upper(segment[0]) && r[1..] == segment[1..]
  {
    if segment == "" then "" else [Upper(segment[0])] + segment[1..]
  }

  /** The link of the item for segment `k - 1`: "/" and the first `k`
      segments joined by "/". */
  function HrefUpTo(segments: seq<string>, k: nat): string
    requires 1 <= k <= |segments|
  {
    "/" + Join(segments[..k], "/")
  }

  /** The item for segment `k`: its mapped page name, else the segment
      capitalised. */
  function CrumbAt(segments: seq<string>, k: nat): (c: Crumb)
    requires k < |segments|
    ensures c.href == HrefUpTo(segments, k + 1)
    ensures c.href in PathMapping ==> c.name == PathMapping[c.href]
    ensures c.href !in PathMapping ==> c.name == Capitalized(segments[k])
  {
    NamedCrumb(HrefUpTo(segments, k + 1), segments[k])
  }

  /** The item linking to `href` for its last segment `segment`. */
  function NamedCrumb(href: string, segment: string): Crumb {
    Crumb(if href in PathMapping then PathMapping[href] else Capitalized(segment), href)
  }

  /** One item per segment, in order. */
  function Crumbs(segments: seq<string>): (r: seq<Crumb>)
    ensures |r| == |segments|
    ensures forall k :: 0 <= k < |segments| ==> r[k] == CrumbAt(segments, k)
  {
    seq(|segments|, k requires 0 <= k < |segments| => CrumbAt(segments, k))
  }

  /** The trail for a path: nothing on "/", otherwise the dashboard and one
      item per segment. */
  function Trail(pathname: string): (r: Option<seq<Crumb>>)
    ensures r.None? <==> pathname == "/"
    ensures r.Some? ==> r.value == [Home] + Crumbs(Segments(pathname))
  {
    if pathname == "/" then None else Some([Home] + Crumbs(Segments(pathname)))
  }

  /** The `forEach` that grows `currentPath` one segment at a time and pushes
      an item for each. */
  method BuildTrail(pathname: string) returns (items: Option<seq<Crumb>>)
    ensures items == Trail(pathname)
  {
    if pathname == "/" {
      return None;
    }
    var trail := BuildItems(Segments(pathname));
    items := Some(trail);
  }

  /** The loop of `BuildTrail` over the segments. */
  method BuildItems(segments: seq<string>) returns (trail: seq<Crumb>)
    ensures trail == [Home] + Crumbs(segments)
  {
    trail := [Home];
    var currentPath := "";
    for k := 0 to |segments|
      invariant trail == [Home] + Crumbs(segments)[..k]
      invariant currentPath == PathBefore(segments, k)
    {
      NextPath(segments, k);
      CrumbsGrow(segments, k);
      currentPath := currentPath + "/" + segments[k];
      var item := NamedCrumb(currentPath, segments[k]);
      trail := trail + [item];
    }
    assert Crumbs(segments)[..|segments|] == Crumbs(segments);
  }

  /** The items up to segment `k` extend those before it by one. */
  lemma CrumbsGrow(segments: seq<string>, k: nat)
    requires k < |segments|
    ensures Crumbs(segments)[..k + 1] == Crumbs(segments)[..k] + [CrumbAt(segments, k)]
  {
  }

  /** `currentPath` before segment `k` is added. */
  function PathBefore(segments: seq<string>, k: nat): string
    requires k <= |segments|
  {
    if k == 0 then "" else HrefUpTo(segments, k)
  }

  /** Adding "/" and segment `k` to the path before it gives the link of
      segment `k`'s item. */
  lemma NextPath(segments: seq<string>, k: nat)
    requires k < |segments|
    ensures PathBefore(segments, k) + "/" + segments[k] == HrefUpTo(segments, k + 1)
  {
    if k > 0 {
      LinksNest(segments, k);
    } else {
      assert segments[..1] == [segments[0]];
    }
  }

  /** Each item's link extends the one before it by a "/" and one segment. */
  lemma LinksNest(segments: seq<string>, k: nat)
    requires 1 <= k < |segments|
    ensures HrefUpTo(segments, k + 1) == HrefUpTo(segments, k) + "/" + segments[k]
  {
    JoinSnoc(segments[..k], segments[k], "/");
    assert segments[..k + 1] == segments[..k] + [segments[k]];
  }

  /** For a path written as "/" and non-empty segments, the last item links
      to the path itself: it is the current page, shown as plain text. */
  lemma LastItemIsCurrentPage(segments: seq<string>)
    requires segments != []
    requires forall k :: 0 <= k < |segments| ==> segments[k] != "" && '/' !in segments[k]
    ensures var pathname := "/" + Join(segments, "/");
      var trail := Trail(pathname);
      trail.Some? && trail.value[|trail.value| - 1].href == pathname
  {
    var pathname := "/" + Join(segments, "/");
    SegmentsOfPath(segments);
    JoinHasFirst(segments, "/");
    assert |pathname| > 1;
    var n := |segments|;
    var crumbs := Crumbs(segments);
    var trail := Trail(pathname);
    assert trail.value == [Home] + crumbs;
    assert trail.value[|trail.value| - 1] == crumbs[n - 1];
    assert crumbs[n - 1].href == HrefUpTo(segments, n);
    assert segments[..n] == segments;
  }

  /** A join is at least as long as its first part. */
  lemma JoinHasFirst(parts: seq<string>, sep: string)
    requires parts != []
    ensures |Join(parts, sep)| >= |parts[0]|
  {
  }
}
