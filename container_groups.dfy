/**
  Grouping of the flat container list by compose project, as
  `createContainerMap` does: every container is reduced to its display name
  and state and pushed onto the bucket of its project, a container without a
  project label going to the bucket "Unknown Project".
 */
module ContainerGroups {
  import opened Options
  import opened Strings
  import opened Portainer

  /** One entry of a bucket: the container's display name and its state, unchanged. */
  datatype ContainerInfo = ContainerInfo(name: string, state: string)

  type Groups = map<string, seq<ContainerInfo>>

  const UNKNOWN_PROJECT: string := "Unknown Project"

  /** The bucket key of a container: its project label, or the sentinel when the label is absent or empty. */
  function ProjectOf(c: Container): string {
    if PROJECT_LABEL in c.labels && c.labels[PROJECT_LABEL] != "" then c.labels[PROJECT_LABEL]
    else UNKNOWN_PROJECT
  }

  /** Reading `Names[0]` succeeds only when the container has a name. */
  predicate HasName(c: Container) {
    |c.names| > 0
  }

  predicate AllNamed(cs: seq<Container>) {
    forall i :: 0 <= i < |cs| ==> HasName(cs[i])
  }

  lemma AllNamedInit(cs: seq<Container>)
    requires AllNamed(cs) && cs != []
    ensures AllNamed(cs[..|cs| - 1]) && HasName(cs[|cs| - 1])
  {
    var init := cs[..|cs| - 1];
    forall i | 0 <= i < |init| ensures HasName(init[i]) { assert init[i] == cs[i]; }
  }

  /** The bucket entry of a container: its first name with the first '/' removed, and its state. */
  function Info(c: Container): ContainerInfo
    requires HasName(c)
  {
    ContainerInfo(RemoveFirst(c.names[0], '/'), c.state)
  }

  /** The entries of the containers of project `k`, in input order. */
  function Bucket(cs: seq<Container>, k: string): seq<ContainerInfo>
    requires AllNamed(cs)
  {
    if cs == [] then []
    else
      var c := cs[|cs| - 1];
      Bucket(cs[..|cs| - 1], k) + (if ProjectOf(c) == k then [Info(c)] else [])
  }

  /** Positions in `cs` of the containers of project `k`, ascending. */
  function Positions(cs: seq<Container>, k: string): seq<nat>
  {
    if cs == [] then []
    else
      Positions(cs[..|cs| - 1], k) + (if ProjectOf(cs[|cs| - 1]) == k then [|cs| - 1] else [])
  }

  function ProjectsOf(cs: seq<Container>): set<string> {
    set i | 0 <= i < |cs| :: ProjectOf(cs[i])
  }

  /** The intended result of grouping: one bucket per project that occurs, holding its containers. */
  function GroupsOf(cs: seq<Container>): Groups
    requires AllNamed(cs)
  {
    map k | k in ProjectsOf(cs) :: Bucket(cs, k)
  }

  /** Grouping as a value: it fails (the source throws) when some container has no name. */
  function Grouped(cs: seq<Container>): Option<Groups> {
    if AllNamed(cs) then Some(GroupsOf(cs)) else None
  }

  /** Pushing one container onto its bucket, creating the bucket when missing. */
  function Push(g: Groups, c: Container): Groups
    requires HasName(c)
  {
    var k := ProjectOf(c);
    g[k := (if k in g then g[k] else []) + [Info(c)]]
  }

  lemma {:induction false} BucketOfAbsentProject(cs: seq<Container>, k: string)
    requires AllNamed(cs)
    requires k !in ProjectsOf(cs)
    ensures Bucket(cs, k) == []
  {
    if cs != [] {
      var init := cs[..|cs| - 1];
      assert ProjectsOf(init) <= ProjectsOf(cs) by {
        forall x | x in ProjectsOf(init) ensures x in ProjectsOf(cs) {
          var i :| 0 <= i < |init| && ProjectOf(init[i]) == x;
          assert cs[i] == init[i];
        }
      }
      BucketOfAbsentProject(init, k);
      assert ProjectOf(cs[|cs| - 1]) in ProjectsOf(cs);
    }
  }

  lemma ProjectsOfSnoc(cs: seq<Container>, c: Container)
    ensures ProjectsOf(cs + [c]) == ProjectsOf(cs) + {ProjectOf(c)}
  {
    var cs' := cs + [c];
    forall x | x in ProjectsOf(cs') ensures x in ProjectsOf(cs) + {ProjectOf(c)} {
      var i :| 0 <= i < |cs'| && ProjectOf(cs'[i]) == x;
      if i < |cs| { assert cs'[i] == cs[i]; }
    }
    forall x | x in ProjectsOf(cs) ensures x in ProjectsOf(cs') {
      var i :| 0 <= i < |cs| && ProjectOf(cs[i]) == x;
      assert cs'[i] == cs[i];
    }
    assert cs'[|cs|] == c;
  }

  /** Grouping a list extended by one container pushes that container onto its bucket. */
  lemma {:induction false} GroupsOfSnoc(cs: seq<Container>, c: Container)
    requires AllNamed(cs) && HasName(c)
    ensures AllNamed(cs + [c])
    ensures GroupsOf(cs + [c]) == Push(GroupsOf(cs), c)
  {
    var cs' := cs + [c];
    assert cs'[..|cs'| - 1] == cs;
    assert AllNamed(cs') by {
      forall i | 0 <= i < |cs'| ensures HasName(cs'[i]) {
        if i < |cs| { assert cs'[i] == cs[i]; }
      }
    }
    var g, g', p := GroupsOf(cs), GroupsOf(cs'), Push(GroupsOf(cs), c);
    ProjectsOfSnoc(cs, c);
    assert g'.Keys == p.Keys;
    forall k | k in g' ensures g'[k] == p[k] {
      assert g'[k] == Bucket(cs, k) + (if ProjectOf(c) == k then [Info(c)] else []);
      if k !in ProjectsOf(cs) {
        BucketOfAbsentProject(cs, k);
      }
    }
  }

  /**
    The loop of `createContainerMap`: reduce the list into a dictionary,
    creating a bucket for a project on its first container and pushing every
    container onto its project's bucket. A container without a name makes the
    source throw; the result is then `None`.
   */
  method CreateContainerMap(cs: seq<Container>) returns (groups: Option<Groups>)
    ensures groups == Grouped(cs)
  {
    var m: Groups := map[];
    var i := 0;
    while i < |cs|
      invariant 0 <= i <= |cs|
      invariant AllNamed(cs[..i])
      invariant m == GroupsOf(cs[..i])
    {
      var c := cs[i];
      if |c.names| == 0 {
        assert !HasName(cs[i]);
        return None;
      }
      ghost var before := m;
      var project := ProjectOf(c);
      if project !in m {
        m := m[project := []];
      }
      m := m[project := m[project] + [Info(c)]];
      assert m == Push(before, c);
      assert cs[..i + 1] == cs[..i] + [c];
      GroupsOfSnoc(cs[..i], c);
      i := i + 1;
    }
    assert cs[..i] == cs;
    return Some(m);
  }

  lemma {:induction false} PositionsExact(cs: seq<Container>, k: string)
    ensures forall j :: 0 <= j < |Positions(cs, k)| ==> Positions(cs, k)[j] < |cs|
    ensures forall j, j' :: 0 <= j < j' < |Positions(cs, k)| ==> Positions(cs, k)[j] < Positions(cs, k)[j']
    ensures forall i :: 0 <= i < |cs| ==> (i in Positions(cs, k) <==> ProjectOf(cs[i]) == k)
  {
    if cs != [] {
      var n := |cs| - 1;
      var init := cs[..n];
      PositionsExact(init, k);
      forall i | 0 <= i < n ensures init[i] == cs[i] { }
      var p0 := Positions(init, k);
      var p := Positions(cs, k);
      assert p == p0 + (if ProjectOf(cs[n]) == k then [n] else []);
      assert n !in p0;
    }
  }

  lemma {:induction false} BucketAtPositions(cs: seq<Container>, k: string)
    requires AllNamed(cs)
    ensures |Bucket(cs, k)| == |Positions(cs, k)|
    ensures forall j :: 0 <= j < |Positions(cs, k)| ==>
              Positions(cs, k)[j] < |cs| && Bucket(cs, k)[j] == Info(cs[Positions(cs, k)[j]])
  {
    if cs != [] {
      var n := |cs| - 1;
      var init := cs[..n];
      AllNamedInit(cs);
      BucketAtPositions(init, k);
      forall i | 0 <= i < n ensures init[i] == cs[i] { }
    }
  }

  /**
    Each bucket lists exactly the containers of its project, in input order:
    the j-th entry comes from the j-th position (ascending) whose container
    has that project, and a position is listed iff its container has that
    project. Hence every container is in exactly one bucket.
   */
  lemma BucketKeepsOrder(cs: seq<Container>, k: string)
    requires AllNamed(cs)
    ensures |Bucket(cs, k)| == |Positions(cs, k)|
    ensures forall j :: 0 <= j < |Positions(cs, k)| ==>
              Positions(cs, k)[j] < |cs| && Bucket(cs, k)[j] == Info(cs[Positions(cs, k)[j]])
    ensures forall j, j' :: 0 <= j < j' < |Positions(cs, k)| ==> Positions(cs, k)[j] < Positions(cs, k)[j']
    ensures forall i :: 0 <= i < |cs| ==> (i in Positions(cs, k) <==> ProjectOf(cs[i]) == k)
  {
    PositionsExact(cs, k);
    BucketAtPositions(cs, k);
  }

  /** A container lands in the bucket of its label, or of "Unknown Project" when the label is absent or empty. */
  lemma ContainerLandsInItsBucket(cs: seq<Container>, i: nat)
    requires AllNamed(cs) && i < |cs|
    ensures var k := if PROJECT_LABEL in cs[i].labels && cs[i].labels[PROJECT_LABEL] != ""
                     then cs[i].labels[PROJECT_LABEL] else UNKNOWN_PROJECT;
            k in GroupsOf(cs) && Info(cs[i]) in GroupsOf(cs)[k]
  {
    var k := ProjectOf(cs[i]);
    BucketKeepsOrder(cs, k);
    var j :| 0 <= j < |Positions(cs, k)| && Positions(cs, k)[j] == i;
    assert Bucket(cs, k)[j] == Info(cs[i]);
  }

  /** Every key of the grouping is the project of some container. */
  lemma GroupKeysAreProjects(cs: seq<Container>)
    requires AllNamed(cs)
    ensures forall k :: k in GroupsOf(cs) <==> exists i :: 0 <= i < |cs| && ProjectOf(cs[i]) == k
  {
  }

  /** The total number of entries over all buckets of a grouping. */
  ghost function TotalSize(g: Groups): nat
    decreases |g|
  {
    if g == map[] then 0
    else
      var k :| k in g;
      |g[k]| + TotalSize(g - {k})
  }

  lemma {:induction false} TotalSizeRemove(g: Groups, x: string)
    requires x in g
    ensures TotalSize(g) == |g[x]| + TotalSize(g - {x})
    decreases |g|
  {
    var k :| k in g && TotalSize(g) == |g[k]| + TotalSize(g - {k});
    if k != x {
      TotalSizeRemove(g - {k}, x);
      TotalSizeRemove(g - {x}, k);
      assert g - {k} - {x} == g - {x} - {k};
    }
  }

  lemma GroupsOfLast(cs: seq<Container>)
    requires AllNamed(cs) && cs != []
    ensures AllNamed(cs[..|cs| - 1]) && HasName(cs[|cs| - 1])
    ensures GroupsOf(cs) == Push(GroupsOf(cs[..|cs| - 1]), cs[|cs| - 1])
  {
    var init, c := cs[..|cs| - 1], cs[|cs| - 1];
    AllNamedInit(cs);
    GroupsOfSnoc(init, c);
    assert init + [c] == cs;
  }

  lemma TotalSizePush(g: Groups, c: Container)
    requires HasName(c)
    ensures TotalSize(Push(g, c)) == TotalSize(g) + 1
  {
    var k := ProjectOf(c);
    var g' := Push(g, c);
    TotalSizeRemove(g', k);
    assert g' - {k} == g - {k};
    if k in g {
      TotalSizeRemove(g, k);
    } else {
      assert g - {k} == g;
    }
  }

  /** Grouping partitions its input: the bucket sizes add up to the number of containers. */
  lemma {:induction false} GroupSizesSum(cs: seq<Container>)
    requires AllNamed(cs)
    ensures TotalSize(GroupsOf(cs)) == |cs|
    decreases |cs|
  {
    if cs != [] {
      var init := cs[..|cs| - 1];
      GroupsOfLast(cs);
      GroupSizesSum(init);
      TotalSizePush(GroupsOf(init), cs[|cs| - 1]);
    }
  }
}
