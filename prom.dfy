/**
 * The status-timeline engine of pkg/prom/prom.go: per-target resolution of
 * "up since" / "down since" from four history lookups, grouping of the
 * resolved instances by application, the display order of applications and
 * instances, and the reduction of a combined query into one sample.
 *
 * The metrics backend is abstract: the targets come in as a value, each
 * history lookup is answered by an oracle `Backend`, and an instant query is
 * represented by its answer `QueryAnswer`.
 */
module Prom {
  import opened Wrappers
  import opened Sorting
  import opened Lex

  // ---------------------------------------------------------------------
  // Time, as the source uses Go's time.Time and time.Duration
  // ---------------------------------------------------------------------

  const NanosPerSecond: int := 1_000_000_000
  /** Bounds of time.Duration, an int64 count of nanoseconds. */
  const MinDuration: int := -0x8000_0000_0000_0000
  const MaxDuration: int := 0x7fff_ffff_ffff_ffff
  /** Go's zero time, 0001-01-01 00:00:00 UTC, in seconds from the Unix epoch. */
  const ZeroTimeUnix: int := -62135596800

  /** A time.Time as the source produces one: the zero value, or time.Unix(s, 0). */
  datatype Time = ZeroTime | Unix(seconds: int)

  function UnixSeconds(t: Time): int {
    match t
    case ZeroTime => ZeroTimeUnix
    case Unix(s) => s
  }

  /** `end.Sub(start)`: the difference in nanoseconds, saturated to time.Duration. */
  function Sub(end: Time, start: Time): (d: int)
    ensures MinDuration <= d <= MaxDuration
    ensures d < 0 <==> UnixSeconds(end) < UnixSeconds(start)
    ensures var exact := (UnixSeconds(end) - UnixSeconds(start)) * NanosPerSecond;
      MinDuration <= exact <= MaxDuration ==> d == exact
  {
    var exact := (UnixSeconds(end) - UnixSeconds(start)) * NanosPerSecond;
    if exact < MinDuration then MinDuration
    else if exact > MaxDuration then MaxDuration
    else exact
  }

  // ---------------------------------------------------------------------
  // Status
  // ---------------------------------------------------------------------

  /** `Status` is a byte; its zero value is neither Up nor Down. */
  newtype Status = b: int | 0 <= b < 256
  const StatusUp: Status := 1
  const StatusDown: Status := 2

  /** `Status.String`, also the JSON form of a status. */
  function StatusString(s: Status): (r: string)
    ensures r == "UP" <==> s == StatusUp
    ensures r == "DOWN" <==> s == StatusDown
    ensures r == "UNKNOWN" <==> s != StatusUp && s != StatusDown
  {
    if s == StatusUp then "UP"
    else if s == StatusDown then "DOWN"
    else "UNKNOWN"
  }

  // ---------------------------------------------------------------------
  // Backend answers
  // ---------------------------------------------------------------------

  /** One element of a result vector: labels, value and timestamp. */
  datatype Point = Point(labels: map<string, string>, value: int, timestamp: int)

  /** What an instant query returns: an error, a value of another shape, or a vector. */
  datatype QueryAnswer = QueryErr | NonVector | Vec(points: seq<Point>)

  datatype QueryError = BackendError | CannotConvertToVector

  /** `Vector`: the answer as a result vector, or the error that explains why not. */
  function Vector(answer: QueryAnswer): (r: Result<seq<Point>, QueryError>)
    ensures r.Success? <==> answer.Vec?
    ensures r.Success? ==> r.value == answer.points
    ensures answer.NonVector? ==> r.error == CannotConvertToVector
  {
    match answer
    case QueryErr => Failure(BackendError)
    case NonVector => Failure(CannotConvertToVector)
    case Vec(points) => Success(points)
  }

  /** The four history lookups over the 15-day window. */
  datatype History = FirstUp | LastUp | FirstDown | LastDown

  /** The backend's answer to a history lookup for (kind, job, instance). */
  type Backend = (History, string, string) -> QueryAnswer

  /**
   * `FirstUpTime`, `LastUpTime`, `FirstDownTime` and `LastDownTime`: the
   * first element's value as whole seconds; any failure gives the zero time,
   * and the error returned is always nil.
   */
  function HistoryTime(backend: Backend, kind: History, job: string, addr: string): (r: (Time, Option<QueryError>))
    ensures r.1 == None
    ensures var answer := backend(kind, job, addr);
      && (r.0 == ZeroTime <==> !answer.Vec? || answer.points == [])
      && (r.0.Unix? ==> r.0.seconds == answer.points[0].value)
  {
    match Vector(backend(kind, job, addr))
    case Failure(_) => (ZeroTime, None)
    case Success(vector) =>
      if |vector| == 0 then (ZeroTime, None) else (Unix(vector[0].value), None)
  }

  // ---------------------------------------------------------------------
  // Per-target resolution
  // ---------------------------------------------------------------------

  datatype Health = HealthGood | HealthBad | HealthUnknown

  /** An active target: its `app`, `job` and `instance` labels and its live health. */
  datatype Target = Target(app: string, job: string, instance: string, health: Health)

  datatype Instance = Instance(name: string, addr: string, status: Status, time: Time, duration: int)

  /** The body of the loop over active targets that builds one Instance. */
  function Resolve(t: Target, backend: Backend): (inst: Instance)
    ensures inst.name == t.job && inst.addr == t.instance
    ensures inst.status == StatusUp <==> t.health == HealthGood
    ensures inst.status == StatusDown <==> t.health == HealthBad
    ensures 0 <= inst.duration <= MaxDuration
    ensures t.health != HealthGood ==> inst.duration == 0
    ensures t.health == HealthUnknown ==> inst.time == ZeroTime && StatusString(inst.status) == "UNKNOWN"
  {
    match t.health
    case HealthGood =>
      var lastDown := HistoryTime(backend, LastDown, t.job, t.instance).0;
      var start := if lastDown.ZeroTime? then HistoryTime(backend, FirstUp, t.job, t.instance).0 else lastDown;
      var end := HistoryTime(backend, LastUp, t.job, t.instance).0;
      var duration := Sub(end, start);
      Instance(t.job, t.instance, StatusUp, start, if duration < 0 then 0 else duration)
    case HealthBad =>
      var lastUp := HistoryTime(backend, LastUp, t.job, t.instance).0;
      var tm := if lastUp.ZeroTime? then HistoryTime(backend, FirstDown, t.job, t.instance).0 else lastUp;
      Instance(t.job, t.instance, StatusDown, tm, 0)
    case HealthUnknown =>
      Instance(t.job, t.instance, 0, ZeroTime, 0)
  }

  /**
   * A healthy target is up since its last down sample, or since its first up
   * sample when no down sample was found; its duration runs to the last up
   * sample and is clamped at zero.
   */
  lemma HealthyTimeline(t: Target, backend: Backend)
    requires t.health == HealthGood
    ensures var inst := Resolve(t, backend);
      var lastDown := HistoryTime(backend, LastDown, t.job, t.instance).0;
      var firstUp := HistoryTime(backend, FirstUp, t.job, t.instance).0;
      var lastUp := HistoryTime(backend, LastUp, t.job, t.instance).0;
      && inst.status == StatusUp
      && inst.time == (if lastDown.Unix? then lastDown else firstUp)
      && (inst.time.Unix? && lastUp.Unix? && (lastUp.seconds - inst.time.seconds) * NanosPerSecond <= MaxDuration ==>
            inst.duration == if lastUp.seconds <= inst.time.seconds then 0
                             else (lastUp.seconds - inst.time.seconds) * NanosPerSecond)
  {
  }

  /** An unhealthy target is down since its last up sample, or else its first down sample. */
  lemma UnhealthyTimeline(t: Target, backend: Backend)
    requires t.health == HealthBad
    ensures var inst := Resolve(t, backend);
      var lastUp := HistoryTime(backend, LastUp, t.job, t.instance).0;
      var firstDown := HistoryTime(backend, FirstDown, t.job, t.instance).0;
      && inst.status == StatusDown
      && inst.time == (if lastUp.Unix? then lastUp else firstDown)
      && inst.duration == 0
  {
  }

  // ---------------------------------------------------------------------
  // Grouping by application
  // ---------------------------------------------------------------------

  datatype App = App(name: string, instances: seq<Instance>)

  /** Position of the first app called `name` in `apps`, or -1 if there is none. */
  function IndexOfApp(apps: seq<App>, name: string): (k: int)
    ensures -1 <= k < |apps|
    ensures k >= 0 ==> apps[k].name == name
    ensures forall j :: 0 <= j < |apps| && (k < 0 || j < k) ==> apps[j].name != name
  {
    if apps == [] then -1
    else if apps[0].name == name then 0
    else
      var k := IndexOfApp(apps[1..], name);
      if k < 0 then -1 else k + 1
  }

  /**
   * Appends `inst` to the first app named `name`, or starts a new app with it:
   * existing apps keep their names and places, apps of other names are
   * untouched, and a new app is added only when no app has the name.
   */
  function AddInstance(apps: seq<App>, name: string, inst: Instance): (r: seq<App>)
    ensures |r| == |apps| + (if IndexOfApp(apps, name) < 0 then 1 else 0)
    ensures forall j :: 0 <= j < |apps| ==> r[j].name == apps[j].name
    ensures forall j :: 0 <= j < |apps| && apps[j].name != name ==> r[j] == apps[j]
    ensures |r| > |apps| ==> r[|apps|] == App(name, [inst])
  {
    var k := IndexOfApp(apps, name);
    if k >= 0 then apps[k := apps[k].(instances := apps[k].instances + [inst])]
    else apps + [App(name, [inst])]
  }

  /** The apps the scan-and-append loop has built after the given targets. */
  function Grouped(targets: seq<Target>, backend: Backend): seq<App> {
    if targets == [] then []
    else
      var last := targets[|targets| - 1];
      AddInstance(Grouped(targets[..|targets| - 1], backend), last.app, Resolve(last, backend))
  }

  /** The instances of the app called `name`, or none. */
  function InstancesOf(apps: seq<App>, name: string): seq<Instance> {
    var k := IndexOfApp(apps, name);
    if k < 0 then [] else apps[k].instances
  }

  /** The resolved instances of the targets labelled with app `name`, in target order. */
  function ResolvedFor(targets: seq<Target>, name: string, backend: Backend): seq<Instance> {
    if targets == [] then []
    else
      var last := targets[|targets| - 1];
      ResolvedFor(targets[..|targets| - 1], name, backend) + (if last.app == name then [Resolve(last, backend)] else [])
  }

  ghost predicate DistinctNames(apps: seq<App>) {
    forall p, q :: 0 <= p < q < |apps| ==> apps[p].name != apps[q].name
  }

  function TotalInstances(apps: seq<App>): nat {
    if apps == [] then 0 else TotalInstances(apps[..|apps| - 1]) + |apps[|apps| - 1].instances|
  }

  function AppLabels(targets: seq<Target>): set<string> {
    set i | 0 <= i < |targets| :: targets[i].app
  }

  lemma IndexOfDistinct(apps: seq<App>, m: int)
    requires DistinctNames(apps) && 0 <= m < |apps|
    ensures IndexOfApp(apps, apps[m].name) == m
  {
  }

  lemma AddInstanceBucket(apps: seq<App>, name: string, inst: Instance, n: string)
    ensures InstancesOf(AddInstance(apps, name, inst), n) == InstancesOf(apps, n) + (if n == name then [inst] else [])
  {
    var k := IndexOfApp(apps, name);
    var r := AddInstance(apps, name, inst);
    if k >= 0 {
      assert forall j :: 0 <= j < |apps| ==> r[j].name == apps[j].name;
      assert IndexOfApp(r, n) == IndexOfApp(apps, n);
    } else {
      assert forall j :: 0 <= j < |apps| ==> r[j] == apps[j];
      if n == name {
        assert r[|apps|].name == n;
        assert IndexOfApp(r, n) == |apps|;
      } else {
        assert IndexOfApp(r, n) == IndexOfApp(apps, n);
      }
    }
  }

  /** Each app collects exactly its targets' instances, in the order the targets came. */
  lemma {:induction false} GroupedBucket(targets: seq<Target>, backend: Backend, name: string)
    ensures InstancesOf(Grouped(targets, backend), name) == ResolvedFor(targets, name, backend)
  {
    if targets != [] {
      var last := targets[|targets| - 1];
      GroupedBucket(targets[..|targets| - 1], backend, name);
      AddInstanceBucket(Grouped(targets[..|targets| - 1], backend), last.app, Resolve(last, backend), name);
    }
  }

  lemma {:induction false} TotalInstancesUpdate(apps: seq<App>, k: int, a: App)
    requires 0 <= k < |apps|
    ensures TotalInstances(apps[k := a]) + |apps[k].instances| == TotalInstances(apps) + |a.instances|
  {
    var n := |apps|;
    if k < n - 1 {
      assert apps[k := a][..n - 1] == apps[..n - 1][k := a];
      TotalInstancesUpdate(apps[..n - 1], k, a);
    } else {
      assert apps[k := a][..n - 1] == apps[..n - 1];
    }
  }

  function NameSet(apps: seq<App>): set<string> {
    set k | 0 <= k < |apps| :: apps[k].name
  }

  ghost predicate NoEmptyApp(apps: seq<App>) {
    forall k :: 0 <= k < |apps| ==> apps[k].instances != []
  }

  /** One step of the scan-and-append loop keeps names distinct and apps non-empty, and adds one instance. */
  lemma AddInstanceShape(apps: seq<App>, name: string, inst: Instance)
    ensures var r := AddInstance(apps, name, inst);
      && NameSet(r) == NameSet(apps) + {name}
      && (DistinctNames(apps) ==> DistinctNames(r))
      && (NoEmptyApp(apps) ==> NoEmptyApp(r))
      && TotalInstances(r) == TotalInstances(apps) + 1
  {
    var r := AddInstance(apps, name, inst);
    var k := IndexOfApp(apps, name);
    if k >= 0 {
      TotalInstancesUpdate(apps, k, r[k]);
      assert forall j :: 0 <= j < |r| ==> r[j].name == apps[j].name;
      assert NameSet(r) == NameSet(apps);
    } else {
      assert r[..|r| - 1] == apps;
      assert forall j :: 0 <= j < |apps| ==> r[j] == apps[j];
      assert r[|apps|].name == name;
      assert NameSet(r) == NameSet(apps) + {name};
    }
  }

  lemma AppLabelsSnoc(targets: seq<Target>)
    requires targets != []
    ensures AppLabels(targets) == AppLabels(targets[..|targets| - 1]) + {targets[|targets| - 1].app}
  {
    var init := targets[..|targets| - 1];
    assert forall i :: 0 <= i < |init| ==> init[i] == targets[i];
  }

  /**
   * The grouping gives distinct app names, only non-empty apps, one app per
   * app label of the targets, and exactly one instance per target.
   */
  lemma {:induction false} GroupedShape(targets: seq<Target>, backend: Backend)
    ensures var g := Grouped(targets, backend);
      && DistinctNames(g)
      && NoEmptyApp(g)
      && NameSet(g) == AppLabels(targets)
      && TotalInstances(g) == |targets|
  {
    if targets != [] {
      var init := targets[..|targets| - 1];
      var last := targets[|targets| - 1];
      GroupedShape(init, backend);
      AppLabelsSnoc(targets);
      AddInstanceShape(Grouped(init, backend), last.app, Resolve(last, backend));
    }
  }

  // ---------------------------------------------------------------------
  // Display order
  // ---------------------------------------------------------------------

  const MaxUint8: int := 255

  /** The applications with a fixed place, in display order. */
  const KnownApps: seq<string> := ["go", "java", "mysql", "redis", "windows", "linux"]

  /** `number`: the display rank of an app's first job name. */
  function Number(name: string): (r: int)
    ensures 1 <= r <= MaxUint8
    ensures r == MaxUint8 <==> name == "prom"
    ensures r == MaxUint8 - 1 <==> name != "prom" && name !in KnownApps
    ensures forall k :: 0 <= k < |KnownApps| ==> (r == k + 1 <==> name == KnownApps[k])
  {
    if name == "go" then 1
    else if name == "java" then 2
    else if name == "mysql" then 3
    else if name == "redis" then 4
    else if name == "windows" then 5
    else if name == "linux" then 6
    else if name == "prom" then MaxUint8
    else MaxUint8 - 1
  }

  /**
   * The display order: the known apps in their listed order, then any other
   * name, then "prom".
   */
  lemma DisplayOrder(other: string)
    requires other != "prom" && other !in KnownApps
    ensures forall i, j :: 0 <= i < j < |KnownApps| ==> Number(KnownApps[i]) < Number(KnownApps[j])
    ensures Number(KnownApps[|KnownApps| - 1]) < Number(other) < Number("prom")
  {
  }

  /**
   * The sort key of an app: `number` of its first instance's job name. The
   * grouping never yields an app without instances (GroupedShape); the
   * source would fail on one.
   */
  function AppRank(app: App): (r: int)
    ensures 1 <= r <= MaxUint8
    ensures app.instances != [] ==> r == Number(app.instances[0].name)
  {
    if app.instances == [] then MaxUint8 - 1 else Number(app.instances[0].name)
  }

  /** The sort key of the app called `name` among the grouped apps `g`. */
  function RankIn(g: seq<App>, name: string): int {
    var k := IndexOfApp(g, name);
    if k < 0 then 0 else AppRank(g[k])
  }

  ghost predicate SortedByAddr(s: seq<Instance>) {
    forall i, j :: 0 <= i < j < |s| ==> Leq(s[i].addr, s[j].addr)
  }

  /**
   * `r` is the grouped apps `g` in display order: the same apps (as many,
   * distinct, each one of `g`), each holding a permutation of its instances
   * sorted by address, the apps ordered by the rank of their first-inserted
   * instance (apps are sorted before their instances are).
   */
  ghost predicate Arranged(r: seq<App>, g: seq<App>) {
    && |r| == |g|
    && DistinctNames(r)
    && (forall i :: 0 <= i < |r| ==> IndexOfApp(g, r[i].name) >= 0)
    && (forall i :: 0 <= i < |r| ==> multiset(r[i].instances) == multiset(InstancesOf(g, r[i].name)))
    && (forall i, j :: 0 <= i < j < |r| ==> RankIn(g, r[i].name) <= RankIn(g, r[j].name))
    && (forall i :: 0 <= i < |r| ==> SortedByAddr(r[i].instances))
  }

  lemma ArrangeSorted(g: seq<App>, s: seq<App>, perm: seq<nat>, r: seq<App>)
    requires DistinctNames(g)
    requires IsPermutation(perm, |g|) && |s| == |g|
    requires forall k :: 0 <= k < |s| ==> s[k] == g[perm[k]]
    requires forall i, j :: 0 <= i < j < |s| ==> AppRank(s[i]) <= AppRank(s[j])
    requires |r| == |s|
    requires forall k :: 0 <= k < |r| ==>
      r[k].name == s[k].name && multiset(r[k].instances) == multiset(s[k].instances) && SortedByAddr(r[k].instances)
    ensures Arranged(r, g)
  {
    forall k | 0 <= k < |r|
      ensures IndexOfApp(g, r[k].name) == perm[k]
    {
      IndexOfDistinct(g, perm[k]);
    }
  }

  lemma AddrOrderIsTotalPreorder()
    ensures TotalPreorder((x: Instance, y: Instance) => Leq(x.addr, y.addr))
  {
    LeqTotalPreorder();
    var leq := (x: string, y: string) => Leq(x, y);
    assert forall x: Instance, y: Instance :: leq(x.addr, y.addr) == Leq(x.addr, y.addr);
  }

  /** The inner `sort.Slice` of `Apps`: one app's instances, ordered by address. */
  method SortByAddr(instances: seq<Instance>) returns (sorted: seq<Instance>)
    ensures multiset(sorted) == multiset(instances)
    ensures SortedByAddr(sorted)
  {
    var a := new Instance[|instances|](k requires 0 <= k < |instances| => instances[k]);
    assert a[..] == instances;
    AddrOrderIsTotalPreorder();
    ghost var perm := SortSlice(a, (x: Instance, y: Instance) => Leq(x.addr, y.addr));
    sorted := a[..];
  }

  /**
   * The grouping loop of `Apps`: each target's instance is appended to the
   * first app with its app name, or starts a new app.
   */
  method GroupTargets(active: seq<Target>, backend: Backend) returns (apps: seq<App>)
    ensures apps == Grouped(active, backend)
  {
    apps := [];
    var i := 0;
    while i < |active|
      invariant 0 <= i <= |active|
      invariant apps == Grouped(active[..i], backend)
    {
      var act := active[i];
      var instance := Resolve(act, backend);
      var j := 0;
      while j < |apps| && apps[j].name != act.app
        invariant 0 <= j <= |apps|
        invariant forall k :: 0 <= k < j ==> apps[k].name != act.app
      {
        j := j + 1;
      }
      if j < |apps| {
        apps := apps[j := apps[j].(instances := apps[j].instances + [instance])];
      } else {
        apps := apps + [App(act.app, [instance])];
      }
      assert active[..i + 1][..i] == active[..i];
      i := i + 1;
    }
    assert active[..|active|] == active;
  }

  /**
   * The sorting step of `Apps`: apps by the rank of their first instance's
   * job name, then each app's instances by address.
   */
  method Arrange(apps: seq<App>) returns (ordered: seq<App>)
    requires DistinctNames(apps)
    ensures Arranged(ordered, apps)
  {
    var arr := new App[|apps|](k requires 0 <= k < |apps| => apps[k]);
    assert arr[..] == apps;
    ghost var perm := SortSlice(arr, (x: App, y: App) => AppRank(x) <= AppRank(y));
    ghost var sorted := arr[..];

    ordered := arr[..];
    var n := 0;
    while n < |ordered|
      invariant 0 <= n <= |ordered| == |sorted|
      invariant forall k :: n <= k < |ordered| ==> ordered[k] == sorted[k]
      invariant forall k :: 0 <= k < n ==>
        ordered[k].name == sorted[k].name && multiset(ordered[k].instances) == multiset(sorted[k].instances)
        && SortedByAddr(ordered[k].instances)
    {
      var instances := SortByAddr(ordered[n].instances);
      ordered := ordered[n := ordered[n].(instances := instances)];
      n := n + 1;
    }
    ArrangeSorted(apps, sorted, perm, ordered);
  }

  /**
   * `Apps`: resolve every active target, group the instances by app name,
   * sort the apps by rank and then each app's instances by address. A failed
   * target discovery is returned as the error.
   */
  method Apps(discovery: Result<seq<Target>, QueryError>, backend: Backend) returns (r: Result<seq<App>, QueryError>)
    ensures discovery.Failure? ==> r == Failure(discovery.error)
    ensures discovery.Success? ==> r.Success? && Arranged(r.value, Grouped(discovery.value, backend))
  {
    if discovery.Failure? {
      return Failure(discovery.error);
    }
    var apps := GroupTargets(discovery.value, backend);
    GroupedShape(discovery.value, backend);
    var ordered := Arrange(apps);
    r := Success(ordered);
  }

  // ---------------------------------------------------------------------
  // Combined-query snapshot
  // ---------------------------------------------------------------------

  /** `Sample`: a timestamp and one value per "<instance>,<name>" key. */
  datatype Sample = Sample(timestamp: int, value: map<string, int>)

  /** A label of a point; a missing label reads as "" (Go map semantics). */
  function Label(p: Point, key: string): string {
    if key in p.labels then p.labels[key] else ""
  }

  /** The key of a point in a sample: "<instance>,<name>". */
  function SampleKey(p: Point): string {
    Label(p, "instance") + "," + Label(p, "name")
  }

  /** Joining with a comma is undone by splitting at the first comma. */
  lemma CommaJoinInjective(a: string, b: string, c: string, d: string)
    requires ',' !in a && ',' !in c
    requires a + "," + b == c + "," + d
    ensures a == c && b == d
  {
    var s := a + "," + b;
    assert forall i :: 0 <= i < |a| ==> s[i] == a[i];
    assert forall i :: 0 <= i < |c| ==> s[i] == c[i];
    assert s[|a|] == ',' && s[|c|] == ',';
    assert |a| == |c|;
    assert a == s[..|a|] == c;
    assert b == s[|a| + 1..] == d;
  }

  /**
   * For instance labels without a comma (addresses such as "host:port"),
   * two points share a key exactly when they share both the instance and
   * the name label.
   */
  lemma SampleKeyDistinct(p: Point, q: Point)
    requires ',' !in Label(p, "instance") && ',' !in Label(q, "instance")
    ensures SampleKey(p) == SampleKey(q) <==>
      Label(p, "instance") == Label(q, "instance") && Label(p, "name") == Label(q, "name")
  {
    if SampleKey(p) == SampleKey(q) {
      CommaJoinInjective(Label(p, "instance"), Label(p, "name"), Label(q, "instance"), Label(q, "name"));
    }
  }

  /** `points[i]` is the last point whose key is `key`. */
  ghost predicate LastWithKey(points: seq<Point>, i: int, key: string) {
    && 0 <= i < |points|
    && SampleKey(points[i]) == key
    && forall j :: i < j < |points| ==> SampleKey(points[j]) != key
  }

  /**
   * `m` has one entry per key of the points, holding the value of the LAST
   * point with that key (later points overwrite earlier ones).
   */
  ghost predicate LatestByKey(points: seq<Point>, m: map<string, int>) {
    && (forall i :: 0 <= i < |points| ==> SampleKey(points[i]) in m)
    && (forall key :: key in m ==> exists i :: LastWithKey(points, i, key) && m[key] == points[i].value)
  }

  lemma LatestByKeyStep(points: seq<Point>, m: map<string, int>, p: Point)
    requires LatestByKey(points, m)
    ensures LatestByKey(points + [p], m[SampleKey(p) := p.value])
  {
    var ps := points + [p];
    var m' := m[SampleKey(p) := p.value];
    forall key | key in m'
      ensures exists i :: LastWithKey(ps, i, key) && m'[key] == ps[i].value
    {
      if key == SampleKey(p) {
        assert LastWithKey(ps, |points|, key);
      } else {
        var i :| LastWithKey(points, i, key) && m[key] == points[i].value;
        assert LastWithKey(ps, i, key);
      }
    }
  }

  lemma LastWithKeyUnique(points: seq<Point>, i1: int, i2: int, key: string)
    requires LastWithKey(points, i1, key) && LastWithKey(points, i2, key)
    ensures i1 == i2
  {
  }

  /** `LatestByKey` determines the map: the snapshot of a vector is unique. */
  lemma LatestByKeyUnique(points: seq<Point>, m1: map<string, int>, m2: map<string, int>)
    requires LatestByKey(points, m1) && LatestByKey(points, m2)
    ensures m1 == m2
  {
    forall key | key in m1
      ensures key in m2 && m1[key] == m2[key]
    {
      var i1 :| LastWithKey(points, i1, key) && m1[key] == points[i1].value;
      assert key in m2;
      var i2 :| LastWithKey(points, i2, key) && m2[key] == points[i2].value;
      LastWithKeyUnique(points, i1, i2, key);
    }
    forall key | key in m2
      ensures key in m1
    {
      var i2 :| LastWithKey(points, i2, key) && m2[key] == points[i2].value;
    }
  }

  /** Two points with different keys give two independent entries. */
  lemma TwoKeysTwoEntries(p: Point, q: Point, m: map<string, int>)
    requires SampleKey(p) != SampleKey(q)
    requires LatestByKey([p, q], m)
    ensures m.Keys == {SampleKey(p), SampleKey(q)} && |m| == 2
    ensures m[SampleKey(p)] == p.value && m[SampleKey(q)] == q.value
  {
    var ps := [p, q];
    assert SampleKey(ps[0]) in m && SampleKey(ps[1]) in m;
    forall key | key in m
      ensures key == SampleKey(p) || key == SampleKey(q)
    {
      var i :| LastWithKey(ps, i, key) && m[key] == ps[i].value;
    }
    var i :| LastWithKey(ps, i, SampleKey(p)) && m[SampleKey(p)] == ps[i].value;
    assert i == 0;
  }

  /**
   * `sample` is the snapshot of `points`: none for no points, otherwise the
   * first point's timestamp and the latest value of every key.
   */
  ghost predicate SampleOf(points: seq<Point>, sample: Option<Sample>) {
    && (sample.None? <==> points == [])
    && (sample.Some? ==> sample.value.timestamp == points[0].timestamp && LatestByKey(points, sample.value.value))
  }

  lemma SampleOfStep(points: seq<Point>, i: int, sample: Option<Sample>)
    requires 0 <= i < |points| && SampleOf(points[..i], sample)
    ensures var p := points[i];
      var started := if sample.None? then Sample(p.timestamp, map[]) else sample.value;
      SampleOf(points[..i + 1], Some(started.(value := started.value[SampleKey(p) := p.value])))
  {
    var p := points[i];
    var started := if sample.None? then Sample(p.timestamp, map[]) else sample.value;
    LatestByKeyStep(points[..i], started.value, p);
    assert points[..i + 1] == points[..i] + [p];
  }

  /** The loop of `LastSample` over a result vector. */
  method Snapshot(vector: seq<Point>) returns (sample: Option<Sample>)
    ensures SampleOf(vector, sample)
  {
    sample := None;
    var i := 0;
    while i < |vector|
      invariant 0 <= i <= |vector|
      invariant SampleOf(vector[..i], sample)
    {
      var samp := vector[i];
      var key := SampleKey(samp);
      SampleOfStep(vector, i, sample);
      if sample.None? {
        sample := Some(Sample(samp.timestamp, map[]));
      }
      sample := Some(sample.value.(value := sample.value.value[key := samp.value]));
      i := i + 1;
    }
    assert vector[..i] == vector;
  }

  /**
   * `LastSample`: a failed query or a non-vector answer is an error;
   * otherwise the snapshot of the vector, none when it is empty.
   */
  method LastSample(answer: QueryAnswer) returns (r: Result<Option<Sample>, QueryError>)
    ensures answer.QueryErr? ==> r == Failure(BackendError)
    ensures answer.NonVector? ==> r == Failure(CannotConvertToVector)
    ensures answer.Vec? ==> r.Success? && SampleOf(answer.points, r.value)
  {
    var vectorOrError := Vector(answer);
    if vectorOrError.Failure? {
      return Failure(vectorOrError.error);
    }
    var sample := Snapshot(vectorOrError.value);
    return Success(sample);
  }
}
