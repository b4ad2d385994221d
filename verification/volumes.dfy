/** Volume planning of `prepare_volumes`: three flags, the user's paths, the
    home directory and the working directory give the ordered list of
    bind-mount specifications handed to the container engine.

    The plan is built in two steps: `Plan` decides which mounts appear and in
    what order, and `Render` spells each one out as the engine's
    `host:container[:mode]` text. */
module Volumes {
  import opened Strings

  /** The engine's control socket, without its leading `/`. */
  const DockerSocket: string := "var/run/docker.sock"

  /** Where bare paths are mounted inside the container. */
  const ContainerTmp: string := "/tmp/"

  /** The `host:container` format of every synthesised specification. */
  function VolumeSpec(host: string, container: string): string
  {
    host + ":" + container
  }

  /** The read-only mount of the AWS credentials below the home directory. */
  function AwsMount(home: string): string
  {
    home + "/.aws:/root/.aws:ro"
  }

  /** The read-only mount of the engine socket onto itself. */
  function SocketMount(): string
  {
    "/" + DockerSocket + ":/" + DockerSocket + ":ro"
  }

  /** A host path mounted under `/tmp/` by its basename. */
  function TmpMount(path: string): string
  {
    VolumeSpec(path, ContainerTmp + Basename(path))
  }

  /** One user path: a path holding a colon is taken as a full
      `host:container[:mode]` specification and passed through unchanged; a
      bare path is mounted under `/tmp/` by its basename. Either way the
      result holds a colon. */
  function UserMount(path: string): (v: string)
    ensures ':' in path ==> v == path
    ensures ':' in v
  {
    if ':' in path then path
    else
      var v := TmpMount(path);
      assert v[|path|] == ':';
      v
  }

  /** The mounts a plan can hold. */
  datatype Mount =
    | AwsCredentials
    | EngineSocket
    | WorkingDirectory
    | Volume(path: string)

  /** The engine text of one mount; `home` and `cwd` stand for `Path.home()`
      and `os.getcwd()`. */
  function Render(m: Mount, home: string, cwd: string): string
  {
    match m
    case AwsCredentials => AwsMount(home)
    case EngineSocket => SocketMount()
    case WorkingDirectory => TmpMount(cwd)
    case Volume(path) => UserMount(path)
  }

  /** How many fixed mounts the flags switch on. */
  function FlagCount(aws: bool, pwd: bool, docker: bool): nat
  {
    (if aws then 1 else 0) + (if docker then 1 else 0) + (if pwd then 1 else 0)
  }

  /** The fixed mounts, one per flag that is on, in the order AWS, socket,
      working directory; none of them is a user path. */
  function FixedPlan(aws: bool, pwd: bool, docker: bool): (p: seq<Mount>)
    ensures |p| == FlagCount(aws, pwd, docker)
    ensures aws ==> p[0] == AwsCredentials
    ensures docker ==> p[if aws then 1 else 0] == EngineSocket
    ensures pwd ==> p[|p| - 1] == WorkingDirectory
    ensures forall i :: 0 <= i < |p| ==> !p[i].Volume?
  {
    (if aws then [AwsCredentials] else [])
    + (if docker then [EngineSocket] else [])
    + (if pwd then [WorkingDirectory] else [])
  }

  /** One user-path mount per path, in input order, with nothing merged or
      dropped. */
  function PathPlan(volume: seq<string>): (p: seq<Mount>)
    ensures |p| == |volume|
    ensures forall i :: 0 <= i < |volume| ==> p[i] == Volume(volume[i])
  {
    if |volume| == 0 then []
    else [Volume(volume[0])] + PathPlan(volume[1..])
  }

  /** Which mounts are made, in order: one per flag that is on, in the fixed
      order AWS, socket, working directory, then one per user path in input
      order. */
  function Plan(aws: bool, pwd: bool, docker: bool, volume: seq<string>): (p: seq<Mount>)
    ensures |p| == FlagCount(aws, pwd, docker) + |volume|
    ensures aws ==> p[0] == AwsCredentials
    ensures docker ==> p[if aws then 1 else 0] == EngineSocket
    ensures pwd ==> p[FlagCount(aws, pwd, docker) - 1] == WorkingDirectory
    ensures forall i :: 0 <= i < |volume| ==> p[FlagCount(aws, pwd, docker) + i] == Volume(volume[i])
  {
    FixedPlan(aws, pwd, docker) + PathPlan(volume)
  }

  /** Renders a plan entry by entry, keeping its order and length. */
  function RenderAll(plan: seq<Mount>, home: string, cwd: string): (r: seq<string>)
    ensures |r| == |plan|
    ensures forall i :: 0 <= i < |plan| ==> r[i] == Render(plan[i], home, cwd)
  {
    if |plan| == 0 then []
    else [Render(plan[0], home, cwd)] + RenderAll(plan[1..], home, cwd)
  }

  /** `prepare_volumes`: the rendered plan. */
  function PrepareVolumes(aws: bool, pwd: bool, docker: bool, volume: seq<string>,
                          home: string, cwd: string): (r: seq<string>)
    ensures |r| == FlagCount(aws, pwd, docker) + |volume|
    ensures forall i :: 0 <= i < |r| ==> r[i] == Render(Plan(aws, pwd, docker, volume)[i], home, cwd)
  {
    RenderAll(Plan(aws, pwd, docker, volume), home, cwd)
  }

  /** The socket mount, spelled out. */
  lemma SocketMountText()
    ensures SocketMount() == "/var/run/docker.sock:/var/run/docker.sock:ro"
  {
    var host := "/" + DockerSocket;
    assert host == "/var/run/docker.sock";
    assert host + ":" == "/var/run/docker.sock:";
    assert SocketMount() == (host + ":") + host + ":ro";
  }

  /** A bare user path becomes `path:/tmp/<basename>`. */
  lemma UserMountText(path: string)
    requires ':' !in path
    ensures UserMount(path) == path + ":" + ContainerTmp + Basename(path)
  {
    Associative(path + ":", ContainerTmp, Basename(path));
  }

  /** The engine reads a synthesised specification back as exactly the host
      path and `/tmp/` followed by its basename: the basename brings no colon
      of its own. */
  lemma UserMountReadsBack(path: string)
    requires ':' !in path
    ensures Split(UserMount(path), ':') == [path, ContainerTmp + Basename(path)]
  {
    ContainerColonFree(path);
    SplitPair(path, ContainerTmp + Basename(path), ':');
  }

  /** The container side made for a colon-free path is colon-free too. */
  lemma ContainerColonFree(path: string)
    requires ':' !in path
    ensures ':' !in ContainerTmp + Basename(path)
  {
    BasenameAvoids(path, ':');
    assert ':' !in ContainerTmp;
    NotInConcat(ContainerTmp, Basename(path), ':');
  }

  /** The rendered plan in the engine's terms: the AWS mount first when it is
      on, then the socket mount, then the working-directory mount, then each
      user path's specification in input order. */
  lemma PrepareVolumesOrder(aws: bool, pwd: bool, docker: bool, volume: seq<string>,
                            home: string, cwd: string)
    ensures var r := PrepareVolumes(aws, pwd, docker, volume, home, cwd);
            var n := FlagCount(aws, pwd, docker);
            && |r| == n + |volume|
            && (aws ==> r[0] == AwsMount(home))
            && (docker ==> r[if aws then 1 else 0] == SocketMount())
            && (pwd ==> r[n - 1] == TmpMount(cwd))
            && (forall i :: 0 <= i < |volume| ==> r[n + i] == UserMount(volume[i]))
  {
    var p := Plan(aws, pwd, docker, volume);
    var r := PrepareVolumes(aws, pwd, docker, volume, home, cwd);
    var n := FlagCount(aws, pwd, docker);
    forall i | 0 <= i < |volume|
      ensures r[n + i] == UserMount(volume[i])
    {
      assert r[n + i] == Render(p[n + i], home, cwd);
    }
  }

  /** Planning user paths splits over concatenation. */
  lemma {:induction false} PathPlanAppend(a: seq<string>, b: seq<string>)
    ensures PathPlan(a + b) == PathPlan(a) + PathPlan(b)
    decreases |a|
  {
    if |a| > 0 {
      assert (a + b)[1..] == a[1..] + b;
      PathPlanAppend(a[1..], b);
    } else {
      assert a + b == b;
    }
  }

  /** With every flag off only the user paths are planned. */
  lemma UserOnlyPlan(volume: seq<string>)
    ensures Plan(false, false, false, volume) == PathPlan(volume)
  {
    assert FixedPlan(false, false, false) == [];
  }

  /** Planning splits over the user paths: planning `a + b` is planning `a`
      and then appending the mounts of `b` alone, so order is kept and
      nothing is merged. */
  lemma PlanAppend(aws: bool, pwd: bool, docker: bool, a: seq<string>, b: seq<string>)
    ensures Plan(aws, pwd, docker, a + b) == Plan(aws, pwd, docker, a) + Plan(false, false, false, b)
  {
    var fixed := FixedPlan(aws, pwd, docker);
    assert Plan(aws, pwd, docker, a + b) == fixed + PathPlan(a + b);
    assert Plan(aws, pwd, docker, a) == fixed + PathPlan(a);
    PathPlanAppend(a, b);
    UserOnlyPlan(b);
    Associative(fixed, PathPlan(a), PathPlan(b));
  }

  /** Rendering distributes over concatenation of plans. */
  lemma {:induction false} RenderAllAppend(a: seq<Mount>, b: seq<Mount>, home: string, cwd: string)
    ensures RenderAll(a + b, home, cwd) == RenderAll(a, home, cwd) + RenderAll(b, home, cwd)
    decreases |a|
  {
    if |a| > 0 {
      assert (a + b)[1..] == a[1..] + b;
      RenderAllAppend(a[1..], b, home, cwd);
    } else {
      assert a + b == b;
    }
  }

  /** The user paths are handled one after another and independently:
      preparing `a + b` is preparing `a` and then appending the
      specifications of `b` alone. */
  lemma PrepareVolumesAppend(aws: bool, pwd: bool, docker: bool, a: seq<string>, b: seq<string>,
                             home: string, cwd: string)
    ensures PrepareVolumes(aws, pwd, docker, a + b, home, cwd)
         == PrepareVolumes(aws, pwd, docker, a, home, cwd) + PrepareVolumes(false, false, false, b, home, cwd)
  {
    PlanAppend(aws, pwd, docker, a, b);
    RenderAllAppend(Plan(aws, pwd, docker, a), Plan(false, false, false, b), home, cwd);
  }

  /** One user path alone gives its one specification. */
  lemma SinglePath(path: string, home: string, cwd: string)
    ensures PrepareVolumes(false, false, false, [path], home, cwd) == [UserMount(path)]
  {
    var r := PrepareVolumes(false, false, false, [path], home, cwd);
    assert r[0] == Render(Plan(false, false, false, [path])[0], home, cwd);
  }

  /** The same path given twice is planned twice. */
  lemma DuplicatesKept(path: string)
    ensures Plan(false, false, false, [path, path]) == [Volume(path), Volume(path)]
  {
    var p := Plan(false, false, false, [path, path]);
    assert p[0] == Volume([path, path][0]);
    assert p[1] == Volume([path, path][1]);
  }

  /** With every flag off, paths that are already full specifications come
      out exactly as given. */
  lemma {:induction false} PassThroughPlan(volume: seq<string>, home: string, cwd: string)
    requires forall i :: 0 <= i < |volume| ==> ':' in volume[i]
    ensures PrepareVolumes(false, false, false, volume, home, cwd) == volume
    decreases |volume|
  {
    if |volume| > 0 {
      var first := volume[0];
      var rest := volume[1..];
      assert volume == [first] + rest;
      assert ':' in first;
      assert forall i :: 0 <= i < |rest| ==> rest[i] == volume[i + 1];
      PrepareVolumesAppend(false, false, false, [first], rest, home, cwd);
      SinglePath(first, home, cwd);
      assert UserMount(first) == first;
      PassThroughPlan(rest, home, cwd);
    }
  }

  /** Every specification made for a user path holds a colon. */
  lemma UserMountsHaveColon(volume: seq<string>, home: string, cwd: string)
    ensures var r := PrepareVolumes(false, false, false, volume, home, cwd);
            forall i :: 0 <= i < |r| ==> ':' in r[i]
  {
    var r := PrepareVolumes(false, false, false, volume, home, cwd);
    forall i | 0 <= i < |r|
      ensures ':' in r[i]
    {
      UserOnlyPlan(volume);
      assert r[i] == Render(PathPlan(volume)[i], home, cwd);
    }
  }

  /** Planning is idempotent on user paths: every planned specification
      holds a colon, so planning the plan again passes it through unchanged. */
  lemma PlanIdempotent(volume: seq<string>, home: string, cwd: string)
    ensures var once := PrepareVolumes(false, false, false, volume, home, cwd);
            PrepareVolumes(false, false, false, once, home, cwd) == once
  {
    var once := PrepareVolumes(false, false, false, volume, home, cwd);
    UserMountsHaveColon(volume, home, cwd);
    PassThroughPlan(once, home, cwd);
  }

  /** Everything off and no paths: nothing is mounted. */
  lemma EmptyPlan(home: string, cwd: string)
    ensures PrepareVolumes(false, false, false, [], home, cwd) == []
  {
  }

  /** A bare absolute path is mounted under `/tmp/` by its last component. */
  lemma ChildMountText(dir: string, name: string)
    requires ':' !in dir && ':' !in name && '/' !in name
    ensures UserMount(dir + "/" + name) == dir + "/" + name + ":/tmp/" + name
  {
    var p := dir + "/" + name;
    assert ':' !in p by {
      NotInConcat(dir, "/", ':');
      NotInConcat(dir + "/", name, ':');
    }
    BasenameOfChild(dir, name);
    UserMountText(p);
    assert ":" + ContainerTmp == ":/tmp/";
    Associative(p, ":", ContainerTmp);
    Associative(p + ":", ContainerTmp, name);
    Associative(p, ":" + ContainerTmp, name);
  }

  /** Every flag on and one bare path `dir/name`: AWS, socket, working
      directory, then the path, which is mounted as `/tmp/name`. */
  lemma FullPlan(home: string, cwd: string, dir: string, name: string)
    requires ':' !in dir && ':' !in name && '/' !in name
    ensures Plan(true, true, true, [dir + "/" + name])
         == [AwsCredentials, EngineSocket, WorkingDirectory, Volume(dir + "/" + name)]
    ensures Render(Volume(dir + "/" + name), home, cwd) == dir + "/" + name + ":/tmp/" + name
  {
    ChildMountText(dir, name);
  }

  /** Two equal-length sequences that agree at both positions of a pair. */
  lemma PairOf<T>(r: seq<T>, a: T, b: T)
    requires |r| == 2 && r[0] == a && r[1] == b
    ensures r == [a, b]
  {
  }

  /** `--aws --volume <home>/<name>`: the credentials of that home directory,
      then the project mounted as `/tmp/<name>`. */
  lemma AwsAndProjectPlan(home: string, cwd: string, name: string)
    requires ':' !in home && ':' !in name && '/' !in name
    ensures PrepareVolumes(true, false, false, [home + "/" + name], home, cwd)
         == [home + "/.aws:/root/.aws:ro", home + "/" + name + ":/tmp/" + name]
  {
    var r := PrepareVolumes(true, false, false, [home + "/" + name], home, cwd);
    PrepareVolumesOrder(true, false, false, [home + "/" + name], home, cwd);
    ChildMountText(home, name);
    PairOf(r, home + "/.aws:/root/.aws:ro", home + "/" + name + ":/tmp/" + name);
  }

  /** A trailing slash has an empty basename, so the path is mounted on
      `/tmp/` itself. */
  lemma TrailingSlashMount()
    ensures UserMount("/srv/data/") == "/srv/data/:/tmp/"
  {
    var p := "/srv/data/";
    assert p[|p| - 1] == '/';
    assert Basename(p) == "";
    assert ':' !in p;
    UserMountText(p);
    assert p + ":" + ContainerTmp + "" == "/srv/data/:/tmp/";
  }
}
