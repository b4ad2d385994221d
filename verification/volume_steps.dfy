/** `prepare_volumes` as the scripts write it: a list built up by appending,
    first one fixed mount per flag that is on and then one specification per
    user path. Each step is shown to build the planned `PrepareVolumes`. */
module VolumeSteps {
  import opened Strings
  import opened Volumes

  /** The flag-driven appends: AWS credentials, engine socket, working
      directory, each only when its flag is on. */
  method FixedMounts(aws: bool, pwd: bool, docker: bool, home: string, cwd: string) returns (volumes: seq<string>)
    ensures volumes == PrepareVolumes(aws, pwd, docker, [], home, cwd)
  {
    volumes := [];
    if aws {
      volumes := volumes + [home + "/.aws:/root/.aws:ro"];
    }
    if docker {
      volumes := volumes + [SocketMount()];
    }
    if pwd {
      volumes := volumes + [VolumeSpec(cwd, ContainerTmp + Basename(cwd))];
    }
    PrepareVolumesOrder(aws, pwd, docker, [], home, cwd);
  }

  /** Preparing the first `i + 1` user paths appends one specification to
      the preparation of the first `i`. */
  lemma AppendOne(volume: seq<string>, i: nat, home: string, cwd: string)
    requires i < |volume|
    ensures PrepareVolumes(false, false, false, volume[..i + 1], home, cwd)
         == PrepareVolumes(false, false, false, volume[..i], home, cwd) + [UserMount(volume[i])]
  {
    assert volume[..i + 1] == volume[..i] + [volume[i]];
    PrepareVolumesAppend(false, false, false, volume[..i], [volume[i]], home, cwd);
    SinglePath(volume[i], home, cwd);
  }

  /** The loop over the user paths: a path with a colon is appended as
      given, any other as `path:/tmp/<basename>`. */
  method AppendUserMounts(fixed: seq<string>, volume: seq<string>, home: string, cwd: string)
    returns (volumes: seq<string>)
    ensures volumes == fixed + PrepareVolumes(false, false, false, volume, home, cwd)
  {
    volumes := fixed;
    var i := 0;
    while i < |volume|
      invariant 0 <= i <= |volume|
      invariant volumes == fixed + PrepareVolumes(false, false, false, volume[..i], home, cwd)
    {
      var path := volume[i];
      var v := path;
      if ':' !in path {
        v := VolumeSpec(path, ContainerTmp + Basename(path));
      }
      assert v == UserMount(path);
      AppendOne(volume, i, home, cwd);
      volumes := volumes + [v];
      i := i + 1;
    }
    assert volume[..i] == volume;
  }

  /** The whole of `prepare_volumes`. The loop runs only when there are user
      paths, as the `if dir:` guard of utility-container.py has it (in
      utility_container.py the same guard tests the built-in `dir`, which is
      always true); either way the result is the planned list. */
  method PrepareVolumesSteps(aws: bool, pwd: bool, docker: bool, volume: seq<string>,
                             home: string, cwd: string) returns (volumes: seq<string>)
    ensures volumes == PrepareVolumes(aws, pwd, docker, volume, home, cwd)
  {
    volumes := FixedMounts(aws, pwd, docker, home, cwd);
    if |volume| > 0 {
      volumes := AppendUserMounts(volumes, volume, home, cwd);
    }
    PrepareVolumesAppend(aws, pwd, docker, [], volume, home, cwd);
    assert [] + volume == volume;
  }
}
