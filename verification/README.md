# utility-container: image resolution and volume planning

The utility-container scripts run a one-off command inside a Docker
container. Before starting the container they do two pieces of pure
logic, and this project models both in Dafny:

- **Image resolution and the pull decision** (`pull_if_not_exist`). The
  image argument is split on `:`. The repository is the first part and the
  tag is the second; a name without a colon gets the tag `latest`. The
  scripts then look for the exact text `repository:tag` among the
  `RepoTags` of the images the engine lists, and ask for a pull when no
  listed image carries it.
- **Volume planning** (`prepare_volumes`). Three flags switch on fixed
  mounts, always in the same order: the AWS credentials under the home
  directory (read-only), the engine socket onto itself (read-only), and
  the working directory under `/tmp/<basename>`. After them comes one
  specification per user path, in input order. A path that already holds
  a colon is taken as a full `host:container[:mode]` specification and
  passed through. Any other path is mounted as `path:/tmp/<basename>`.

Both scripts, `utility_container.py` and `utility-container.py`, contain
these two functions with the same logic. The model is written once, and
the table cites whichever file states a point most directly.

Modules:

- `Strings` (`strings.dfy`) holds Python's `str.split` on a one-character
  separator, `str.join`, and POSIX `os.path.basename`, with their
  round-trip laws.
- `ImageRef` (`image_ref.dfy`) holds `Resolve` (the repository/tag split)
  and `PullIfNotExist` (the scan over the listed images).
- `Volumes` (`volumes.dfy`) models `prepare_volumes` in two steps. A
  `Plan` decides which `Mount`s appear and in what order, and `Render`
  spells each one out as engine text.
- `VolumeSteps` (`volume_steps.dfy`) follows the scripts' statements:
  appending to a list, with the loop over the user paths. It is proved to
  build exactly the planned list.

The home directory (`Path.home()`) and the working directory
(`os.getcwd()`) are parameters of the model. The engine's list of local
images is a parameter too: a sequence holding each image's `RepoTags`.

## Model

| member | source | states |
|---|---|---|
| `Strings.Split` | utility_container.py:85-86 | Python's `split(':')`. There is always at least one part, and no part contains the separator. There is exactly one part iff the string has no separator. |
| `Strings.JoinSplit` | utility_container.py:85-86 | Splitting and then joining with the same separator gives the original string back, so the split keeps every character, including empty parts. |
| `Strings.SplitJoin` | utility_container.py:85-86 | Joining a non-empty list of separator-free parts and then splitting gives exactly those parts. |
| `Strings.SplitAfterFirst` | utility_container.py:85-86 | When `a` has no separator, `a + sep + b` splits into `a` followed by the split of `b`, whatever `b` holds. |
| `Strings.Basename` | utility_container.py:135 | `os.path.basename` is the longest slash-free suffix of the path: it has no `/`, it ends the path, and it is either the whole path or preceded by a `/`. |
| `Strings.BasenameOfChild` | utility_container.py:129 | The basename of `dir/name` is `name` for any slash-free `name`, including the empty name of a trailing slash. |
| `ImageRef.Resolve` | utility_container.py:84-89 | With no colon, the repository is the whole image and the tag is `latest`. With a colon, repository and tag are colon-free, `repository:tag` is a prefix of the image, and that prefix ends at the image's end or at a second colon. |
| `ImageRef.ResolveFormat` | utility_container.py:84-89 | Round trip: a colon-free repository and tag, formatted as `repository:tag` and resolved, come back unchanged. A colon-free bare repository resolves to itself with `latest`. |
| `ImageRef.ResolveDropsRest` | utility-container.py:44-46 | Everything from a second colon on is ignored: `repository:tag:anything` resolves to `(repository, tag)`. |
| `ImageRef.ResolveBareName` | utility_container.py:87-89 | `alpine` resolves to `alpine` with tag `latest`. |
| `ImageRef.ResolveNameAndTag` | utility_container.py:84-86 | `myimg:v2` resolves to `myimg` with tag `v2`. |
| `ImageRef.ResolveTrailingColon` | utility-container.py:44-46 | `repo:` resolves to an empty tag, not to `latest`. |
| `ImageRef.ResolveRegistryPort` | utility_container.py:84-86 | `host:5000/name` resolves to repository `host` and tag `5000/name`: a registry port is read as the tag. |
| `ImageRef.ResolveThirdPartDropped` | utility-container.py:44-46 | `a:b:c` resolves to `a` with tag `b`. |
| `ImageRef.PullIfNotExist` | utility_container.py:91-101 | The reference returned is the resolved image. A pull is asked for iff no listed image has the exact text `repository:tag` among its `RepoTags`. |
| `ImageRef.FoundUnderLatest` | utility-container.py:51-58 | `alpine` is found in a listed image tagged `alpine:latest`, even when that tag is not the image's first. |
| `ImageRef.TrailingColonNotFound` | utility_container.py:94-98 | `repo:` looks for `repo:` and so misses an image listed only as `repo:latest`. |
| `Volumes.UserMount` | utility_container.py:133-136 | A path holding a colon is passed through unchanged, and every resulting specification holds a colon. |
| `Volumes.UserMountText` | utility-container.py:82-84 | A colon-free path becomes `path:/tmp/` followed by its basename. |
| `Volumes.UserMountReadsBack` | utility_container.py:134-135 | A synthesised specification splits on `:` into exactly the host path and `/tmp/<basename>`. Neither side brings a stray colon. |
| `Volumes.SocketMountText` | utility_container.py:125-126 | The socket mount is `/var/run/docker.sock:/var/run/docker.sock:ro`. |
| `Volumes.FixedPlan` | utility_container.py:123-129 | One mount per flag that is on, in the order AWS, socket, working directory. None of them is a user path. |
| `Volumes.PathPlan` | utility_container.py:132-136 | One mount per user path, in input order: the i-th entry is the i-th path. |
| `Volumes.Plan` | utility_container.py:121-137 | The number of mounts is the number of flags on plus the number of paths. AWS comes first when on, then the socket, then the working directory, then path i at position flags + i. |
| `Volumes.RenderAll` | utility_container.py:132-136 | Rendering keeps the length and order of the plan, and the i-th text renders the i-th mount. |
| `Volumes.PrepareVolumes` | utility_container.py:121-137 | The result has one entry per flag on plus one per path. Entry i is the engine text of planned mount i. |
| `Volumes.PrepareVolumesOrder` | utility_container.py:121-137 | In engine text: the AWS mount of `home` is at index 0 when on, then the socket mount, the working-directory mount at the last fixed index, and the specification of path i at position flags + i. |
| `Volumes.PlanAppend` | utility_container.py:131-136 | Planning `a + b` is planning `a` and then appending the mounts of `b` alone. |
| `Volumes.PrepareVolumesAppend` | utility-container.py:80-85 | Paths are handled independently and in order: preparing `a + b` is preparing `a` and then appending the specifications of `b` alone. |
| `Volumes.PassThroughPlan` | utility_container.py:133-136 | With every flag off, a list of full specifications comes out exactly as given. |
| `Volumes.UserMountsHaveColon` | utility_container.py:133-136 | Every specification made for a user path holds a colon. |
| `Volumes.PlanIdempotent` | utility_container.py:131-136 | Feeding the specifications of the user paths back in as paths gives the same list. |
| `Volumes.DuplicatesKept` | utility-container.py:81-85 | A path given twice is planned twice; nothing is deduplicated. |
| `Volumes.EmptyPlan` | utility_container.py:121-137 | No flags and no paths give no mounts. |
| `Volumes.ChildMountText` | utility_container.py:134-135 | A colon-free `dir/name` is mounted as `dir/name:/tmp/name`. |
| `Volumes.FullPlan` | utility_container.py:123-136 | With every flag on and one path, the plan is AWS, socket, working directory, then the path. The path `dir/name` is mounted as `dir/name:/tmp/name`. |
| `Volumes.AwsAndProjectPlan` | utility_container.py:123-136 | `--aws` with the path `<home>/<name>` gives `<home>/.aws:/root/.aws:ro`, then `<home>/<name>:/tmp/<name>`, and nothing else. |
| `Volumes.TrailingSlashMount` | utility-container.py:83-84 | `/srv/data/` has an empty basename, so it is mounted as `/srv/data/:/tmp/`. |
| `VolumeSteps.FixedMounts` | utility-container.py:70-78 | The three conditional appends build exactly the planned list for no user paths. |
| `VolumeSteps.AppendUserMounts` | utility-container.py:81-85 | The loop over the paths appends exactly the planned specifications of those paths to the list it is given. |
| `VolumeSteps.PrepareVolumesSteps` | utility-container.py:69-86 | The statement-by-statement function, including the guard in front of the loop, returns the planned list for every input. |

## Left out

- The `click` command line (options, argument parsing, help texts) is not modelled. Only its values reach the core, and they are the model's parameters.
- Every Docker client call is left out: `DockerClient`, `images.list`, `images.pull`, `containers.run`, `containers.create`, `start`, `logs` and `remove`. They are I/O against the engine. The filtering that `images.list(repository)` does is the engine's business. The model takes whatever list it returns as the `localImages` parameter.
- The pull and its failure path are left out: the "could not find image" message and `exit(1)`. `PullIfNotExist` returns the decision to pull, not the pull's outcome.
- Exit codes, `ContainerError` handling and everything `click.echo` prints are left out.
- `Path.home()` and `os.getcwd()` are parameters (`home`, `cwd`).
- The `pathlib2` import fallback is left out.
- What `cli` does with the resolved reference is left out: one script creates the container from `repository:tag`, the other runs the `image` argument as given.
- The guard before the user-path loop is not a separate model. In utility-container.py it tests the `dir` parameter, which is empty exactly when there are no paths. In utility_container.py it tests Python's built-in `dir`, which is always true. Neither changes the result. `VolumeSteps.PrepareVolumesSteps` models the first form, and its contract shows the result is the same as running the loop unconditionally.
- `Strings.Basename` models POSIX `os.path.basename` only: the text after the last `/`. Windows separators are not modelled.
