/** Image reference resolution and the pull decision of `pull_if_not_exist`. */
module ImageRef {
  import opened Strings

  /** The tag used when the image argument names none. */
  const DefaultTag: string := "latest"

  /** An image reference split into repository and tag. */
  datatype ImageReference = ImageReference(repository: string, tag: string)

  /** The `repository:tag` text the engine lists under `RepoTags` and the
      scripts search for. */
  function Format(ref: ImageReference): string
  {
    ref.repository + ":" + ref.tag
  }

  /** Python's `image.split(':')[0]` and `image.split(':')[1]` when the image
      holds a colon, `(image, "latest")` otherwise. The repository is the text
      before the first colon; the tag is the text between the first and the
      second colon (possibly empty) and everything from a second colon on is
      dropped. Said without reference to `Split`: the formatted reference is
      the longest colon-delimited prefix of the image that spans exactly one
      colon. */
  function Resolve(image: string): (ref: ImageReference)
    ensures ':' !in image ==> ref.repository == image && ref.tag == DefaultTag
    ensures ':' in image ==>
              && ':' !in ref.repository
              && ':' !in ref.tag
              && |Format(ref)| <= |image|
              && image[..|Format(ref)|] == Format(ref)
              && (|Format(ref)| == |image| || image[|Format(ref)|] == ':')
  {
    if ':' in image then
      var parts := Split(image, ':');
      ResolvePrefix(image);
      ImageReference(parts[0], parts[1])
    else
      ImageReference(image, DefaultTag)
  }

  /** The first two parts of a split with at least one separator, rejoined,
      are a prefix of the string that stops at a separator or at its end. */
  lemma ResolvePrefix(image: string)
    requires ':' in image
    ensures var parts := Split(image, ':');
            var f := parts[0] + ":" + parts[1];
            && |f| <= |image|
            && image[..|f|] == f
            && (|f| == |image| || image[|f|] == ':')
  {
    var parts := Split(image, ':');
    SplitHead(image, ':');
    var rest := image[|parts[0]| + 1..];
    SplitHead(rest, ':');
    assert parts[1] == Split(rest, ':')[0];
    PrefixThrough(image, parts[0], rest, parts[1]);
  }

  /** If `s` is `a:r` and `b` is a prefix of `r` ending at a colon or at the
      end of `r`, then `a:b` is a prefix of `s` ending the same way. */
  lemma PrefixThrough(s: string, a: string, r: string, b: string)
    requires s == a + ":" + r
    requires |b| <= |r| && r[..|b|] == b
    requires |b| == |r| || r[|b|] == ':'
    ensures |a + ":" + b| <= |s| && s[..|a + ":" + b|] == a + ":" + b
    ensures |a + ":" + b| == |s| || s[|a + ":" + b|] == ':'
  {
    assert s[..|a + ":" + b|] == a + ":" + r[..|b|];
  }

  /** Round trip: a colon-free repository and tag, formatted and resolved,
      come back unchanged; so does a colon-free repository on its own, with
      the default tag. */
  lemma {:induction false} ResolveFormat(ref: ImageReference)
    requires ':' !in ref.repository && ':' !in ref.tag
    ensures Resolve(Format(ref)) == ref
    ensures Resolve(ref.repository) == ImageReference(ref.repository, DefaultTag)
  {
    SplitPair(ref.repository, ref.tag, ':');
    assert Format(ref) == ref.repository + [':'] + ref.tag;
  }

  /** Everything from a second colon on is dropped: a colon-free repository
      and tag followed by a colon resolve to that repository and tag whatever
      comes after, so `host:5000/name:v1` resolves to repository `host` and
      tag `5000/name`. */
  lemma ResolveDropsRest(ref: ImageReference, rest: string)
    requires ':' !in ref.repository && ':' !in ref.tag
    ensures Resolve(Format(ref) + ":" + rest) == ref
  {
    var image := Format(ref) + ":" + rest;
    var tail := ref.tag + [':'] + rest;
    assert image == ref.repository + [':'] + tail;
    SplitAfterFirst(ref.repository, tail, ':');
    SplitAfterFirst(ref.tag, rest, ':');
    assert image[|ref.repository|] == ':';
  }

  /** A bare name resolves to itself with the `latest` tag. */
  lemma ResolveBareName()
    ensures Resolve("alpine") == ImageReference("alpine", "latest")
  {
    assert ':' !in "alpine";
  }

  /** A single colon separates repository and tag. */
  lemma ResolveNameAndTag()
    ensures Resolve("myimg:v2") == ImageReference("myimg", "v2")
  {
    var r := ImageReference("myimg", "v2");
    assert ':' !in r.tag;
    ResolveFormat(r);
    assert Format(r) == "myimg:v2";
  }

  /** A trailing colon gives an empty tag, not `latest`. */
  lemma ResolveTrailingColon()
    ensures Resolve("repo:") == ImageReference("repo", "")
  {
    var r := ImageReference("repo", "");
    ResolveFormat(r);
    assert Format(r) == "repo:";
  }

  /** A registry port is read as the start of the tag: the reference is
      misparsed rather than recognised. */
  lemma ResolveRegistryPort()
    ensures Resolve("host:5000/name") == ImageReference("host", "5000/name")
  {
    var r := ImageReference("host", "5000/name");
    assert ':' !in r.tag;
    ResolveFormat(r);
    assert Format(r) == "host:5000/name";
  }

  /** A third colon-separated part is dropped. */
  lemma ResolveThirdPartDropped()
    ensures Resolve("a:b:c") == ImageReference("a", "b")
  {
    var r := ImageReference("a", "b");
    assert ':' !in r.repository && ':' !in r.tag;
    ResolveDropsRest(r, "c");
    assert Format(r) + ":" + "c" == "a:b:c";
  }

  /** True iff some listed image carries `wanted` among its `RepoTags`. */
  predicate HasRepoTag(images: seq<seq<string>>, wanted: string)
  {
    exists i :: 0 <= i < |images| && wanted in images[i]
  }

  /** The decision half of `pull_if_not_exist`: resolve the image, scan the
      locally listed images (each given by its `RepoTags`) for the exact
      `repository:tag` text, stopping at the first hit, and ask for a pull
      iff none was found. The pull itself is left to the caller. */
  method PullIfNotExist(image: string, localImages: seq<seq<string>>) returns (ref: ImageReference, pull: bool)
    ensures ref == Resolve(image)
    ensures pull <==> !HasRepoTag(localImages, Format(ref))
  {
    ref := Resolve(image);
    var wanted := Format(ref);
    var found := false;
    var i := 0;
    while i < |localImages|
      invariant 0 <= i <= |localImages|
      invariant !found
      invariant forall j :: 0 <= j < i ==> wanted !in localImages[j]
    {
      if wanted in localImages[i] {
        found := true;
        break;
      }
      i := i + 1;
    }
    pull := !found;
  }

  /** A bare name is found under its `latest` tag in whichever listed image
      carries it. */
  lemma FoundUnderLatest()
    ensures HasRepoTag([["busybox:latest"], ["alpine:3", "alpine:latest"]], Format(Resolve("alpine")))
  {
    ResolveBareName();
    var images := [["busybox:latest"], ["alpine:3", "alpine:latest"]];
    assert Format(ImageReference("alpine", "latest")) == "alpine:latest";
    assert images[1][1] == "alpine:latest";
  }

  /** A trailing colon searches for the empty tag, so an image listed only as
      `latest` is not found and a pull is asked for. */
  lemma TrailingColonNotFound()
    ensures !HasRepoTag([["repo:latest"]], Format(Resolve("repo:")))
  {
    ResolveTrailingColon();
    assert Format(Resolve("repo:")) == "repo:";
    assert "repo:" != "repo:latest";
  }
}
