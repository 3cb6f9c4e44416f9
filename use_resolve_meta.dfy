/**
 * `useResolveMeta` (action/src/hooks/useResolveMeta.ts): the build inputs of
 * the legacy path for one meta: images, platforms, Dockerfile path, tags, and
 * the OCI labels and annotations. It writes the merged labels back into the
 * meta's `dockerMeta`, which is therefore a mutable object here.
 *
 * `GITHUB_SERVER_URL` and `GITHUB_REPOSITORY` are the parameter `env`.
 */
module ResolveMeta {
  import opened Options
  import opened Strings
  import Assoc
  import MetaApp

  /** The environment variables the default `url` label is built from. */
  datatype Env = Env(serverUrl: Option<string>, repository: Option<string>)

  /** The meta fields the hook reads besides `dockerMeta`. */
  datatype MetaInfo = MetaInfo(name: string, repo: string, version: string, sha: string)

  /** `UseResolveMetaReturn` */
  datatype Resolved = Resolved(
    images: string, platforms: string, context: string, file: string, push: bool,
    tags: string, labels: string, annotations: string)

  /** A meta's `dockerMeta` object, whose `labels` the hook overwrites. */
  class DockerObject {
    var images: Option<seq<string>>
    var platforms: Option<seq<string>>
    var tags: seq<string>
    var labels: Option<seq<(string, string)>>
    var context: string
    var dockerfile: Option<string>
    var push: bool

    constructor (images: Option<seq<string>>, platforms: Option<seq<string>>, tags: seq<string>,
                 labels: Option<seq<(string, string)>>, context: string, dockerfile: Option<string>, push: bool)
      ensures this.images == images && this.platforms == platforms && this.tags == tags
      ensures this.labels == labels && this.context == context && this.dockerfile == dockerfile && this.push == push
    {
      this.images := images;
      this.platforms := platforms;
      this.tags := tags;
      this.labels := labels;
      this.context := context;
      this.dockerfile := dockerfile;
      this.push := push;
    }
  }

  const LabelPrefix := "org.opencontainers.image"

  predicate Listed(xs: Option<seq<string>>) { xs.Some? && |xs.value| > 0 }

  function Images(name: string, images: Option<seq<string>>): string
  {
    if !Listed(images) then Join(["aliuq/" + name, "ghcr.io/aliuq/" + name], "\n") else Join(images.value, "\n")
  }

  /** The platforms, narrowed to one when the image is not pushed. */
  function Platforms(platforms: Option<seq<string>>, push: bool): string
  {
    if !push then "linux/amd64"
    else if !Listed(platforms) then "linux/amd64,linux/arm64"
    else Join(platforms.value, ",")
  }

  function DefaultLabels(meta: MetaInfo, context: string, env: Env): seq<(string, string)>
  {
    [("url", MetaApp.Render(env.serverUrl) + "/" + MetaApp.Render(env.repository) + "/" + context),
     ("revision", meta.sha), ("upstream", meta.repo), ("version", meta.version)]
  }

  /** `Object.assign({}, defaultLabels, docker.labels)` */
  function MergedLabels(defaults: seq<(string, string)>, user: Option<seq<(string, string)>>): seq<(string, string)>
  {
    if user.None? then defaults else Assoc.PutAll(defaults, user.value)
  }

  function LabelLine(key: string, value: string): string
  {
    LabelPrefix + "." + key + "=" + value
  }

  /** One line per label entry, in entry order. */
  function LabelLines(labels: seq<(string, string)>): (r: seq<string>)
    ensures |r| == |labels|
  {
    if |labels| == 0 then [] else [LabelLine(labels[0].0, labels[0].1)] + LabelLines(labels[1..])
  }

  /** Reads a label line back: the key runs to the first `=` after the prefix. */
  function ParseLabelLine(line: string): Option<(string, string)>
  {
    var head := LabelPrefix + ".";
    if !StartsWith(line, head) then None
    else
      var body := line[|head|..];
      var key := KeyRun(body);
      if |key| == |body| then None else Some((key, body[|key| + 1..]))
  }

  /** The longest prefix of `s` without `=`. */
  function KeyRun(s: string): (r: string)
    ensures StartsWith(s, r) && '=' !in r
    ensures |r| == |s| || s[|r|] == '='
  {
    if |s| > 0 && s[0] != '=' then [s[0]] + KeyRun(s[1..]) else ""
  }

  lemma {:induction false} KeyRunStops(k: string, rest: string)
    requires '=' !in k && |rest| > 0 && rest[0] == '='
    ensures KeyRun(k + rest) == k
    decreases |k|
  {
    if |k| > 0 {
      assert (k + rest)[0] == k[0] && k[0] in k;
      assert (k + rest)[1..] == k[1..] + rest;
      assert '=' !in k[1..] by {
        forall j | 0 <= j < |k[1..]| ensures k[1..][j] != '=' {
          assert k[1..][j] == k[j + 1] && k[j + 1] in k;
        }
      }
      KeyRunStops(k[1..], rest);
    } else {
      assert k + rest == rest;
    }
  }

  /** A label line gives back its key and value when the key holds no `=`. */
  lemma LabelLineRoundTrip(key: string, value: string)
    requires '=' !in key
    ensures ParseLabelLine(LabelLine(key, value)) == Some((key, value))
  {
    var head := LabelPrefix + ".";
    var line := LabelLine(key, value);
    assert line == head + (key + ("=" + value));
    assert StartsWith(line, head);
    assert line[|head|..] == key + ("=" + value);
    KeyRunStops(key, "=" + value);
    assert line[|head|..][|key| + 1..] == value;
  }

  /** `useResolveMeta(meta)`: the build inputs, with the merged labels written into `docker`. */
  method UseResolveMeta(meta: MetaInfo, docker: DockerObject, env: Env) returns (data: Resolved)
    modifies docker
    ensures docker.labels == Some(MergedLabels(DefaultLabels(meta, docker.context, env), old(docker.labels)))
    ensures docker.images == old(docker.images) && docker.platforms == old(docker.platforms) && docker.tags == old(docker.tags)
    ensures docker.context == old(docker.context) && docker.dockerfile == old(docker.dockerfile) && docker.push == old(docker.push)
    ensures data.images == Images(meta.name, docker.images)
    ensures data.platforms == Platforms(docker.platforms, docker.push)
    ensures data.context == docker.context && data.push == docker.push
    ensures data.file == MetaApp.JoinPath(docker.context, if Truthy(docker.dockerfile) then docker.dockerfile.value else "Dockerfile")
    ensures data.tags == Join(docker.tags, "\n")
    ensures data.labels == Join(LabelLines(docker.labels.value), "\n") && data.annotations == data.labels
  {
    var context := docker.context;
    var dockerfile := MetaApp.JoinPath(context, if Truthy(docker.dockerfile) then docker.dockerfile.value else "Dockerfile");
    data := Resolved(
      if !Listed(docker.images) then Join(["aliuq/" + meta.name, "ghcr.io/aliuq/" + meta.name], "\n") else Join(docker.images.value, "\n"),
      if !Listed(docker.platforms) then "linux/amd64,linux/arm64" else Join(docker.platforms.value, ","),
      context, dockerfile, docker.push, Join(docker.tags, "\n"), "", "");
    if !docker.push {
      data := data.(platforms := "linux/amd64");
    }
    var merged := MergedLabels(DefaultLabels(meta, context, env), docker.labels);
    var labels: seq<string> := [];
    var annotations: seq<string> := [];
    var i := 0;
    while i < |merged|
      invariant 0 <= i <= |merged|
      invariant labels == LabelLines(merged[..i]) && annotations == labels
      invariant unchanged(docker)
    {
      LabelLinesSnoc(merged, i);
      labels := labels + [LabelLine(merged[i].0, merged[i].1)];
      annotations := annotations + [LabelLine(merged[i].0, merged[i].1)];
      i := i + 1;
    }
    assert merged[..i] == merged;
    docker.labels := Some(merged);
    data := data.(labels := Join(labels, "\n"), annotations := Join(annotations, "\n"));
  }

  lemma {:induction false} LabelLinesSnoc(ls: seq<(string, string)>, i: nat)
    requires i < |ls|
    ensures LabelLines(ls[..i + 1]) == LabelLines(ls[..i]) + [LabelLine(ls[i].0, ls[i].1)]
    decreases i
  {
    if i > 0 {
      assert ls[..i + 1][1..] == ls[1..][..i];
      assert ls[..i][1..] == ls[1..][..i - 1];
      LabelLinesSnoc(ls[1..], i - 1);
    } else {
      assert ls[..1] == [ls[0]];
    }
  }

  /** Without `push` only `linux/amd64` is built; otherwise the listed platforms or both defaults. */
  lemma PlatformsChoice(platforms: Option<seq<string>>, push: bool)
    ensures !push ==> Platforms(platforms, push) == "linux/amd64"
    ensures push && !Listed(platforms) ==> Platforms(platforms, push) == "linux/amd64,linux/arm64"
    ensures push && Listed(platforms) ==> Platforms(platforms, push) == Join(platforms.value, ",")
  {
  }

  /** Without images the Docker Hub and GHCR names are used. */
  lemma ImagesDefault(name: string, images: Option<seq<string>>)
    ensures !Listed(images) ==> Images(name, images) == "aliuq/" + name + "\n" + "ghcr.io/aliuq/" + name
    ensures Listed(images) ==> Images(name, images) == Join(images.value, "\n")
  {
    if !Listed(images) {
      assert Join(["aliuq/" + name, "ghcr.io/aliuq/" + name], "\n") == "aliuq/" + name + "\n" + Join(["ghcr.io/aliuq/" + name], "\n");
    }
  }

  /** A user label overrides the default of the same key; the four defaults keep the first places. */
  lemma MergedLabelsGet(meta: MetaInfo, context: string, env: Env, user: Option<seq<(string, string)>>, key: string)
    requires user.Some? ==> Assoc.DistinctKeys(user.value)
    ensures var merged := MergedLabels(DefaultLabels(meta, context, env), user);
      Assoc.Get(merged, key) == if user.Some? && Assoc.HasKey(user.value, key) then Assoc.Get(user.value, key)
                                else Assoc.Get(DefaultLabels(meta, context, env), key)
    ensures var merged := MergedLabels(DefaultLabels(meta, context, env), user);
      |merged| >= 4 && Assoc.Keys(merged)[..4] == ["url", "revision", "upstream", "version"]
  {
    var defaults := DefaultLabels(meta, context, env);
    assert Assoc.Keys(defaults) == ["url", "revision", "upstream", "version"];
    if user.Some? {
      Assoc.PutAllGet(defaults, user.value, key);
      Assoc.PutAllKeys(defaults, user.value);
    }
  }
}
