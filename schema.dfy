/**
 * The `meta.json` records of action/src/types/schema.ts, as values. Only the
 * fields the modelled code reads or writes are kept; an absent optional field
 * is `None`.
 */
module Schema {
  import opened Options

  /** `checkver`: how a variant's upstream version is found. */
  datatype VersionCheck = VersionCheck(
    kind: Option<string>,             // `type`: 'version' | 'sha' | 'tag' | 'manual' | 'registry'
    repo: Option<string>,
    branch: Option<string>,
    file: Option<string>,
    regex: Option<string>,
    tagPattern: Option<string>,
    targetVersion: Option<string>,
    processFiles: Option<seq<string>>)

  /** `docker`: build settings of a variant. */
  datatype DockerConfig = DockerConfig(
    file: Option<string>,
    images: Option<seq<string>>,
    tags: Option<seq<string>>,
    platforms: Option<seq<string>>,
    labels: Option<seq<(string, string)>>,
    push: Option<bool>)

  /** One entry of `variants`. */
  datatype ImageVariant = ImageVariant(
    version: Option<string>,
    sha: Option<string>,
    enabled: Option<bool>,
    checkver: Option<VersionCheck>,
    docker: Option<DockerConfig>)

  /** A `meta.json` document; `variants` keeps the record's key order. */
  datatype Meta = Meta(
    name: string,
    imageType: string,                // `type`: 'app' | 'base' | 'sync'
    variants: seq<(string, ImageVariant)>,
    skip: Option<bool>,
    title: Option<string>,
    description: Option<string>,
    license: Option<string>)

  /** `'enabled' in variant && !variant.enabled` */
  predicate Disabled(v: ImageVariant) { v.enabled == Some(false) }
}
