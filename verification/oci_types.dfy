/**
 * The OCI image-spec values the core passes around: platforms, content descriptors and
 * image indexes (github.com/opencontainers/image-spec, specs-go/v1).
 */
module OciTypes {
  import opened Errdefs

  datatype Platform = Platform(
    architecture: string,
    os: string,
    osVersion: string,
    osFeatures: seq<string>,
    variant: string)

  /** A content descriptor; `platform` is None where the Go pointer is nil. */
  datatype Descriptor = Descriptor(
    mediaType: string,
    digest: string,
    size: int,
    urls: seq<string>,
    annotations: map<string, string>,
    platform: Option<Platform>,
    artifactType: string)

  datatype Index = Index(mediaType: string, manifests: seq<Descriptor>, annotations: map<string, string>)

  const MediaTypeImageIndex := "application/vnd.oci.image.index.v1+json"
  const MediaTypeImageManifest := "application/vnd.oci.image.manifest.v1+json"
  const MediaTypeDockerManifestList := "application/vnd.docker.distribution.manifest.list.v2+json"
  const MediaTypeDockerManifest := "application/vnd.docker.distribution.manifest.v2+json"

  /** images.IsIndexType: an OCI image index or a Docker manifest list. */
  predicate IsIndexType(mediaType: string)
  {
    mediaType == MediaTypeImageIndex || mediaType == MediaTypeDockerManifestList
  }
}
