/** The content-addressed artifact store, as a map from digests to contents. */
module ArtifactStore {
  import opened Common

  type Bytes = seq<byte>

  /** An ideal digest: equal exactly when the contents are. */
  datatype Digest = Sha256(content: Bytes)

  type Artifacts = map<Digest, Bytes>

  /** Storing is idempotent: content already present is left alone. */
  function StoredBytes(artifacts: Artifacts, bytes: Bytes): Artifacts {
    if Sha256(bytes) in artifacts then artifacts else artifacts[Sha256(bytes) := bytes]
  }
}
