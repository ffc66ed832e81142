/**
 The OCI archive check (bizpulse/scripts/admin_ai_oci_artifact.py): one single-platform image, every blob
 verified by its digest, and nothing else in the archive.
 */
module OciArtifact {
  import opened Wrappers
  import opened Patterns
  import opened Json

  // ---- Data ----

  type Files = map<string, Bytes>

  datatype Kind = Directory | Regular | OtherKind

  /** A tar member; its payload is None when it cannot be read in full. */
  datatype Member = Member(name: string, kind: Kind, payload: Option<Bytes>)

  /**
   The formats underneath: the SHA-256 text of bytes, the members of an archive (None when it is no
   archive), the JSON value of a text (None when it is not JSON), and member names that leave the root.
   */
  datatype Codec = Codec(
    sha256: Bytes -> string, members: Bytes -> Option<seq<Member>>, json: Bytes -> Option<Json>,
    escapes: string -> bool)

  datatype Authority = Authority(
    sourceSha: string, sourceTree: string, imageInputSha256: string, buildContextSha256: string)

  datatype Code =
    | FileInvalid | FileChanged | ArchiveInvalid | AuthorityInvalid | JsonInvalid | IndexInvalid
    | DescriptorInvalid | PlatformInvalid | BlobInvalid | ManifestInvalid | ConfigInvalid
    | UserInvalid | LabelsInvalid | LayoutInvalid

  datatype Descriptor = Descriptor(digest: string, size: int, mediaType: string)

  /** The content graph of an image: its manifest, config and layers. */
  datatype Image = Image(manifest: Descriptor, config: Descriptor, layers: seq<Descriptor>)

  const MAX_ARCHIVE := 4294967296
  const MAX_JSON := 4194304
  const MANIFEST_TYPE := "application/vnd.oci.image.manifest.v1+json"
  const CONFIG_TYPE := "application/vnd.oci.image.config.v1+json"
  const INDEX_TYPE := "application/vnd.oci.image.index.v1+json"

  predicate LayerType(t: string) {
    t == "application/vnd.oci.image.layer.v1.tar" || t == "application/vnd.oci.image.layer.v1.tar+gzip" ||
    t == "application/vnd.oci.image.layer.v1.tar+zstd"
  }

  // ---- The archive as a dictionary ----

  predicate MemberFine(codec: Codec, m: Member) {
    !codec.escapes(m.name) &&
    match m.kind
    case Directory => m.name in ["blobs", "blobs/", "blobs/sha256", "blobs/sha256/"]
    case Regular => m.payload.Some?
    case OtherKind => false
  }

  function FilesOf(codec: Codec, members: seq<Member>): Option<Files> {
    if members == [] then Some(map[])
    else
      var n := |members| - 1;
      match FilesOf(codec, members[..n])
      case None => None
      case Some(files) =>
        var m := members[n];
        if m.name in files || !MemberFine(codec, m) then None
        else if m.kind == Regular then Some(files[m.name := m.payload.value])
        else Some(files)
  }

  /** The loop of `_read_regular_archive`. */
  method ReadMembers(codec: Codec, members: seq<Member>) returns (r: Option<Files>)
    ensures r == FilesOf(codec, members)
  {
    var files: Files := map[];
    for i := 0 to |members|
      invariant FilesOf(codec, members[..i]) == Some(files)
    {
      var m := members[i];
      assert members[..i + 1][..i] == members[..i];
      if m.name in files || !MemberFine(codec, m) {
        FailureStays(codec, members, i + 1);
        return None;
      }
      if m.kind == Regular { files := files[m.name := m.payload.value]; }
    }
    assert members[..|members|] == members;
    r := Some(files);
  }

  lemma {:induction false} FailureStays(codec: Codec, members: seq<Member>, n: nat)
    requires n <= |members| && FilesOf(codec, members[..n]).None?
    ensures FilesOf(codec, members).None?
    decreases |members| - n
  {
    if n == |members| {
      assert members[..n] == members;
    } else {
      assert members[..n + 1][..n] == members[..n];
      FailureStays(codec, members, n + 1);
    }
  }

  // ---- Checking ----

  function Get(j: Json, key: string): Option<Json> {
    if j.Object? && key in j.fields then Some(j.fields[key]) else None
  }

  predicate IsText(j: Option<Json>, text: string) {
    j == Some(Text(text))
  }

  predicate IsTwo(j: Option<Json>) {
    j == Some(Integer(2)) || j == Some(Number(2.0))
  }

  function Parse(codec: Codec, payload: Bytes): Option<Json> {
    if |payload| > MAX_JSON then None else codec.json(payload)
  }

  function DescriptorOf(j: Json, allowed: string -> bool): (d: Option<Descriptor>)
    ensures d.Some? ==> ImageDigest(d.value.digest) && 0 <= d.value.size <= MAX_ARCHIVE && allowed(d.value.mediaType)
  {
    match (Get(j, "digest"), Get(j, "size"), Get(j, "mediaType"))
    case (Some(Text(digest)), Some(Integer(size)), Some(Text(mediaType))) =>
      if ImageDigest(digest) && 0 <= size <= MAX_ARCHIVE && allowed(mediaType)
      then Some(Descriptor(digest, size, mediaType)) else None
    case _ => None
  }

  function BlobName(digest: string): string {
    "blobs/sha256/" + AfterColon(digest)
  }

  function AfterColon(digest: string): string {
    if |digest| < 7 then digest else digest[7..]
  }

  function Blob(codec: Codec, files: Files, d: Descriptor): Option<Bytes> {
    var name := BlobName(d.digest);
    if name in files && |files[name]| == d.size && "sha256:" + codec.sha256(files[name]) == d.digest
    then Some(files[name]) else None
  }

  /** The layers of a manifest, in order, each checked; the code of the first that fails. */
  function LayersOf(codec: Codec, files: Files, layers: seq<Json>): Result<seq<Descriptor>, Code> {
    if layers == [] then Ok([])
    else
      var n := |layers| - 1;
      match LayersOf(codec, files, layers[..n])
      case Err(e) => Err(e)
      case Ok(ds) =>
        match DescriptorOf(layers[n], LayerType)
        case None => Err(DescriptorInvalid)
        case Some(d) => if Blob(codec, files, d).None? then Err(BlobInvalid) else Ok(ds + [d])
  }

  predicate ReferenceText(s: string) {
    1 <= |s| <= 128 && LowerAlnum(s[0]) &&
    forall i | 0 <= i < |s| :: LowerAlnumDash(s[i]) || s[i] == '.' || s[i] == '_'
  }

  /** Layout, index and platform: the manifest descriptor they lead to. */
  function ManifestDescriptor(codec: Codec, files: Files): Result<Descriptor, Code> {
    var layout := Parse(codec, if "oci-layout" in files then files["oci-layout"] else []);
    if layout.None? then Err(JsonInvalid)
    else
      var parsed := Parse(codec, if "index.json" in files then files["index.json"] else []);
      if parsed.None? then Err(JsonInvalid)
      else
        var index := parsed.value;
        if layout.value != Object(map["imageLayoutVersion" := Text("1.0.0")]) || !index.Object? ||
           !IsTwo(Get(index, "schemaVersion")) || !IsText(Get(index, "mediaType"), INDEX_TYPE)
        then Err(IndexInvalid)
        else
          match Get(index, "manifests")
          case Some(Array(items)) =>
            if |items| != 1 then Err(IndexInvalid)
            else
              var raw := items[0];
              (match DescriptorOf(raw, (t: string) => t == MANIFEST_TYPE)
               case None => Err(DescriptorInvalid)
               case Some(d) => if PlatformFine(raw) then Ok(d) else Err(PlatformInvalid))
          case _ => Err(IndexInvalid)
  }

  predicate PlatformFine(raw: Json) {
    Get(raw, "platform") == Some(Object(map["architecture" := Text("amd64"), "os" := Text("linux")])) &&
    match Get(raw, "annotations")
    case Some(annotations) =>
      (match Get(annotations, "org.opencontainers.image.ref.name")
       case Some(Text(reference)) => ReferenceText(reference)
       case _ => false)
    case None => false
  }

  /** The content graph below a manifest descriptor, every blob of it verified. */
  function ImageBelow(codec: Codec, files: Files, manifest: Descriptor): Result<Image, Code> {
    match Blob(codec, files, manifest)
    case None => Err(BlobInvalid)
    case Some(payload) =>
      match Parse(codec, payload)
      case None => Err(JsonInvalid)
      case Some(m) =>
        if !IsTwo(Get(m, "schemaVersion")) || !IsText(Get(m, "mediaType"), MANIFEST_TYPE) then Err(ManifestInvalid)
        else
          match (Get(m, "layers"), Get(m, "config"))
          case (Some(Array(layers)), Some(rawConfig)) =>
            if layers == [] then Err(ManifestInvalid)
            else
              (match DescriptorOf(rawConfig, (t: string) => t == CONFIG_TYPE)
               case None => Err(DescriptorInvalid)
               case Some(config) => WithLayers(codec, files, manifest, config, layers))
          case (Some(Array(layers)), None) => Err(if layers == [] then ManifestInvalid else DescriptorInvalid)
          case _ => Err(ManifestInvalid)
  }

  function WithLayers(codec: Codec, files: Files, manifest: Descriptor, config: Descriptor, layers: seq<Json>)
    : Result<Image, Code>
  {
    match Blob(codec, files, config)
    case None => Err(BlobInvalid)
    case Some(payload) =>
      if Parse(codec, payload).None? then Err(JsonInvalid)
      else
        match LayersOf(codec, files, layers)
        case Err(e) => Err(e)
        case Ok(ds) => Ok(Image(manifest, config, ds))
  }

  /** The runtime user and the labels binding the image to its sources. */
  function ConfigFine(config: Json, a: Authority): Option<Code> {
    match Get(config, "config")
    case Some(runtime) =>
      if !runtime.Object? then Some(ConfigInvalid)
      else if !IsText(Get(runtime, "User"), "bizpulse") then Some(UserInvalid)
      else
        var labels := match Get(runtime, "Labels") case Some(l) => l case None => Object(map[]);
        if IsText(Get(config, "os"), "linux") && IsText(Get(config, "architecture"), "amd64") &&
           IsText(Get(labels, "org.opencontainers.image.revision"), a.sourceSha) &&
           IsText(Get(labels, "org.opencontainers.image.bizpulse.source-tree-sha"), a.sourceTree) &&
           IsText(Get(labels, "org.opencontainers.image.bizpulse.image-input-sha256"), a.imageInputSha256) &&
           IsText(Get(labels, "org.opencontainers.image.bizpulse.build-context-sha256"), a.buildContextSha256)
        then None else Some(LabelsInvalid)
    case None => Some(ConfigInvalid)
  }

  function Descriptors(image: Image): set<Descriptor> {
    {image.manifest, image.config} + set d | d in image.layers
  }

  /** The file names an archive of this image must consist of. */
  function ExpectedNames(image: Image): set<string> {
    {"oci-layout", "index.json"} + set d | d in Descriptors(image) :: BlobName(d.digest)
  }

  predicate ValidAuthority(a: Authority) {
    |a.sourceSha| == 40 && All(a.sourceSha, Hex) && |a.sourceTree| == 40 && All(a.sourceTree, Hex) &&
    Sha256Text(a.imageInputSha256) && Sha256Text(a.buildContextSha256)
  }

  /** `inspect_oci_archive` on the files of the archive. */
  function Inspect(codec: Codec, files: Files, a: Authority): Result<Image, Code> {
    match ManifestDescriptor(codec, files)
    case Err(e) => Err(e)
    case Ok(descriptor) =>
      match ImageBelow(codec, files, descriptor)
      case Err(e) => Err(e)
      case Ok(image) =>
        var config := Parse(codec, files[BlobName(image.config.digest)]).value;
        if ConfigFine(config, a).Some? then Err(ConfigFine(config, a).value)
        else if files.Keys != ExpectedNames(image) then Err(ArchiveInvalid)
        else Ok(image)
  }
}
