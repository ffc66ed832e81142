/** What an accepted archive is: fixed, blob for blob, by its image digest. */
module OciLaws {
  import opened Wrappers
  import opened Json
  import opened OciArtifact

  /** The hash tells these two texts apart, if they differ. */
  predicate ToldApart(codec: Codec, a: Bytes, b: Bytes) {
    codec.sha256(a) == codec.sha256(b) ==> a == b
  }

  /** No two files of one name collide under the hash. */
  predicate NoCollision(codec: Codec, files: Files, other: Files) {
    forall name | name in files && name in other :: ToldApart(codec, files[name], other[name])
  }

  /** Two verified blobs of one digest are the same bytes. */
  lemma SameDigestSameBlob(codec: Codec, files: Files, d: Descriptor, other: Files, e: Descriptor)
    requires NoCollision(codec, files, other) && d.digest == e.digest
    requires Blob(codec, files, d).Some? && Blob(codec, other, e).Some?
    ensures Blob(codec, files, d) == Blob(codec, other, e) && d.size == e.size
  {
    var x, y := codec.sha256(files[BlobName(d.digest)]), codec.sha256(other[BlobName(e.digest)]);
    assert ("sha256:" + x)[7..] == x && ("sha256:" + y)[7..] == y;
  }

  /** The layer descriptors, read off the manifest alone; their blobs are all verified. */
  lemma {:induction false} LayersVerified(codec: Codec, files: Files, layers: seq<Json>)
    requires LayersOf(codec, files, layers).Ok?
    ensures var ds := LayersOf(codec, files, layers).value;
      |ds| == |layers| &&
      forall i | 0 <= i < |ds| :: DescriptorOf(layers[i], LayerType) == Some(ds[i]) && Blob(codec, files, ds[i]).Some?
  {
    hide DescriptorOf, Blob, LayerType;
    if layers != [] {
      var n := |layers| - 1;
      LayersVerified(codec, files, layers[..n]);
      assert forall i | 0 <= i < n :: layers[i] == layers[..n][i];
    }
  }

  lemma SameLayers(codec: Codec, files: Files, other: Files, layers: seq<Json>)
    requires LayersOf(codec, files, layers).Ok? && LayersOf(codec, other, layers).Ok?
    ensures LayersOf(codec, files, layers) == LayersOf(codec, other, layers)
  {
    LayersVerified(codec, files, layers);
    LayersVerified(codec, other, layers);
    var ds, es := LayersOf(codec, files, layers).value, LayersOf(codec, other, layers).value;
    assert forall i | 0 <= i < |ds| :: ds[i] == es[i];
  }

  /** Every descriptor of the image has its blob verified. */
  predicate AllVerified(codec: Codec, files: Files, image: Image) {
    Blob(codec, files, image.manifest).Some? && Blob(codec, files, image.config).Some? &&
    forall i | 0 <= i < |image.layers| :: Blob(codec, files, image.layers[i]).Some?
  }

  lemma ImageIsVerified(codec: Codec, files: Files, manifest: Descriptor)
    requires ImageBelow(codec, files, manifest).Ok?
    ensures AllVerified(codec, files, ImageBelow(codec, files, manifest).value)
    ensures ImageBelow(codec, files, manifest).value.manifest == manifest
  {
    var m := Parse(codec, Blob(codec, files, manifest).value).value;
    LayersVerified(codec, files, Get(m, "layers").value.items);
  }

  /** The image below a manifest depends on nothing but the bytes of the manifest. */
  lemma SameManifestSameImage(codec: Codec, files: Files, d: Descriptor, other: Files, e: Descriptor)
    requires NoCollision(codec, files, other) && d.digest == e.digest && d.mediaType == e.mediaType
    requires ImageBelow(codec, files, d).Ok? && ImageBelow(codec, other, e).Ok?
    ensures ImageBelow(codec, files, d) == ImageBelow(codec, other, e)
  {
    SameDigestSameBlob(codec, files, d, other, e);
    var m := Parse(codec, Blob(codec, files, d).value).value;
    SameLayers(codec, files, other, Get(m, "layers").value.items);
  }

  lemma ManifestHasType(codec: Codec, files: Files)
    requires ManifestDescriptor(codec, files).Ok?
    ensures ManifestDescriptor(codec, files).value.mediaType == MANIFEST_TYPE
  {
  }

  /** The names of an accepted archive: the two entry files, and the verified blobs of its image. */
  lemma AcceptedNames(codec: Codec, files: Files, a: Authority)
    requires Inspect(codec, files, a).Ok?
    ensures files.Keys == ExpectedNames(Inspect(codec, files, a).value)
    ensures AllVerified(codec, files, Inspect(codec, files, a).value)
    ensures ManifestDescriptor(codec, files) == Ok(Inspect(codec, files, a).value.manifest)
    ensures ImageBelow(codec, files, Inspect(codec, files, a).value.manifest) == Ok(Inspect(codec, files, a).value)
  {
    hide ManifestDescriptor, ImageBelow, ExpectedNames, ConfigFine;
    ImageIsVerified(codec, files, ManifestDescriptor(codec, files).value);
  }

  lemma DescriptorVerified(codec: Codec, files: Files, image: Image, d: Descriptor)
    requires AllVerified(codec, files, image) && d in Descriptors(image)
    ensures Blob(codec, files, d).Some?
  {
    if d != image.manifest && d != image.config {
      var i :| 0 <= i < |image.layers| && image.layers[i] == d;
    }
  }

  /** Every file of an accepted archive is an entry file, or a blob its content graph names and fixes. */
  lemma EveryFileIsReachable(codec: Codec, files: Files, a: Authority, name: string)
    requires Inspect(codec, files, a).Ok? && name in files
    ensures name == "oci-layout" || name == "index.json" ||
      exists d | d in Descriptors(Inspect(codec, files, a).value) ::
        BlobName(d.digest) == name && "sha256:" + codec.sha256(files[name]) == d.digest && |files[name]| == d.size
  {
    hide Inspect;
    AcceptedNames(codec, files, a);
    var image := Inspect(codec, files, a).value;
    if name != "oci-layout" && name != "index.json" {
      var d :| d in Descriptors(image) && BlobName(d.digest) == name;
      DescriptorVerified(codec, files, image, d);
    }
  }

  /** The content of an archive other than its two entry files. */
  function Blobs(files: Files): Files {
    files - {"oci-layout", "index.json"}
  }

  lemma SameImageSameBlobs(codec: Codec, files: Files, other: Files, image: Image)
    requires NoCollision(codec, files, other) && AllVerified(codec, files, image) && AllVerified(codec, other, image)
    requires files.Keys == ExpectedNames(image) && other.Keys == ExpectedNames(image)
    ensures Blobs(files) == Blobs(other)
  {
    assert Blobs(files).Keys == Blobs(other).Keys;
    forall name | name in Blobs(files)
      ensures files[name] == other[name]
    {
      var d :| d in Descriptors(image) && BlobName(d.digest) == name;
      DescriptorVerified(codec, files, image, d);
      DescriptorVerified(codec, other, image, d);
      SameDigestSameBlob(codec, files, d, other, d);
    }
  }

  /**
   Unless two of their files collide under the hash, two accepted archives of the same image digest hold the
   same image and, beside their entry files, the same blobs under the same names.
   */
  lemma DigestFixesBlobs(codec: Codec, files: Files, a: Authority, other: Files, b: Authority)
    requires NoCollision(codec, files, other) && Inspect(codec, files, a).Ok? && Inspect(codec, other, b).Ok?
    requires Inspect(codec, files, a).value.manifest.digest == Inspect(codec, other, b).value.manifest.digest
    ensures Inspect(codec, files, a) == Inspect(codec, other, b)
    ensures Blobs(files) == Blobs(other)
  {
    hide Inspect, ManifestDescriptor, ImageBelow, ExpectedNames, AllVerified;
    AcceptedNames(codec, files, a);
    AcceptedNames(codec, other, b);
    ManifestHasType(codec, files);
    ManifestHasType(codec, other);
    var x, y := Inspect(codec, files, a).value, Inspect(codec, other, b).value;
    SameManifestSameImage(codec, files, x.manifest, other, y.manifest);
    SameImageSameBlobs(codec, files, other, x);
  }

  // ---- Materialising ----

  /** A file created and written in full, not created, or created and then left with any bytes. */
  datatype Writing = Written | NotCreated | Broken(left: Bytes)

  /**
   What the file system does: two readings of the archive file, the new directory, each write, and making
   the finished directories read-only.
   */
  datatype World = World(
    first: Option<Bytes>, second: Option<Bytes>, makesDirectory: bool, writes: string -> Writing, seals: bool)

  method ReadArchive(codec: Codec, encoded: Option<Bytes>) returns (r: Result<Files, Code>)
    ensures r == match Holds(codec, encoded)
                 case Some(files) => Ok(files)
                 case None => Err(if encoded.None? then FileInvalid else ArchiveInvalid)
  {
    if encoded.None? { return Err(FileInvalid); }
    var members := codec.members(encoded.value);
    if members.None? { return Err(ArchiveInvalid); }
    var files := ReadMembers(codec, members.value);
    r := if files.Some? then Ok(files.value) else Err(ArchiveInvalid);
  }

  /** The files an archive holds, when it can be read. */
  function Holds(codec: Codec, encoded: Option<Bytes>): Option<Files> {
    match encoded
    case None => None
    case Some(bytes) =>
      match codec.members(bytes)
      case None => None
      case Some(members) => FilesOf(codec, members)
  }

  /** The Git and SHA-256 texts of an authority, in hex digits. */
  predicate AuthorityForm(a: Authority) {
    |a.sourceSha| == |a.sourceTree| == 40 && |a.imageInputSha256| == |a.buildContextSha256| == 64 &&
    (forall i | 0 <= i < 40 :: HexDigit(a.sourceSha[i]) && HexDigit(a.sourceTree[i])) &&
    forall i | 0 <= i < 64 :: HexDigit(a.imageInputSha256[i]) && HexDigit(a.buildContextSha256[i])
  }

  predicate HexDigit(c: char) {
    '0' <= c <= '9' || 'a' <= c <= 'f'
  }

  /** How a materialisation ends once both readings have been taken: the first check that fails gives the code. */
  predicate Ends(codec: Codec, a: Authority, w: World, r: Result<Image, Code>) {
    var first, second := Holds(codec, w.first), Holds(codec, w.second);
    if !AuthorityForm(a) then r == Err(AuthorityInvalid)
    else if first.None? then r == Err(if w.first.None? then FileInvalid else ArchiveInvalid)
    else if Inspect(codec, first.value, a).Err? then r == Inspect(codec, first.value, a)
    else if second.None? then r == Err(if w.second.None? then FileInvalid else ArchiveInvalid)
    else if codec.sha256(w.first.value) != codec.sha256(w.second.value) then r == Err(FileChanged)
    else if !w.makesDirectory || !w.seals || exists name | name in second.value :: !w.writes(name).Written?
    then r == Err(LayoutInvalid)
    else r == Inspect(codec, first.value, a)
  }

  /**
   `materialize_validated_oci_layout`: the archive is read once to be inspected and once to be written.
   Unless the two readings collide under the hash, the layout written is exactly the inspected one, whatever
   happened to the file in between. A failure may leave a part of it, and `broken` is then the one file, if
   any, that need not hold its inspected bytes.
   */
  method Materialize(codec: Codec, a: Authority, w: World)
    returns (r: Result<Image, Code>, layout: Files, broken: Option<string>)
    requires w.first.Some? && w.second.Some? ==> ToldApart(codec, w.first.value, w.second.value)
    ensures Ends(codec, a, w, r)
    ensures r.Ok? ==>
      broken == None && Holds(codec, w.first) == Some(layout) && Inspect(codec, layout, a) == r
    ensures layout != map[] ==>
      Holds(codec, w.first).Some? && Inspect(codec, Holds(codec, w.first).value, a).Ok? &&
      layout.Keys <= Holds(codec, w.first).value.Keys &&
      forall name | name in layout && broken != Some(name) :: layout[name] == Holds(codec, w.first).value[name]
  {
    hide Inspect;
    layout, broken := map[], None;
    if !ValidAuthority(a) { return Err(AuthorityInvalid), layout, broken; }
    var inspected := ReadArchive(codec, w.first);
    if inspected.Err? { return Err(inspected.error), layout, broken; }
    r := Inspect(codec, inspected.value, a);
    if r.Err? { return; }
    var files := ReadArchive(codec, w.second);
    if files.Err? { return Err(files.error), layout, broken; }
    if codec.sha256(w.second.value) != codec.sha256(w.first.value) { return Err(FileChanged), layout, broken; }
    if !w.makesDirectory { return Err(LayoutInvalid), layout, broken; }
    var pending := files.value.Keys;
    while pending != {}
      invariant pending <= files.value.Keys
      invariant layout == map name | name in files.value.Keys - pending :: files.value[name]
      invariant forall name | name in files.value.Keys - pending :: w.writes(name).Written?
      decreases pending
    {
      var name :| name in pending;
      match w.writes(name) {
        case NotCreated => return Err(LayoutInvalid), layout, broken;
        case Broken(left) => return Err(LayoutInvalid), layout[name := left], Some(name);
        case Written => layout := layout[name := files.value[name]];
      }
      pending := pending - {name};
    }
    assert layout == files.value;
    if !w.seals { r := Err(LayoutInvalid); }
  }
}
