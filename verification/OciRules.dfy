/**
 The rules of an accepted archive spelled out on its members and JSON fields, and the code each check of the
 runtime settings refuses with.
 */
module OciRules {
  import opened Wrappers
  import opened Patterns
  import opened Json
  import opened OciArtifact
  import OciLaws

  // ---- Members ----

  const DIRECTORIES: set<string> := {"blobs", "blobs/", "blobs/sha256", "blobs/sha256/"}

  /** Members that stay inside the root: the two blob directories, and regular files that can be read. */
  predicate MembersFine(codec: Codec, members: seq<Member>) {
    forall i | 0 <= i < |members| ::
      !codec.escapes(members[i].name) &&
      ((members[i].kind == Directory && members[i].name in DIRECTORIES) ||
       (members[i].kind == Regular && members[i].payload.Some?))
  }

  /** No member bears the name of a regular file before it. */
  predicate NamesFresh(members: seq<Member>) {
    forall i, j | 0 <= i < j < |members| && members[i].kind == Regular :: members[j].name != members[i].name
  }

  /** An archive is read exactly when its members are fine and fresh, and then holds each regular file once. */
  lemma {:induction false} FilesExactly(codec: Codec, members: seq<Member>)
    ensures FilesOf(codec, members).Some? <==> MembersFine(codec, members) && NamesFresh(members)
    ensures FilesOf(codec, members).Some? ==>
      (forall name :: name in FilesOf(codec, members).value <==>
         exists i | 0 <= i < |members| :: members[i].kind == Regular && members[i].name == name) &&
      forall i | 0 <= i < |members| && members[i].kind == Regular ::
        members[i].payload == Some(FilesOf(codec, members).value[members[i].name])
  {
    hide MemberFine, MembersFine, NamesFresh;
    if members != [] {
      var n := |members| - 1;
      var before, m := members[..n], members[n];
      FilesExactly(codec, before);
      assert members == before + [m];
      FineOneMore(codec, before, m);
      if FilesOf(codec, before).Some? {
        FreshOneMore(before, m, FilesOf(codec, before).value.Keys);
        if MemberFine(codec, m) { Paid(codec, m); }
      } else {
        FreshBefore(before, m);
      }
    } else {
      NoMembers(codec);
    }
  }

  lemma NoMembers(codec: Codec)
    ensures MembersFine(codec, []) && NamesFresh([])
  {
  }

  lemma Paid(codec: Codec, m: Member)
    requires MemberFine(codec, m)
    ensures m.kind == Regular ==> m.payload.Some?
  {
  }

  lemma FineOneMore(codec: Codec, before: seq<Member>, m: Member)
    ensures MembersFine(codec, before + [m]) <==> MembersFine(codec, before) && MemberFine(codec, m)
  {
    assert (before + [m])[|before|] == m;
    assert forall i | 0 <= i < |before| :: before[i] == (before + [m])[i];
  }

  lemma FreshBefore(before: seq<Member>, m: Member)
    ensures NamesFresh(before + [m]) ==> NamesFresh(before)
  {
    assert forall i | 0 <= i < |before| :: before[i] == (before + [m])[i];
  }

  lemma FreshOneMore(before: seq<Member>, m: Member, names: set<string>)
    requires forall name :: name in names <==>
      exists i | 0 <= i < |before| :: before[i].kind == Regular && before[i].name == name
    ensures NamesFresh(before + [m]) <==> NamesFresh(before) && m.name !in names
  {
    FreshBefore(before, m);
    assert (before + [m])[|before|] == m;
    assert forall i | 0 <= i < |before| :: before[i] == (before + [m])[i];
  }

  // ---- Fields ----

  predicate TextAt(j: Json, key: string, text: string) {
    j.Object? && key in j.fields && j.fields[key] == Text(text)
  }

  /** The number two, in either of its JSON forms. */
  predicate TwoAt(j: Json, key: string) {
    j.Object? && key in j.fields && (j.fields[key] == Integer(2) || j.fields[key] == Number(2.0))
  }

  /** A descriptor in JSON: a SHA-256 digest, a size of at most 4 GiB, and one of these types. */
  predicate Describes(raw: Json, d: Descriptor, types: set<string>) {
    TextAt(raw, "digest", d.digest) && TextAt(raw, "mediaType", d.mediaType) && d.mediaType in types &&
    "size" in raw.fields && raw.fields["size"] == Integer(d.size) && 0 <= d.size <= 0x1_0000_0000 &&
    |d.digest| == 71 && d.digest[..7] == "sha256:" && Sha256Text(d.digest[7..])
  }

  const MANIFESTS: set<string> := {"application/vnd.oci.image.manifest.v1+json"}
  const CONFIGS: set<string> := {"application/vnd.oci.image.config.v1+json"}
  const LAYERS: set<string> := {
    "application/vnd.oci.image.layer.v1.tar", "application/vnd.oci.image.layer.v1.tar+gzip",
    "application/vnd.oci.image.layer.v1.tar+zstd"}

  lemma DescribesExactly(raw: Json, types: set<string>, allowed: string -> bool)
    requires forall t :: allowed(t) <==> t in types
    ensures forall d: Descriptor :: DescriptorOf(raw, allowed) == Some(d) <==> Describes(raw, d, types)
  {
  }

  lemma TypesAre()
    ensures forall t :: LayerType(t) <==> t in LAYERS
    ensures MANIFESTS == {MANIFEST_TYPE} && CONFIGS == {CONFIG_TYPE}
  {
  }

  // ---- Files ----

  /** A file of at most 4 MiB that holds this JSON value. */
  predicate HoldsJson(codec: Codec, files: Files, name: string, j: Json) {
    name in files && |files[name]| <= 0x40_0000 && codec.json(files[name]) == Some(j)
  }

  function FileOf(d: Descriptor): string
    requires |d.digest| == 71
  {
    "blobs/sha256/" + d.digest[7..]
  }

  /** The blob of a descriptor is there, of the size and with the hash it gives. */
  predicate Verified(codec: Codec, files: Files, d: Descriptor) {
    |d.digest| == 71 && FileOf(d) in files && |files[FileOf(d)]| == d.size &&
    "sha256:" + codec.sha256(files[FileOf(d)]) == d.digest
  }

  /** An index of one manifest. */
  predicate IndexShape(index: Json) {
    TwoAt(index, "schemaVersion") && TextAt(index, "mediaType", "application/vnd.oci.image.index.v1+json") &&
    "manifests" in index.fields && index.fields["manifests"].Array? && |index.fields["manifests"].items| == 1
  }

  /** An entry for this platform, under a reference name. */
  predicate PlatformRight(raw: Json) {
    raw.Object? && "platform" in raw.fields &&
    raw.fields["platform"] == Object(map["architecture" := Text("amd64"), "os" := Text("linux")]) &&
    "annotations" in raw.fields && raw.fields["annotations"].Object? &&
    var annotations := raw.fields["annotations"].fields;
    "org.opencontainers.image.ref.name" in annotations && annotations["org.opencontainers.image.ref.name"].Text? &&
    ReferenceText(annotations["org.opencontainers.image.ref.name"].text)
  }

  /** The index leads to one manifest, for this platform and under a reference name. */
  predicate IndexLeads(index: Json, manifest: Descriptor) {
    IndexShape(index) &&
    var raw := index.fields["manifests"].items[0];
    Describes(raw, manifest, MANIFESTS) && PlatformRight(raw)
  }

  /** The manifest names a config and at least one layer, all of them verified. */
  predicate ManifestLeads(codec: Codec, files: Files, m: Json, image: Image) {
    TwoAt(m, "schemaVersion") && TextAt(m, "mediaType", "application/vnd.oci.image.manifest.v1+json") &&
    "config" in m.fields && Describes(m.fields["config"], image.config, CONFIGS) &&
    Verified(codec, files, image.config) &&
    "layers" in m.fields && m.fields["layers"].Array? && |image.layers| > 0 &&
    LayersLead(codec, files, m.fields["layers"].items, image.layers)
  }

  predicate LayersLead(codec: Codec, files: Files, raws: seq<Json>, layers: seq<Descriptor>) {
    |raws| == |layers| &&
    forall i | 0 <= i < |layers| :: Describes(raws[i], layers[i], LAYERS) && Verified(codec, files, layers[i])
  }

  /** The image runs as its own user on its platform, and is labelled with the sources it was built from. */
  predicate RuntimeFine(config: Json, a: Authority) {
    TextAt(config, "os", "linux") && TextAt(config, "architecture", "amd64") && "config" in config.fields &&
    var runtime := config.fields["config"];
    TextAt(runtime, "User", "bizpulse") && "Labels" in runtime.fields &&
    var labels := runtime.fields["Labels"];
    TextAt(labels, "org.opencontainers.image.revision", a.sourceSha) &&
    TextAt(labels, "org.opencontainers.image.bizpulse.source-tree-sha", a.sourceTree) &&
    TextAt(labels, "org.opencontainers.image.bizpulse.image-input-sha256", a.imageInputSha256) &&
    TextAt(labels, "org.opencontainers.image.bizpulse.build-context-sha256", a.buildContextSha256)
  }

  /** The object of runtime settings a config holds. */
  predicate HasRuntime(config: Json) {
    config.Object? && "config" in config.fields && config.fields["config"].Object?
  }

  /**
   The runtime settings pass exactly when user, platform and labels do; a missing object comes first, then the
   user.
   */
  lemma RuntimeExactly(config: Json, a: Authority)
    ensures var code := ConfigFine(config, a);
      (code.None? <==> RuntimeFine(config, a)) && (code == Some(ConfigInvalid) <==> !HasRuntime(config)) &&
      (code == Some(UserInvalid) <==>
        HasRuntime(config) && !TextAt(config.fields["config"], "User", "bizpulse")) &&
      (code == Some(LabelsInvalid) <==>
        HasRuntime(config) && TextAt(config.fields["config"], "User", "bizpulse") && !RuntimeFine(config, a))
  {
    hide TextAt, IsText;
    if HasRuntime(config) {
      var runtime := config.fields["config"];
      TextExactly(runtime, "User", "bizpulse");
      TextExactly(config, "os", "linux");
      TextExactly(config, "architecture", "amd64");
      LabelsExactly(if "Labels" in runtime.fields then runtime.fields["Labels"] else Object(map[]), a);
      NoFields(a);
    } else {
      NoRuntime(config, a);
    }
  }

  lemma TextExactly(j: Json, key: string, text: string)
    ensures IsText(Get(j, key), text) <==> TextAt(j, key, text)
  {
  }

  lemma LabelsExactly(labels: Json, a: Authority)
    ensures IsText(Get(labels, "org.opencontainers.image.revision"), a.sourceSha) <==>
      TextAt(labels, "org.opencontainers.image.revision", a.sourceSha)
    ensures IsText(Get(labels, "org.opencontainers.image.bizpulse.source-tree-sha"), a.sourceTree) <==>
      TextAt(labels, "org.opencontainers.image.bizpulse.source-tree-sha", a.sourceTree)
    ensures IsText(Get(labels, "org.opencontainers.image.bizpulse.image-input-sha256"), a.imageInputSha256) <==>
      TextAt(labels, "org.opencontainers.image.bizpulse.image-input-sha256", a.imageInputSha256)
    ensures IsText(Get(labels, "org.opencontainers.image.bizpulse.build-context-sha256"), a.buildContextSha256) <==>
      TextAt(labels, "org.opencontainers.image.bizpulse.build-context-sha256", a.buildContextSha256)
  {
    hide TextAt, IsText, Get;
    TextExactly(labels, "org.opencontainers.image.revision", a.sourceSha);
    TextExactly(labels, "org.opencontainers.image.bizpulse.source-tree-sha", a.sourceTree);
    TextExactly(labels, "org.opencontainers.image.bizpulse.image-input-sha256", a.imageInputSha256);
    TextExactly(labels, "org.opencontainers.image.bizpulse.build-context-sha256", a.buildContextSha256);
  }

  lemma NoFields(a: Authority)
    ensures !TextAt(Object(map[]), "org.opencontainers.image.revision", a.sourceSha)
  {
  }

  lemma NoRuntime(config: Json, a: Authority)
    requires !HasRuntime(config)
    ensures !RuntimeFine(config, a)
  {
  }

  /** The digests of an image have the length of a SHA-256 digest. */
  predicate Digested(image: Image) {
    |image.manifest.digest| == |image.config.digest| == 71 &&
    forall i | 0 <= i < |image.layers| :: |image.layers[i].digest| == 71
  }

  /** An entry file, or a blob of the image. */
  predicate OneOf(image: Image, name: string)
    requires Digested(image)
  {
    name == "oci-layout" || name == "index.json" || name == FileOf(image.manifest) || name == FileOf(image.config) ||
    exists i | 0 <= i < |image.layers| :: name == FileOf(image.layers[i])
  }

  /** The two entry files, the blobs of the image, and nothing else. */
  predicate NothingElse(files: Files, image: Image)
    requires Digested(image)
  {
    forall name | name in files :: OneOf(image, name)
  }

  /** All that makes an archive one of this image, under this authority. */
  ghost predicate IsImage(codec: Codec, files: Files, a: Authority, image: Image) {
    HoldsJson(codec, files, "oci-layout", Object(map["imageLayoutVersion" := Text("1.0.0")])) &&
    Verified(codec, files, image.manifest) && Digested(image) &&
    exists index, m, config ::
      HoldsJson(codec, files, "index.json", index) && IndexLeads(index, image.manifest) &&
      HoldsJson(codec, files, FileOf(image.manifest), m) && ManifestLeads(codec, files, m, image) &&
      HoldsJson(codec, files, FileOf(image.config), config) && RuntimeFine(config, a) &&
      NothingElse(files, image)
  }

  // ---- Acceptance ----

  lemma BlobExactly(codec: Codec, files: Files, d: Descriptor)
    requires |d.digest| == 71
    ensures BlobName(d.digest) == FileOf(d)
    ensures Blob(codec, files, d).Some? <==> Verified(codec, files, d)
    ensures Verified(codec, files, d) ==> Blob(codec, files, d) == Some(files[FileOf(d)])
  {
  }

  lemma ParseExactly(codec: Codec, files: Files, name: string, j: Json)
    requires name in files
    ensures Parse(codec, files[name]) == Some(j) <==> HoldsJson(codec, files, name, j)
  {
  }

  ghost predicate EntryLeads(codec: Codec, files: Files, d: Descriptor) {
    HoldsJson(codec, files, "oci-layout", Object(map["imageLayoutVersion" := Text("1.0.0")])) &&
    exists index :: HoldsJson(codec, files, "index.json", index) && IndexLeads(index, d)
  }

  lemma EntryExactly(codec: Codec, files: Files, d: Descriptor)
    requires "oci-layout" in files && "index.json" in files
    ensures ManifestDescriptor(codec, files) == Ok(d) <==> EntryLeads(codec, files, d)
  {
    hide DescriptorOf, Describes, ReferenceText;
    var parsed := Parse(codec, files["index.json"]);
    if parsed.Some? {
      ParseExactly(codec, files, "index.json", parsed.value);
      LeadsExactly(parsed.value, d);
    }
  }

  lemma LeadsExactly(index: Json, d: Descriptor)
    ensures IndexLeads(index, d) <==>
      index.Object? && IsTwo(Get(index, "schemaVersion")) && IsText(Get(index, "mediaType"), INDEX_TYPE) &&
      Get(index, "manifests").Some? && Get(index, "manifests").value.Array? &&
      |Get(index, "manifests").value.items| == 1 &&
      var raw := Get(index, "manifests").value.items[0];
      DescriptorOf(raw, (t: string) => t == MANIFEST_TYPE) == Some(d) && PlatformFine(raw)
  {
    hide DescriptorOf, ReferenceText;
    if index.Object? && "manifests" in index.fields && index.fields["manifests"].Array? &&
       |index.fields["manifests"].items| == 1
    {
      DescribesExactly(index.fields["manifests"].items[0], MANIFESTS, (t: string) => t == MANIFEST_TYPE);
    }
  }

  lemma {:induction false} LayersExactly(codec: Codec, files: Files, raws: seq<Json>, layers: seq<Descriptor>)
    ensures LayersOf(codec, files, raws) == Ok(layers) <==> LayersLead(codec, files, raws, layers)
  {
    hide DescriptorOf, Blob, LayerType, LayersLead;
    LayersCount(codec, files, raws);
    LayersAlike(codec, files, raws, layers);
    if |layers| == |raws| {
      if raws == [] {
        NoLayers(codec, files);
      } else {
        var n := |raws| - 1;
        LayersExactly(codec, files, raws[..n], layers[..n]);
        assert layers == layers[..n] + [layers[n]];
        LeadOneMore(codec, files, raws, layers);
        LayerExactly(codec, files, raws[n], layers[n]);
      }
    }
  }

  lemma NoLayers(codec: Codec, files: Files)
    ensures LayersLead(codec, files, [], [])
  {
  }

  lemma LayersAlike(codec: Codec, files: Files, raws: seq<Json>, layers: seq<Descriptor>)
    ensures LayersLead(codec, files, raws, layers) ==> |layers| == |raws|
  {
  }

  lemma LeadOneMore(codec: Codec, files: Files, raws: seq<Json>, layers: seq<Descriptor>)
    requires |raws| == |layers| > 0
    ensures var n := |raws| - 1;
      LayersLead(codec, files, raws, layers) <==>
        LayersLead(codec, files, raws[..n], layers[..n]) && Describes(raws[n], layers[n], LAYERS) &&
        Verified(codec, files, layers[n])
  {
    hide Describes, Verified;
    var n := |raws| - 1;
    assert forall i | 0 <= i < n :: raws[i] == raws[..n][i] && layers[i] == layers[..n][i];
  }

  lemma LayerExactly(codec: Codec, files: Files, raw: Json, d: Descriptor)
    ensures DescriptorOf(raw, LayerType) == Some(d) && Blob(codec, files, d).Some? <==>
      Describes(raw, d, LAYERS) && Verified(codec, files, d)
  {
    hide DescriptorOf, Describes, Blob, Verified, LayerType;
    TypesAre();
    DescribesExactly(raw, LAYERS, LayerType);
    DigestsAre(raw, d);
    if |d.digest| == 71 { BlobExactly(codec, files, d); }
  }

  lemma DigestsAre(raw: Json, d: Descriptor)
    ensures Describes(raw, d, LAYERS) || Describes(raw, d, MANIFESTS) || Describes(raw, d, CONFIGS) ==> |d.digest| == 71
  {
  }

  lemma {:induction false} LayersCount(codec: Codec, files: Files, raws: seq<Json>)
    ensures LayersOf(codec, files, raws).Ok? ==> |LayersOf(codec, files, raws).value| == |raws|
  {
    hide DescriptorOf, Blob, LayerType;
    if raws != [] { LayersCount(codec, files, raws[..|raws| - 1]); }
  }

  ghost predicate GraphLeads(codec: Codec, files: Files, d: Descriptor, image: Image) {
    d == image.manifest && Verified(codec, files, d) &&
    exists m, config ::
      HoldsJson(codec, files, FileOf(d), m) && ManifestLeads(codec, files, m, image) &&
      HoldsJson(codec, files, FileOf(image.config), config)
  }

  lemma WithLayersExactly(
    codec: Codec, files: Files, d: Descriptor, config: Descriptor, raws: seq<Json>, image: Image)
    requires |config.digest| == 71
    ensures WithLayers(codec, files, d, config, raws) == Ok(image) <==>
      image.manifest == d && image.config == config && Verified(codec, files, config) &&
      (exists j :: HoldsJson(codec, files, FileOf(config), j)) && LayersLead(codec, files, raws, image.layers)
  {
    hide Blob, Verified, LayersOf, LayersLead;
    BlobExactly(codec, files, config);
    LayersExactly(codec, files, raws, image.layers);
    if Verified(codec, files, config) {
      VerifiedIsThere(codec, files, config);
      var parsed := Parse(codec, files[FileOf(config)]);
      if parsed.Some? { ParseExactly(codec, files, FileOf(config), parsed.value); }
    }
  }

  predicate ManifestShape(m: Json) {
    TwoAt(m, "schemaVersion") && TextAt(m, "mediaType", "application/vnd.oci.image.manifest.v1+json") &&
    "config" in m.fields && "layers" in m.fields && m.fields["layers"].Array? && m.fields["layers"].items != []
  }

  /** The step from a manifest in JSON to the image. */
  function ImageOf(codec: Codec, files: Files, d: Descriptor, m: Json): Option<Image> {
    if !ManifestShape(m) then None
    else
      match DescriptorOf(m.fields["config"], (t: string) => t == CONFIG_TYPE)
      case None => None
      case Some(config) =>
        match WithLayers(codec, files, d, config, m.fields["layers"].items)
        case Err(_) => None
        case Ok(image) => Some(image)
  }

  lemma ImageOfExactly(codec: Codec, files: Files, d: Descriptor, m: Json, image: Image)
    ensures ImageOf(codec, files, d, m) == Some(image) <==>
      d == image.manifest && ManifestLeads(codec, files, m, image) &&
      exists j :: HoldsJson(codec, files, FileOf(image.config), j)
  {
    hide DescriptorOf, Describes, Verified, LayersLead, WithLayers, HoldsJson;
    if ManifestShape(m) {
      var raw := m.fields["config"];
      DescribesExactly(raw, CONFIGS, (t: string) => t == CONFIG_TYPE);
      var found := DescriptorOf(raw, (t: string) => t == CONFIG_TYPE);
      if found.Some? {
        DigestsAre(raw, found.value);
        WithLayersExactly(codec, files, d, found.value, m.fields["layers"].items, image);
        LayersAlike(codec, files, m.fields["layers"].items, image.layers);
      }
    } else {
      LeadsShape(codec, files, m, image);
    }
  }

  lemma LeadsShape(codec: Codec, files: Files, m: Json, image: Image)
    ensures ManifestLeads(codec, files, m, image) ==> ManifestShape(m)
  {
    hide Describes, Verified;
  }

  lemma BelowIs(codec: Codec, files: Files, d: Descriptor, m: Json)
    requires |d.digest| == 71 && Verified(codec, files, d) && HoldsJson(codec, files, FileOf(d), m)
    ensures ImageOf(codec, files, d, m) ==
      if ImageBelow(codec, files, d).Ok? then Some(ImageBelow(codec, files, d).value) else None
  {
    hide DescriptorOf, Verified, WithLayers;
    BlobExactly(codec, files, d);
    ParseExactly(codec, files, FileOf(d), m);
  }

  lemma GraphExactly(codec: Codec, files: Files, d: Descriptor, image: Image)
    requires |d.digest| == 71
    ensures ImageBelow(codec, files, d) == Ok(image) <==> GraphLeads(codec, files, d, image)
  {
    hide ImageOf, ManifestLeads, Verified;
    if Verified(codec, files, d) {
      VerifiedIsThere(codec, files, d);
      var parsed := Parse(codec, files[FileOf(d)]);
      if parsed.Some? {
        ParseExactly(codec, files, FileOf(d), parsed.value);
        BelowIs(codec, files, d, parsed.value);
        ImageOfExactly(codec, files, d, parsed.value, image);
      } else {
        UnreadableBelow(codec, files, d);
      }
    } else {
      UnreadableBelow(codec, files, d);
    }
  }

  lemma UnreadableBelow(codec: Codec, files: Files, d: Descriptor)
    requires |d.digest| == 71
    requires Verified(codec, files, d) ==> Parse(codec, files[FileOf(d)]).None?
    ensures ImageBelow(codec, files, d).Err?
  {
    BlobExactly(codec, files, d);
  }

  lemma VerifiedIsThere(codec: Codec, files: Files, d: Descriptor)
    requires Verified(codec, files, d)
    ensures |d.digest| == 71 && FileOf(d) in files
  {
  }

  predicate BlobsVerified(codec: Codec, files: Files, image: Image) {
    Verified(codec, files, image.manifest) && Verified(codec, files, image.config) &&
    forall i | 0 <= i < |image.layers| :: Verified(codec, files, image.layers[i])
  }

  lemma LeadsVerified(codec: Codec, files: Files, image: Image, m: Json)
    requires Verified(codec, files, image.manifest) && ManifestLeads(codec, files, m, image)
    ensures BlobsVerified(codec, files, image) && Digested(image)
  {
    hide Describes;
  }

  /** When all blobs are there, naming nothing else is naming exactly the expected files. */
  lemma NamesExactly(codec: Codec, files: Files, image: Image)
    requires BlobsVerified(codec, files, image) && Digested(image) && "oci-layout" in files && "index.json" in files
    ensures files.Keys == ExpectedNames(image) <==> NothingElse(files, image)
  {
    hide Verified, FileOf, BlobName, ExpectedNames;
    forall name {
      NameExpected(image, name);
    }
    ExpectedAreThere(codec, files, image);
  }

  lemma NameExpected(image: Image, name: string)
    requires Digested(image)
    ensures name in ExpectedNames(image) <==> OneOf(image, name)
  {
    assert forall d | d in Descriptors(image) :: |d.digest| == 71 && BlobName(d.digest) == FileOf(d);
    if name in ExpectedNames(image) && name != "oci-layout" && name != "index.json" {
      var d :| d in Descriptors(image) && name == BlobName(d.digest);
      if d != image.manifest && d != image.config {
        var i :| 0 <= i < |image.layers| && image.layers[i] == d;
      }
    }
    assert image.manifest in Descriptors(image) && image.config in Descriptors(image);
    assert forall i | 0 <= i < |image.layers| :: image.layers[i] in Descriptors(image);
  }

  lemma ExpectedAreThere(codec: Codec, files: Files, image: Image)
    requires BlobsVerified(codec, files, image) && Digested(image) && "oci-layout" in files && "index.json" in files
    ensures forall name | name in ExpectedNames(image) :: name in files
  {
    hide ExpectedNames;
    forall name | name in ExpectedNames(image)
      ensures name in files
    {
      NameExpected(image, name);
    }
  }

  /** The last checks of an inspection, once the image is known. */
  lemma LastChecks(codec: Codec, files: Files, a: Authority, image: Image, m: Json, config: Json)
    requires Digested(image) && HoldsJson(codec, files, FileOf(image.config), config)
    requires Verified(codec, files, image.manifest) && ManifestLeads(codec, files, m, image)
    requires ManifestDescriptor(codec, files) == Ok(image.manifest)
    requires ImageBelow(codec, files, image.manifest) == Ok(image) && "oci-layout" in files && "index.json" in files
    ensures Inspect(codec, files, a) == Ok(image) <==> RuntimeFine(config, a) && NothingElse(files, image)
  {
    hide ManifestLeads, Verified, ManifestDescriptor, ImageBelow, RuntimeFine, ConfigFine, ExpectedNames, NothingElse;
    LeadsVerified(codec, files, image, m);
    NamesExactly(codec, files, image);
    RuntimeExactly(config, a);
    ParseExactly(codec, files, FileOf(image.config), config);
    ConfigBlob(image);
  }

  lemma ConfigBlob(image: Image)
    requires Digested(image)
    ensures BlobName(image.config.digest) == FileOf(image.config)
  {
  }

  lemma GraphWitness(codec: Codec, files: Files, image: Image) returns (m: Json, config: Json)
    requires |image.manifest.digest| == 71 && GraphLeads(codec, files, image.manifest, image)
    ensures Digested(image) && Verified(codec, files, image.manifest)
    ensures HoldsJson(codec, files, FileOf(image.manifest), m)
    ensures ManifestLeads(codec, files, m, image) && HoldsJson(codec, files, FileOf(image.config), config)
  {
    hide HoldsJson, Verified;
    m :| exists config ::
      HoldsJson(codec, files, FileOf(image.manifest), m) && ManifestLeads(codec, files, m, image) &&
      HoldsJson(codec, files, FileOf(image.config), config);
    config :| HoldsJson(codec, files, FileOf(image.config), config);
    LeadsVerified(codec, files, image, m);
  }

  /** An archive is accepted for an image, under an authority, if and only if it is that image and nothing else. */
  lemma AcceptedExactly(codec: Codec, files: Files, a: Authority, image: Image)
    ensures Inspect(codec, files, a) == Ok(image) <==> IsImage(codec, files, a, image)
  {
    hide Inspect, IsImage;
    if Inspect(codec, files, a) == Ok(image) { AcceptedIsImage(codec, files, a, image); }
    if IsImage(codec, files, a, image) { ImageIsAccepted(codec, files, a, image); }
  }

  lemma AcceptedIsImage(codec: Codec, files: Files, a: Authority, image: Image)
    requires Inspect(codec, files, a) == Ok(image)
    ensures IsImage(codec, files, a, image)
  {
    hide ManifestLeads, Verified, ManifestDescriptor, ImageBelow, RuntimeFine, IndexLeads, HoldsJson, NothingElse,
      ExpectedNames, Inspect;
    OciLaws.AcceptedNames(codec, files, a);
    EntryFilesExpected(image);
    EntryExactly(codec, files, image.manifest);
    EntryDigest(codec, files, image.manifest);
    GraphExactly(codec, files, image.manifest, image);
    var m, config := GraphWitness(codec, files, image);
    LastChecks(codec, files, a, image, m, config);
  }

  lemma ImageIsAccepted(codec: Codec, files: Files, a: Authority, image: Image)
    requires IsImage(codec, files, a, image)
    ensures Inspect(codec, files, a) == Ok(image)
  {
    hide ManifestLeads, Verified, ManifestDescriptor, ImageBelow, RuntimeFine, IndexLeads, NothingElse, Inspect;
    VerifiedIsThere(codec, files, image.manifest);
    EntryExactly(codec, files, image.manifest);
    GraphExactly(codec, files, image.manifest, image);
    var index, m, config :|
      HoldsJson(codec, files, "index.json", index) && IndexLeads(index, image.manifest) &&
      HoldsJson(codec, files, FileOf(image.manifest), m) && ManifestLeads(codec, files, m, image) &&
      HoldsJson(codec, files, FileOf(image.config), config) && RuntimeFine(config, a) && NothingElse(files, image);
    LeadsVerified(codec, files, image, m);
    LastChecks(codec, files, a, image, m, config);
  }

  lemma EntryFilesExpected(image: Image)
    ensures "oci-layout" in ExpectedNames(image) && "index.json" in ExpectedNames(image)
  {
  }

  lemma EntryDigest(codec: Codec, files: Files, d: Descriptor)
    requires EntryLeads(codec, files, d)
    ensures |d.digest| == 71
  {
  }

  // ---- Refusals ----

  function PayloadAt(files: Files, name: string): Bytes {
    if name in files then files[name] else []
  }

  /** The JSON value of a payload, unless it is too large or holds none. */
  predicate Readable(codec: Codec, payload: Bytes) {
    |payload| <= 0x40_0000 && codec.json(payload).Some?
  }

  ghost predicate Described(raw: Json, types: set<string>) {
    exists d: Descriptor :: Describes(raw, d, types)
  }

  /** Two entry files that hold JSON, the first of them the layout version. */
  predicate EntriesReadable(codec: Codec, files: Files) {
    Readable(codec, PayloadAt(files, "oci-layout")) && Readable(codec, PayloadAt(files, "index.json"))
  }

  predicate EntriesShaped(codec: Codec, files: Files)
    requires EntriesReadable(codec, files)
  {
    codec.json(PayloadAt(files, "oci-layout")) == Some(Object(map["imageLayoutVersion" := Text("1.0.0")])) &&
    IndexShape(codec.json(PayloadAt(files, "index.json")).value)
  }

  function Entry(codec: Codec, files: Files): Json
    requires EntriesReadable(codec, files) && EntriesShaped(codec, files)
  {
    codec.json(PayloadAt(files, "index.json")).value.fields["manifests"].items[0]
  }

  /** The codes of the entry files, in the order of the checks. */
  lemma EntryRefusals(codec: Codec, files: Files)
    ensures var r := ManifestDescriptor(codec, files);
      if !EntriesReadable(codec, files) then r == Err(JsonInvalid)
      else if !EntriesShaped(codec, files) then r == Err(IndexInvalid)
      else if !Described(Entry(codec, files), MANIFESTS) then r == Err(DescriptorInvalid)
      else if !PlatformRight(Entry(codec, files)) then r == Err(PlatformInvalid)
      else r.Ok? && Describes(Entry(codec, files), r.value, MANIFESTS)
  {
    hide DescriptorOf, Describes, ReferenceText, PlatformRight, PlatformFine, TwoAt, IsTwo;
    if EntriesReadable(codec, files) {
      var index := codec.json(PayloadAt(files, "index.json")).value;
      TwoExactly(index, "schemaVersion");
      TextExactly(index, "mediaType", INDEX_TYPE);
      if EntriesShaped(codec, files) {
        DescribesExactly(Entry(codec, files), MANIFESTS, (t: string) => t == MANIFEST_TYPE);
        PlatformExactly(Entry(codec, files));
      }
    }
  }

  lemma TwoExactly(j: Json, key: string)
    ensures IsTwo(Get(j, key)) <==> TwoAt(j, key)
  {
  }

  lemma PlatformExactly(raw: Json)
    ensures PlatformFine(raw) <==> PlatformRight(raw)
  {
    hide ReferenceText;
  }

  /** The manifest, the config and the layers of an image, up to the first that fails its check. */
  lemma GraphRefusals(codec: Codec, files: Files, d: Descriptor)
    requires |d.digest| == 71
    ensures var r := ImageBelow(codec, files, d);
      if !Verified(codec, files, d) then r == Err(BlobInvalid)
      else if !Readable(codec, files[FileOf(d)]) then r == Err(JsonInvalid)
      else
        var m := codec.json(files[FileOf(d)]).value;
        if !LayersListed(m) then r == Err(ManifestInvalid)
        else if "config" !in m.fields || !Described(m.fields["config"], CONFIGS) then r == Err(DescriptorInvalid)
        else
          exists config :: Describes(m.fields["config"], config, CONFIGS) &&
            r == if !Verified(codec, files, config) then Err(BlobInvalid)
                 else if !Readable(codec, files[FileOf(config)]) then Err(JsonInvalid)
                 else WithLayers(codec, files, d, config, m.fields["layers"].items)
  {
    hide DescriptorOf, Describes, Verified, LayersOf;
    BlobExactly(codec, files, d);
    if Verified(codec, files, d) {
      VerifiedIsThere(codec, files, d);
      var parsed := Parse(codec, files[FileOf(d)]);
      if parsed.Some? && LayersListed(parsed.value) && "config" in parsed.value.fields {
        var raw := parsed.value.fields["config"];
        DescribesExactly(raw, CONFIGS, (t: string) => t == CONFIG_TYPE);
        var config := DescriptorOf(raw, (t: string) => t == CONFIG_TYPE);
        if config.Some? {
          DigestsAre(raw, config.value);
          BlobExactly(codec, files, config.value);
        }
      }
    }
  }

  predicate LayersListed(m: Json) {
    TwoAt(m, "schemaVersion") && TextAt(m, "mediaType", "application/vnd.oci.image.manifest.v1+json") &&
    "layers" in m.fields && m.fields["layers"].Array? && |m.fields["layers"].items| > 0
  }

  /** The first layer that fails decides: by its descriptor, or by its blob. */
  lemma {:induction false} LayerRefusals(codec: Codec, files: Files, raws: seq<Json>)
    ensures LayersOf(codec, files, raws).Err? ==>
      exists k | 0 <= k < |raws| ::
        (exists layers :: LayersLead(codec, files, raws[..k], layers)) &&
        ((LayersOf(codec, files, raws) == Err(DescriptorInvalid) && !Described(raws[k], LAYERS)) ||
         (LayersOf(codec, files, raws) == Err(BlobInvalid) && exists d ::
            Describes(raws[k], d, LAYERS) && !Verified(codec, files, d)))
  {
    hide DescriptorOf, Describes, Blob, Verified, LayerType, LayersLead;
    if raws != [] {
      var n := |raws| - 1;
      if LayersOf(codec, files, raws[..n]).Err? {
        LayerRefusals(codec, files, raws[..n]);
        var k :| 0 <= k < n && (exists layers :: LayersLead(codec, files, raws[..n][..k], layers)) &&
          ((LayersOf(codec, files, raws[..n]) == Err(DescriptorInvalid) && !Described(raws[..n][k], LAYERS)) ||
           (LayersOf(codec, files, raws[..n]) == Err(BlobInvalid) && exists d ::
              Describes(raws[..n][k], d, LAYERS) && !Verified(codec, files, d)));
        assert raws[..n][..k] == raws[..k] && raws[..n][k] == raws[k];
      } else {
        LayersExactly(codec, files, raws[..n], LayersOf(codec, files, raws[..n]).value);
        TypesAre();
        DescribesExactly(raws[n], LAYERS, LayerType);
        var d := DescriptorOf(raws[n], LayerType);
        if d.Some? {
          DigestsAre(raws[n], d.value);
          BlobExactly(codec, files, d.value);
        }
      }
    }
  }

  /** An inspection refuses as its entry files do, then as its image, then its runtime settings, then for a name. */
  lemma InspectionRefusals(codec: Codec, files: Files, a: Authority)
    ensures var r, entry := Inspect(codec, files, a), ManifestDescriptor(codec, files);
      if entry.Err? then r == Err(entry.error)
      else
        |entry.value.digest| == 71 &&
        var below := ImageBelow(codec, files, entry.value);
        if below.Err? then r == Err(below.error)
        else
          Digested(below.value) && Verified(codec, files, below.value.config) &&
          Readable(codec, files[FileOf(below.value.config)]) &&
          var config := codec.json(files[FileOf(below.value.config)]).value;
          if !RuntimeFine(config, a) then ConfigFine(config, a).Some? && r == Err(ConfigFine(config, a).value)
          else r.Err? ==> r == Err(ArchiveInvalid)
  {
    hide ManifestLeads, Verified, ManifestDescriptor, ImageBelow, RuntimeFine, ConfigFine, ExpectedNames, Describes;
    EntryRefusals(codec, files);
    var entry := ManifestDescriptor(codec, files);
    if entry.Ok? {
      DigestsAre(Entry(codec, files), entry.value);
      var below := ImageBelow(codec, files, entry.value);
      if below.Ok? {
        GraphExactly(codec, files, entry.value, below.value);
        OciLaws.ImageIsVerified(codec, files, entry.value);
        var m, config := GraphWitness(codec, files, below.value);
        ParseExactly(codec, files, FileOf(below.value.config), config);
        ConfigBlob(below.value);
        LeadsVerified(codec, files, below.value, m);
        RuntimeExactly(config, a);
      }
    }
  }
}
