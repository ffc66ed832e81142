/**
 What Azure returns for a template: the template decorated with service defaults.
 The canonicaliser accepts exactly the decorations of valid templates.
 */
module Readback {
  import opened Wrappers
  import opened Revision

  /** A member that Azure adds: absent, null, or holding a value. */
  datatype Field = Absent | NullField | NumberField(n: int) | TextField(text: string) | OtherField

  datatype ReadResources = ReadResources(cpu: real, memory: string, ephemeralStorage: Field)

  datatype ReadContainer = ReadContainer(
    name: string, image: string, env: seq<EnvRow>, probes: seq<Probe>,
    resources: ReadResources, imageType: Field)

  datatype ReadScale = ReadScale(
    minReplicas: int, maxReplicas: int,
    cooldownPeriod: Field, pollingInterval: Field, rules: Field)

  datatype ReadTemplate = ReadTemplate(
    revisionSuffix: string, containers: seq<ReadContainer>, scale: ReadScale,
    customMetricsSettings: Field, initContainers: Field, serviceBinds: Field,
    terminationGracePeriodSeconds: Field, volumes: Field)

  function CanonicalizeReadback(r: ReadTemplate): Result<Template, RevisionError> {
    if r.customMetricsSettings != NullField || r.initContainers != NullField ||
       r.serviceBinds != NullField || r.terminationGracePeriodSeconds != NullField ||
       r.volumes != NullField
    then Err(ProjectionInvalid)
    else if r.scale.cooldownPeriod != NumberField(300) ||
            r.scale.pollingInterval != NumberField(30) || r.scale.rules != NullField
    then Err(ProjectionInvalid)
    else if |r.containers| != 1 then Err(ProjectionInvalid)
    else
      var c := r.containers[0];
      if c.imageType != TextField("ContainerImage") then Err(ProjectionInvalid)
      else if c.resources.ephemeralStorage != Absent &&
              c.resources.ephemeralStorage != TextField("2Gi")
      then Err(ProjectionInvalid)
      else
        var canonical := Template(
          r.revisionSuffix,
          [Container(c.name, c.image, c.env, c.probes, Resources(c.resources.cpu, c.resources.memory))],
          Scale(r.scale.minReplicas, r.scale.maxReplicas));
        if ValidTemplate(canonical) then Ok(canonical) else Err(ProjectionInvalid)
  }

  /** A template as Azure reports it, with or without the ephemeral storage member. */
  function Decorate(t: Template, storage: bool): ReadTemplate
    requires |t.containers| == 1
  {
    var c := t.containers[0];
    ReadTemplate(
      t.revisionSuffix,
      [ReadContainer(c.name, c.image, c.env, c.probes,
                     ReadResources(c.resources.cpu, c.resources.memory,
                                   if storage then TextField("2Gi") else Absent),
                     TextField("ContainerImage"))],
      ReadScale(t.scale.minReplicas, t.scale.maxReplicas, NumberField(300), NumberField(30), NullField),
      NullField, NullField, NullField, NullField, NullField)
  }

  /** The readbacks that canonicalise to `t` are the two decorations of a valid `t`, and no others. */
  lemma ReadbackExact(r: ReadTemplate, t: Template)
    ensures CanonicalizeReadback(r) == Ok(t) <==>
      ValidTemplate(t) && (r == Decorate(t, false) || r == Decorate(t, true))
  {
    if CanonicalizeReadback(r) == Ok(t) {
      var storage := r.containers[0].resources.ephemeralStorage != Absent;
      assert r.containers == Decorate(t, storage).containers;
    }
    if ValidTemplate(t) && (r == Decorate(t, false) || r == Decorate(t, true)) {
      assert [t.containers[0]] == t.containers;
    }
  }
}
