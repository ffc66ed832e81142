/** JSON values, and the MergePatch algorithm of section 2 of RFC 7396 on them. */
module Json {
  import opened Wrappers

  datatype Json =
    | Null
    | Bool(truth: bool)
    | Integer(integer: int)
    | Number(number: real)
    | Text(text: string)
    | Array(items: seq<Json>)
    | Object(fields: map<string, Json>)

  function MergePatch(target: Option<Json>, patch: Json): Json
    decreases patch
  {
    if !patch.Object? then patch else
    var base := if target.Some? && target.value.Object? then target.value.fields else map[];
    Object(
      map key | key in base.Keys + patch.fields.Keys && !(key in patch.fields && patch.fields[key].Null?) ::
        if key in patch.fields
        then MergePatch(if key in base then Some(base[key]) else None, patch.fields[key])
        else base[key])
  }
}
