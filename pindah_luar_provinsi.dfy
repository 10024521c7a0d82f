/** The out-of-province moving request screen (letter type 2). */
module PindahLuarProvinsi {
  import opened Optional
  import opened Forms

  /** The letter type this screen submits (`jenis_surat_id`); it is also
      the id of the catalog the screen loads. */
  const JenisSuratId: string := "2"

  /** The body `handleSubmit` posts to `/pengajuan`: nothing at all without
      a loaded user; otherwise the five identity parts and then exactly one
      `fields[<id>]` part per catalog field, in catalog order, each a file
      part exactly when the field is typed `file` and holds a uri. */
  method BuildSubmission(user: Option<User>, fields: seq<FieldSurat>, form: Form)
    returns (body: Option<seq<Part>>)
    ensures user.None? <==> body.None?
    ensures body.Some? ==> |body.value| == 5 + |fields|
    ensures body.Some? ==> body.value[..5] == Header(user.value, JenisSuratId)
    ensures body.Some? ==> forall i :: 0 <= i < |fields| ==>
      && body.value[5 + i].key == FieldsKey(fields[i].id)
      && (body.value[5 + i].FilePart? <==> fields[i].kind == "file" && HasUri(Get(form, fields[i].name)))
      && body.value[5 + i] == TypedFieldPart(fields[i], form)
  {
    if user.None? {
      return None;
    }
    var parts := Header(user.value, JenisSuratId);
    var i := 0;
    while i < |fields|
      invariant 0 <= i <= |fields|
      invariant |parts| == 5 + i
      invariant parts[..5] == Header(user.value, JenisSuratId)
      invariant forall j :: 0 <= j < i ==> parts[5 + j] == TypedFieldPart(fields[j], form)
    {
      parts := parts + [TypedFieldPart(fields[i], form)];
      i := i + 1;
    }
    return Some(parts);
  }
}
