/** The within-province moving request screen (letter type 1). */
module PindahDalamProvinsi {
  import opened Optional
  import opened Forms

  /** The letter type this screen submits (`jenis_surat_id`); it is also
      the id of the catalog the screen loads. */
  const JenisSuratId: string := "1"

  /** The pick handler: the picked asset's `{uri, name, mimeType}` is stored
      only when the picker was not cancelled and returned an asset. */
  function PickFile(form: Form, name: string, result: PickResult): (r: Form)
    ensures !(result.Chosen? && |result.assets| > 0) ==> r == form
    ensures forall k :: k != name ==> Get(r, k) == Get(form, k)
    ensures result.Chosen? && |result.assets| > 0 ==>
      Get(r, name) == Some(Attached(result.assets[0]))
  {
    if result.Chosen? && |result.assets| > 0 then
      var a := result.assets[0];
      form[name := Attached(Asset(a.uri, a.name, a.mimeType))]
    else
      form
  }

  /** The catalog fields whose form value is truthy, in catalog order:
      the only ones this screen sends. */
  function Present(fields: seq<FieldSurat>, form: Form): (r: seq<FieldSurat>)
    ensures |r| <= |fields|
    decreases |fields|
  {
    if fields == [] then []
    else
      var last := fields[|fields| - 1];
      Present(fields[..|fields| - 1], form) + (if Truthy(Get(form, last.name)) then [last] else [])
  }

  /** `Present` keeps exactly the fields whose value is truthy. */
  lemma {:induction false} PresentMembers(fields: seq<FieldSurat>, form: Form)
    ensures forall f :: f in Present(fields, form) <==> f in fields && Truthy(Get(form, f.name))
    decreases |fields|
  {
    if fields != [] {
      var init := fields[..|fields| - 1];
      assert fields == init + [fields[|fields| - 1]];
      PresentMembers(init, form);
    }
  }

  /** The part sent for a field with a truthy value: any value with a uri
      becomes a file part, whatever the field's type, with `upload` and
      `application/octet-stream` as defaults; other values go as they stand. */
  function UriFieldPart(f: FieldSurat, form: Form): (p: Part)
    ensures p.key == FieldsKey(f.id)
    ensures p.FilePart? <==> HasUri(Get(form, f.name))
    ensures p.FilePart? ==>
      && p.uri == Get(form, f.name).value.asset.uri
      && p.fileName == (if Get(form, f.name).value.asset.name != "" then Get(form, f.name).value.asset.name else "upload")
      && p.mimeType == OrElse(Get(form, f.name).value.asset.mimeType, "application/octet-stream")
    ensures !p.FilePart? ==> p == ValuePart(FieldsKey(f.id), Get(form, f.name))
  {
    var v := Get(form, f.name);
    if HasUri(v) then
      var a := v.value.asset;
      FilePart(FieldsKey(f.id), a.uri, if a.name != "" then a.name else "upload",
               OrElse(a.mimeType, "application/octet-stream"))
    else
      ValuePart(FieldsKey(f.id), v)
  }

  /** The parts for a list of fields, one each, in order. */
  function FieldParts(fs: seq<FieldSurat>, form: Form): (r: seq<Part>)
    ensures |r| == |fs|
    decreases |fs|
  {
    if fs == [] then [] else FieldParts(fs[..|fs| - 1], form) + [UriFieldPart(fs[|fs| - 1], form)]
  }

  /** The part at each position is the one for the field at that position. */
  lemma {:induction false} FieldPartsAt(fs: seq<FieldSurat>, form: Form)
    ensures forall j :: 0 <= j < |fs| ==> FieldParts(fs, form)[j] == UriFieldPart(fs[j], form)
    decreases |fs|
  {
    if fs != [] {
      var init := fs[..|fs| - 1];
      FieldPartsAt(init, form);
      forall j | 0 <= j < |init| ensures init[j] == fs[j] { }
    }
  }

  /** `Present` over one more field of the catalog. */
  lemma PresentStep(fields: seq<FieldSurat>, form: Form, i: nat)
    requires i < |fields|
    ensures Truthy(Get(form, fields[i].name)) ==> Present(fields[..i + 1], form) == Present(fields[..i], form) + [fields[i]]
    ensures !Truthy(Get(form, fields[i].name)) ==> Present(fields[..i + 1], form) == Present(fields[..i], form)
  {
    assert fields[..i + 1][..i] == fields[..i];
    assert Present(fields[..i], form) + [] == Present(fields[..i], form);
  }

  /** `FieldParts` of a list with one more field. */
  lemma FieldPartsStep(fs: seq<FieldSurat>, f: FieldSurat, form: Form)
    ensures FieldParts(fs + [f], form) == FieldParts(fs, form) + [UriFieldPart(f, form)]
  {
    assert (fs + [f])[..|fs|] == fs;
  }

  /** One pass of the submission loop: the body over one more field of the
      catalog gains that field's part exactly when its value is truthy. */
  lemma SubmissionStep(header: seq<Part>, fields: seq<FieldSurat>, form: Form, i: nat)
    requires i < |fields|
    ensures Truthy(Get(form, fields[i].name)) ==>
      header + FieldParts(Present(fields[..i + 1], form), form)
      == (header + FieldParts(Present(fields[..i], form), form)) + [UriFieldPart(fields[i], form)]
    ensures !Truthy(Get(form, fields[i].name)) ==>
      header + FieldParts(Present(fields[..i + 1], form), form)
      == header + FieldParts(Present(fields[..i], form), form)
  {
    var sent := Present(fields[..i], form);
    PresentStep(fields, form, i);
    if Truthy(Get(form, fields[i].name)) {
      FieldPartsStep(sent, fields[i], form);
      assert header + (FieldParts(sent, form) + [UriFieldPart(fields[i], form)])
        == (header + FieldParts(sent, form)) + [UriFieldPart(fields[i], form)];
    }
  }

  /** The body `handleSubmit` posts to `/pengajuan`: nothing at all without
      a loaded user; otherwise the five identity parts and then one
      `fields[<id>]` part per field with a truthy value, in catalog order. */
  method BuildSubmission(user: Option<User>, fields: seq<FieldSurat>, form: Form)
    returns (body: Option<seq<Part>>)
    ensures user.None? <==> body.None?
    ensures body.Some? ==> body.value == Header(user.value, JenisSuratId) + FieldParts(Present(fields, form), form)
    ensures body.Some? ==> |body.value| == 5 + |Present(fields, form)| <= 5 + |fields|
  {
    if user.None? {
      return None;
    }
    var header := Header(user.value, JenisSuratId);
    var parts := header;
    var i := 0;
    while i < |fields|
      invariant 0 <= i <= |fields|
      invariant parts == header + FieldParts(Present(fields[..i], form), form)
    {
      SubmissionStep(header, fields, form, i);
      var value := Get(form, fields[i].name);
      if Truthy(value) {
        parts := parts + [UriFieldPart(fields[i], form)];
      }
      i := i + 1;
    }
    assert fields[..|fields|] == fields;
    return Some(parts);
  }

  /** With distinct field ids, the body carries a `fields[<id>]` part for a
      catalog field exactly when that field's value is truthy. */
  lemma {:induction false} PartSentIffValueTruthy(fields: seq<FieldSurat>, form: Form, i: nat)
    requires i < |fields|
    requires forall a, b :: 0 <= a < b < |fields| ==> fields[a].id != fields[b].id
    ensures Truthy(Get(form, fields[i].name)) ==>
      exists j :: 0 <= j < |Present(fields, form)| && Present(fields, form)[j].id == fields[i].id
    ensures forall j :: 0 <= j < |Present(fields, form)| && Present(fields, form)[j].id == fields[i].id ==>
      Truthy(Get(form, fields[i].name))
  {
    var p := Present(fields, form);
    var f := fields[i];
    PresentMembers(fields, form);
    if Truthy(Get(form, f.name)) {
      assert f in p;
      var j :| 0 <= j < |p| && p[j] == f;
      assert p[j].id == f.id;
    }
    forall j | 0 <= j < |p| && p[j].id == f.id
      ensures Truthy(Get(form, f.name))
    {
      assert p[j] in p;
      var k :| 0 <= k < |fields| && fields[k] == p[j];
      assert !(k < i) && !(i < k);
    }
  }
}
