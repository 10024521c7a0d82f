/** The event-permit request screen, which posts JSON instead of a
    multipart body. */
module IjinHajatan {
  import opened Optional
  import opened Forms

  /** The catalog this screen loads, and the letter type its payload
      carries: the payload says 1 although catalog 4 is loaded. */
  const CatalogId: int := 4
  const PayloadJenisSuratId: int := 1

  /** This screen's form holds text only. */
  type TextForm = map<string, string>

  /** One entry of the payload's `fields` list. */
  datatype FieldEntry = FieldEntry(fieldId: int, nilai: string)

  /** The JSON payload: the user's properties, the letter type and the
      field values. */
  datatype Payload = Payload(user: User, jenisSuratId: int, fields: seq<FieldEntry>)

  /** `form[name] || ""`. */
  function TextOf(form: TextForm, name: string): string
  {
    if name in form then form[name] else ""
  }

  /** `fields.map(f => ({field_id: f.id, nilai: form[f.nama_field] || ""}))`:
      one entry per catalog field, in catalog order. */
  function Entries(fields: seq<FieldSurat>, form: TextForm): (r: seq<FieldEntry>)
    ensures |r| == |fields|
    ensures forall i :: 0 <= i < |fields| ==>
      r[i].fieldId == fields[i].id && r[i].nilai == TextOf(form, fields[i].name)
    decreases |fields|
  {
    if fields == [] then []
    else [FieldEntry(fields[0].id, TextOf(form, fields[0].name))] + Entries(fields[1..], form)
  }

  /** The payload `handleSubmit` posts: nothing at all without a loaded
      user; otherwise the user, letter type 1 and one entry per field. */
  function BuildPayload(user: Option<User>, fields: seq<FieldSurat>, form: TextForm): (r: Option<Payload>)
    ensures r.None? <==> user.None?
    ensures r.Some? ==> r.value.user == user.value && r.value.jenisSuratId == PayloadJenisSuratId != CatalogId
    ensures r.Some? ==> |r.value.fields| == |fields|
    ensures r.Some? ==> forall i :: 0 <= i < |fields| ==>
      r.value.fields[i] == FieldEntry(fields[i].id, TextOf(form, fields[i].name))
  {
    match user
    case None => None
    case Some(u) => Some(Payload(u, PayloadJenisSuratId, Entries(fields, form)))
  }

  /** The value a payload carries for field id `id`: the `nilai` of its
      first entry with that `field_id`, as the server reads it. */
  function NilaiFor(entries: seq<FieldEntry>, id: int): Option<string>
    decreases |entries|
  {
    if entries == [] then None
    else if entries[0].fieldId == id then Some(entries[0].nilai)
    else NilaiFor(entries[1..], id)
  }

  /** Round trip: with distinct field ids, looking a catalog field up by
      its id in the payload gives back the text the form held for it. */
  lemma {:induction false} PayloadRoundTrip(fields: seq<FieldSurat>, form: TextForm, i: nat)
    requires i < |fields|
    requires forall a, b :: 0 <= a < b < |fields| ==> fields[a].id != fields[b].id
    ensures NilaiFor(Entries(fields, form), fields[i].id) == Some(TextOf(form, fields[i].name))
    decreases i
  {
    if i > 0 {
      assert fields[0].id != fields[i].id;
      assert fields[1..][i - 1] == fields[i];
      PayloadRoundTrip(fields[1..], form, i - 1);
    }
  }

  /** A field id outside the catalog has no entry in the payload. */
  lemma {:induction false} NoEntryOutsideCatalog(fields: seq<FieldSurat>, form: TextForm, id: int)
    requires forall f :: f in fields ==> f.id != id
    ensures NilaiFor(Entries(fields, form), id) == None
    decreases |fields|
  {
    if fields != [] {
      assert fields[0] in fields;
      assert forall f :: f in fields[1..] ==> f in fields;
      NoEntryOutsideCatalog(fields[1..], form, id);
    }
  }
}
