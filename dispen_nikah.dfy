/** The wedding-dispensation request screen (letter type 3). */
module DispenNikah {
  import opened Strings
  import opened Optional
  import opened Forms

  /** The letter type this screen submits (`jenis_surat_id`); it is also
      the id of the catalog the screen loads. */
  const JenisSuratId: string := "3"

  /** The state a date change touches: the form and the per-field
      "date picker open" flags. */
  datatype DateState = DateState(form: Form, showPicker: map<string, bool>)

  /** A date-picker change for field `name`. The picker for that field is
      always closed; only a selected date (given as its ISO-8601 text)
      updates the field, to the calendar-date part before the first `T`. */
  function DateChange(st: DateState, name: string, selectedIso: Option<string>): (r: DateState)
    ensures name in r.showPicker && !r.showPicker[name]
    ensures forall k :: k != name ==> (k in r.showPicker <==> k in st.showPicker)
    ensures forall k :: k != name && k in st.showPicker ==> r.showPicker[k] == st.showPicker[k]
    ensures forall k :: k != name ==> Get(r.form, k) == Get(st.form, k)
    ensures selectedIso.None? ==> r.form == st.form
    ensures selectedIso.Some? ==>
      && Get(r.form, name).Some? && Get(r.form, name).value.Text?
      && Get(r.form, name).value.text <= selectedIso.value
      && 'T' !in Get(r.form, name).value.text
      && (|Get(r.form, name).value.text| < |selectedIso.value| ==>
            selectedIso.value[|Get(r.form, name).value.text|] == 'T')
  {
    var shown := st.showPicker[name := false];
    match selectedIso
    case None => DateState(st.form, shown)
    case Some(iso) => DateState(st.form[name := Text(BeforeFirst(iso, 'T'))], shown)
  }

  /** The body `handleSubmit` posts to `/pengajuan`: nothing at all without
      a loaded user; otherwise the five identity parts and then exactly one
      `fields[<id>]` part per catalog field, in catalog order. */
  method BuildSubmission(user: Option<User>, fields: seq<FieldSurat>, form: Form)
    returns (body: Option<seq<Part>>)
    ensures user.None? <==> body.None?
    ensures body.Some? ==> |body.value| == 5 + |fields|
    ensures body.Some? ==> body.value[..5] == Header(user.value, JenisSuratId)
    ensures body.Some? ==> forall i :: 0 <= i < |fields| ==> body.value[5 + i] == TypedFieldPart(fields[i], form)
  {
    if user.None? {
      return None;
    }
    var parts := Header(user.value, JenisSuratId);
    var i := 0;
    while i < |fields|
      invariant 0 <= i <= |fields|
      invariant |parts| == 5 + i
      invariant parts[..5] == Header(user.value, JenisSuratId)
      invariant forall j :: 0 <= j < i ==> parts[5 + j] == TypedFieldPart(fields[j], form)
    {
      parts := parts + [TypedFieldPart(fields[i], form)];
      i := i + 1;
    }
    return Some(parts);
  }
}
