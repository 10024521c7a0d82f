/** The resubmission screen: it reopens a stored submission, seeds a form
    and a file map from it, validates required fields and posts an update
    that re-sends text and only the files picked anew. */
module EditPengajuan {
  import opened Strings
  import opened Optional
  import opened Forms
  import AuthContext

  /** One stored value of a submission (`data_pengajuans` entry): the
      field's descriptor (`field_surats`) and the stored `nilai`, which for
      a file field is a server-side path. */
  datatype FieldData = FieldData(field: FieldSurat, nilai: string)

  /** The submission detail (`GET /pengajuan/{id}`) as this screen reads it;
      an absent `data_pengajuans` is the empty list. */
  datatype Detail = Detail(name: string, email: string, alamat: string, items: seq<FieldData>)

  /** A file entry: a file just picked on the device (`isLocal`), or a
      reference to the file the server already stores. */
  datatype FileState = FileState(uri: string, name: string, mimeType: string, isLocal: bool)

  /** Keys of this screen's form: `name`, `email`, `alamat`, or `field_<id>`. */
  datatype FormKey = Prop(name: string) | FieldSlot(id: int)

  /** The screen's editable state: the form and the file map keyed by field id. */
  datatype EditState = EditState(form: map<FormKey, string>, files: map<int, FileState>)

  predicate IsFile(item: FieldData)
  {
    item.field.kind == "file"
  }

  /** No two stored values belong to the same field. */
  ghost predicate UniqueIds(items: seq<FieldData>)
  {
    forall a, b :: 0 <= a < b < |items| ==> items[a].field.id != items[b].field.id
  }

  // ---------------------------------------------------------------- seeding

  /** The remote reference seeded for a stored file path: the uri under the
      image base, the last `/`-segment of the path as its name (`file` when
      that segment is empty), typed as PDF and not local. */
  function RemoteFile(imageBase: string, path: string): (r: FileState)
    ensures !r.isLocal && r.mimeType == "application/pdf"
    ensures r.uri == imageBase + "/" + path
    ensures r.name != "" && '/' !in r.name
    ensures r.name == AfterLast(path, '/') || (AfterLast(path, '/') == "" && r.name == "file")
  {
    var last := AfterLast(path, '/');
    AfterLastSegment(path, '/');
    assert "file" == ['f', 'i', 'l', 'e'];
    FileState(imageBase + "/" + path, if last != "" then last else "file", "application/pdf", false)
  }

  /** The state before any stored value is read: the three profile
      properties and no files. */
  function SeedBase(d: Detail): EditState
  {
    EditState(map[Prop("name") := d.name, Prop("email") := d.email, Prop("alamat") := d.alamat], map[])
  }

  /** Reading one stored value: a file field with a path seeds a remote
      reference, a file field without one seeds nothing, any other field
      seeds its text under `field_<id>`. */
  function SeedStep(st: EditState, item: FieldData, imageBase: string): EditState
  {
    if IsFile(item) then
      if item.nilai != "" then EditState(st.form, st.files[item.field.id := RemoteFile(imageBase, item.nilai)])
      else st
    else
      EditState(st.form[FieldSlot(item.field.id) := item.nilai], st.files)
  }

  /** The state after reading `items` in order, starting from `SeedBase(d)`. */
  function Seeded(d: Detail, items: seq<FieldData>, imageBase: string): EditState
    decreases |items|
  {
    if items == [] then SeedBase(d)
    else SeedStep(Seeded(d, items[..|items| - 1], imageBase), items[|items| - 1], imageBase)
  }

  /** `fetchDetail`'s seeding loop over `data_pengajuans`. */
  method SeedFromDetail(d: Detail, imageBase: string) returns (form: map<FormKey, string>, files: map<int, FileState>)
    ensures EditState(form, files) == Seeded(d, d.items, imageBase)
  {
    form := map[Prop("name") := d.name, Prop("email") := d.email, Prop("alamat") := d.alamat];
    files := map[];
    var i := 0;
    while i < |d.items|
      invariant 0 <= i <= |d.items|
      invariant EditState(form, files) == Seeded(d, d.items[..i], imageBase)
    {
      var item := d.items[i];
      assert d.items[..i + 1][..i] == d.items[..i];
      if IsFile(item) {
        if item.nilai != "" {
          files := files[item.field.id := RemoteFile(imageBase, item.nilai)];
        }
      } else {
        form := form[FieldSlot(item.field.id) := item.nilai];
      }
      i := i + 1;
    }
    assert d.items[..|d.items|] == d.items;
  }

  /** Seeding copies the three profile properties and adds no other
      profile key. */
  lemma {:induction false} SeededProfile(d: Detail, items: seq<FieldData>, imageBase: string)
    ensures var s := Seeded(d, items, imageBase);
      && Prop("name") in s.form && s.form[Prop("name")] == d.name
      && Prop("email") in s.form && s.form[Prop("email")] == d.email
      && Prop("alamat") in s.form && s.form[Prop("alamat")] == d.alamat
      && (forall k :: k in s.form && k.Prop? ==> k.name in {"name", "email", "alamat"})
    decreases |items|
  {
    if items != [] {
      SeededProfile(d, items[..|items| - 1], imageBase);
    }
  }

  /** What seeding yields per stored value, for distinct field ids: a
      non-file value sits under `field_<id>`; a file field with a path has
      its remote reference, one without a path has no entry. */
  lemma {:induction false} SeededFields(d: Detail, items: seq<FieldData>, imageBase: string)
    requires UniqueIds(items)
    ensures var s := Seeded(d, items, imageBase);
      forall a :: 0 <= a < |items| ==>
        && (FieldSlot(items[a].field.id) in s.form <==> !IsFile(items[a]))
        && (!IsFile(items[a]) ==> s.form[FieldSlot(items[a].field.id)] == items[a].nilai)
        && (items[a].field.id in s.files <==> IsFile(items[a]) && items[a].nilai != "")
        && (items[a].field.id in s.files ==> s.files[items[a].field.id] == RemoteFile(imageBase, items[a].nilai))
    decreases |items|
  {
    if items != [] {
      var n := |items| - 1;
      var pre := items[..n];
      assert UniqueIds(pre);
      SeededFields(d, pre, imageBase);
      var s0 := Seeded(d, pre, imageBase);
      var s := Seeded(d, items, imageBase);
      assert s == SeedStep(s0, items[n], imageBase);
      forall a | 0 <= a < |items|
        ensures && (FieldSlot(items[a].field.id) in s.form <==> !IsFile(items[a]))
                && (!IsFile(items[a]) ==> s.form[FieldSlot(items[a].field.id)] == items[a].nilai)
                && (items[a].field.id in s.files <==> IsFile(items[a]) && items[a].nilai != "")
                && (items[a].field.id in s.files ==> s.files[items[a].field.id] == RemoteFile(imageBase, items[a].nilai))
      {
        if a < n {
          assert pre[a] == items[a] && items[a].field.id != items[n].field.id;
        } else {
          SeededOnlyFromItems(d, pre, imageBase);
          assert forall b :: 0 <= b < n ==> pre[b].field.id != items[n].field.id by {
            forall b | 0 <= b < n ensures pre[b].field.id != items[n].field.id {
              assert pre[b] == items[b];
            }
          }
        }
      }
    }
  }

  /** Every `field_<id>` key and every file entry seeding makes belongs to
      some stored value. */
  lemma {:induction false} SeededOnlyFromItems(d: Detail, items: seq<FieldData>, imageBase: string)
    ensures var s := Seeded(d, items, imageBase);
      && (forall k :: k in s.form && k.FieldSlot? ==> exists a :: 0 <= a < |items| && items[a].field.id == k.id)
      && (forall id :: id in s.files ==> exists a :: 0 <= a < |items| && items[a].field.id == id)
    decreases |items|
  {
    if items != [] {
      var n := |items| - 1;
      var pre := items[..n];
      SeededOnlyFromItems(d, pre, imageBase);
      var s := Seeded(d, items, imageBase);
      forall k | k in s.form && k.FieldSlot?
        ensures exists a :: 0 <= a < |items| && items[a].field.id == k.id
      {
        if k != FieldSlot(items[n].field.id) {
          var a :| 0 <= a < n && pre[a].field.id == k.id;
          assert items[a].field.id == k.id;
        }
      }
      forall id | id in s.files
        ensures exists a :: 0 <= a < |items| && items[a].field.id == id
      {
        if id != items[n].field.id {
          var a :| 0 <= a < n && pre[a].field.id == id;
          assert items[a].field.id == id;
        }
      }
    }
  }

  // ----------------------------------------------------------- user edits

  /** Picking a file for field `fieldId`: a cancelled or empty pick leaves
      the file map as it was; otherwise only that field's entry is replaced,
      by a local file typed by the asset (PDF when it has no type). */
  function PickFile(files: map<int, FileState>, fieldId: int, result: PickResult): (r: map<int, FileState>)
    ensures !(result.Chosen? && |result.assets| > 0) ==> r == files
    ensures result.Chosen? && |result.assets| > 0 ==>
      && fieldId in r && r[fieldId].isLocal
      && r[fieldId].uri == result.assets[0].uri && r[fieldId].name == result.assets[0].name
      && r[fieldId].mimeType == OrElse(result.assets[0].mimeType, "application/pdf")
    ensures forall id :: id != fieldId ==> (id in r <==> id in files)
    ensures forall id :: id != fieldId && id in files ==> r[id] == files[id]
  {
    if result.Chosen? && |result.assets| > 0 then
      var a := result.assets[0];
      files[fieldId := FileState(a.uri, a.name, OrElse(a.mimeType, "application/pdf"), true)]
    else
      files
  }

  // ----------------------------------------------------------- validation

  /** A required field is missing when it is a file field with no entry,
      local or remote, or another field whose value is empty or absent. */
  predicate IsMissing(item: FieldData, st: EditState)
  {
    && item.field.required
    && if IsFile(item) then item.field.id !in st.files
       else !(FieldSlot(item.field.id) in st.form && st.form[FieldSlot(item.field.id)] != "")
  }

  /** The `missingFields` filter over the stored values, in order. */
  function MissingFields(items: seq<FieldData>, st: EditState): (r: seq<FieldData>)
    ensures |r| <= |items|
    ensures forall it :: it in r <==> it in items && IsMissing(it, st)
    decreases |items|
  {
    if items == [] then []
    else
      assert items == [items[0]] + items[1..];
      (if IsMissing(items[0], st) then [items[0]] else []) + MissingFields(items[1..], st)
  }

  /** Right after seeding, with distinct field ids, a field is missing
      exactly when it is required and its stored value is empty: a stored
      file path counts as present although nothing was picked. */
  lemma SeededMissingIffEmpty(d: Detail, imageBase: string, a: nat)
    requires UniqueIds(d.items)
    requires a < |d.items|
    ensures d.items[a] in MissingFields(d.items, Seeded(d, d.items, imageBase))
            <==> d.items[a].field.required && d.items[a].nilai == ""
  {
    SeededFields(d, d.items, imageBase);
  }

  // ------------------------------------------------------ the update body

  /** The name an uploaded file gets: `file_<id>_<timestamp>.<ext>`, where
      `ext` is the text after the uri's last `.`. */
  function UploadName(fieldId: int, now: int, uri: string): string
  {
    "file_" + Decimal(fieldId) + "_" + Decimal(now) + "." + AfterLast(uri, '.')
  }

  /** The uri sent for a local file: on iOS the first `file://` is removed. */
  function UploadUri(uri: string, isIos: bool): string
  {
    if isIos then StripFirst(uri, "file://") else uri
  }

  /** The part, if any, one stored value contributes to the update. */
  function UpdatePart(item: FieldData, st: EditState, now: int, isIos: bool): (r: Option<Part>)
    ensures r.Some? ==> r.value.key == FieldsKey(item.field.id)
    ensures IsFile(item) ==>
      (r.Some? <==> item.field.id in st.files && st.files[item.field.id].isLocal)
    ensures !IsFile(item) ==>
      (r.Some? <==> FieldSlot(item.field.id) in st.form && st.form[FieldSlot(item.field.id)] != "")
    ensures r.Some? && IsFile(item) ==>
      var file := st.files[item.field.id];
      r.value == FilePart(FieldsKey(item.field.id), UploadUri(file.uri, isIos),
                          UploadName(item.field.id, now, file.uri), file.mimeType)
    ensures r.Some? && !IsFile(item) ==>
      r.value == TextPart(FieldsKey(item.field.id), st.form[FieldSlot(item.field.id)])
  {
    var id := item.field.id;
    if IsFile(item) then
      if id in st.files && st.files[id].isLocal then
        var file := st.files[id];
        Some(FilePart(FieldsKey(id), UploadUri(file.uri, isIos), UploadName(id, now, file.uri), file.mimeType))
      else None
    else if FieldSlot(id) in st.form && st.form[FieldSlot(id)] != "" then
      Some(TextPart(FieldsKey(id), st.form[FieldSlot(id)]))
    else None
  }

  function Emit(p: Option<Part>): seq<Part>
  {
    if p.Some? then [p.value] else []
  }

  /** The `fields[<id>]` parts of the update, in `data_pengajuans` order. */
  function UpdateParts(items: seq<FieldData>, st: EditState, now: int, isIos: bool): seq<Part>
    decreases |items|
  {
    if items == [] then []
    else UpdateParts(items[..|items| - 1], st, now, isIos) + Emit(UpdatePart(items[|items| - 1], st, now, isIos))
  }

  /** `formData.<key>` as FormData sends it: an absent key is the text `undefined`. */
  function Sent(form: map<FormKey, string>, key: FormKey): string
  {
    if key in form then form[key] else "undefined"
  }

  /** The three parts every update begins with. */
  function UpdateHeader(form: map<FormKey, string>): seq<Part>
  {
    [ TextPart(Named("name"), Sent(form, Prop("name"))),
      TextPart(Named("email"), Sent(form, Prop("email"))),
      TextPart(Named("alamat"), Sent(form, Prop("alamat"))) ]
  }

  /** One pass of the loop: a file field appends its local file, if any;
      another field appends its text when that is non-empty. */
  method AppendField(parts: seq<Part>, item: FieldData, form: map<FormKey, string>, files: map<int, FileState>,
                     now: int, isIos: bool)
    returns (parts': seq<Part>)
    ensures parts' == parts + Emit(UpdatePart(item, EditState(form, files), now, isIos))
  {
    var id := item.field.id;
    parts' := parts;
    if IsFile(item) {
      if id in files && files[id].isLocal {
        var file := files[id];
        parts' := parts + [FilePart(FieldsKey(id), UploadUri(file.uri, isIos), UploadName(id, now, file.uri), file.mimeType)];
      }
    } else {
      if FieldSlot(id) in form && form[FieldSlot(id)] != "" {
        parts' := parts + [TextPart(FieldsKey(id), form[FieldSlot(id)])];
      }
    }
  }

  /** The loop that fills `formDataToSend`. */
  method BuildUpdate(items: seq<FieldData>, form: map<FormKey, string>, files: map<int, FileState>, now: int, isIos: bool)
    returns (parts: seq<Part>)
    ensures parts == UpdateHeader(form) + UpdateParts(items, EditState(form, files), now, isIos)
  {
    ghost var st := EditState(form, files);
    var header := UpdateHeader(form);
    parts := header;
    var i := 0;
    while i < |items|
      invariant 0 <= i <= |items|
      invariant parts == header + UpdateParts(items[..i], st, now, isIos)
    {
      ghost var done := UpdateParts(items[..i], st, now, isIos);
      ghost var step := Emit(UpdatePart(items[i], st, now, isIos));
      assert items[..i + 1][..i] == items[..i];
      assert UpdateParts(items[..i + 1], st, now, isIos) == done + step;
      parts := AppendField(parts, items[i], form, files, now, isIos);
      assert parts == header + (done + step);
      i := i + 1;
    }
    assert items[..|items|] == items;
  }

  /** Every part of the update comes from one stored value. */
  lemma {:induction false} UpdatePartsFromItems(items: seq<FieldData>, st: EditState, now: int, isIos: bool)
    ensures forall p :: p in UpdateParts(items, st, now, isIos) ==>
      exists a :: 0 <= a < |items| && UpdatePart(items[a], st, now, isIos) == Some(p)
    decreases |items|
  {
    if items != [] {
      var n := |items| - 1;
      var pre := items[..n];
      var done := UpdateParts(pre, st, now, isIos);
      UpdatePartsFromItems(pre, st, now, isIos);
      forall p | p in done
        ensures exists a :: 0 <= a < |items| && UpdatePart(items[a], st, now, isIos) == Some(p)
      {
        var a :| 0 <= a < n && UpdatePart(pre[a], st, now, isIos) == Some(p);
        assert pre[a] == items[a];
      }
    }
  }

  /** Every stored value that contributes a part has it in the update. */
  lemma {:induction false} UpdatePartsCoverItems(items: seq<FieldData>, st: EditState, now: int, isIos: bool)
    ensures forall a :: 0 <= a < |items| && UpdatePart(items[a], st, now, isIos).Some? ==>
      UpdatePart(items[a], st, now, isIos).value in UpdateParts(items, st, now, isIos)
    decreases |items|
  {
    if items != [] {
      var n := |items| - 1;
      var pre := items[..n];
      UpdatePartsCoverItems(pre, st, now, isIos);
      forall a | 0 <= a < n ensures pre[a] == items[a] { }
    }
  }

  /** A kept remote file is never re-sent: when no file entry is local,
      the update carries no file part at all. */
  lemma {:induction false} KeptFilesSendNothing(items: seq<FieldData>, st: EditState, now: int, isIos: bool)
    requires forall id :: id in st.files ==> !st.files[id].isLocal
    ensures forall p :: p in UpdateParts(items, st, now, isIos) ==> p.TextPart?
    decreases |items|
  {
    if items != [] {
      KeptFilesSendNothing(items[..|items| - 1], st, now, isIos);
    }
  }

  /** The text parts of the stored non-file values that are non-empty, in
      order: what the server already holds. */
  function StoredTextParts(items: seq<FieldData>): seq<Part>
    decreases |items|
  {
    if items == [] then []
    else
      var last := items[|items| - 1];
      StoredTextParts(items[..|items| - 1])
        + (if !IsFile(last) && last.nilai != "" then [TextPart(FieldsKey(last.field.id), last.nilai)] else [])
  }

  /** Any state that still holds each stored text and no local file for a
      stored file field re-sends exactly the stored non-empty texts. */
  lemma {:induction false} UnchangedStateSendsStoredText(items: seq<FieldData>, st: EditState, now: int, isIos: bool)
    requires forall a :: 0 <= a < |items| && IsFile(items[a]) ==>
      !(items[a].field.id in st.files && st.files[items[a].field.id].isLocal)
    requires forall a :: 0 <= a < |items| && !IsFile(items[a]) ==>
      FieldSlot(items[a].field.id) in st.form && st.form[FieldSlot(items[a].field.id)] == items[a].nilai
    ensures UpdateParts(items, st, now, isIos) == StoredTextParts(items)
    decreases |items|
  {
    if items != [] {
      var n := |items| - 1;
      assert forall a :: 0 <= a < n ==> items[..n][a] == items[a];
      UnchangedStateSendsStoredText(items[..n], st, now, isIos);
    }
  }

  /** Round trip of the resubmission flow: seeding from a stored submission
      and submitting with no edit re-sends exactly the stored non-empty
      texts, and none of the stored files. */
  lemma ResubmitUnchanged(d: Detail, imageBase: string, now: int, isIos: bool)
    requires UniqueIds(d.items)
    ensures UpdateParts(d.items, Seeded(d, d.items, imageBase), now, isIos) == StoredTextParts(d.items)
  {
    SeededFields(d, d.items, imageBase);
    UnchangedStateSendsStoredText(d.items, Seeded(d, d.items, imageBase), now, isIos);
  }

  // --------------------------------------------------------- handleSubmit

  /** What pressing submit leads to. */
  datatype SubmitOutcome =
    | Incomplete(missing: seq<FieldData>)  // alert: required fields missing
    | NotConfirmed                         // the confirmation was dismissed
    | NoToken                              // alert: no stored token
    | Send(parts: seq<Part>)               // `POST /pengajuan/{id}/update`

  /** `handleSubmit`: any missing required field blocks submission before
      anything else; then the confirmation and the token are checked; only
      then is the update body built. */
  method HandleSubmit(items: seq<FieldData>, form: map<FormKey, string>, files: map<int, FileState>,
                      confirmed: bool, token: Option<string>, now: int, isIos: bool)
    returns (out: SubmitOutcome)
    ensures out.Incomplete? <==> exists it :: it in items && IsMissing(it, EditState(form, files))
    ensures out.Incomplete? ==> out.missing == MissingFields(items, EditState(form, files))
    ensures out.Send? <==> MissingFields(items, EditState(form, files)) == [] && confirmed && AuthContext.HasToken(token)
    ensures out == NoToken <==> MissingFields(items, EditState(form, files)) == [] && confirmed && !AuthContext.HasToken(token)
    ensures out.Send? ==> out.parts == UpdateHeader(form) + UpdateParts(items, EditState(form, files), now, isIos)
  {
    var missing := MissingFields(items, EditState(form, files));
    if |missing| > 0 {
      assert missing[0] in missing;
      return Incomplete(missing);
    }
    if !confirmed {
      return NotConfirmed;
    }
    if !AuthContext.HasToken(token) {
      return NoToken;
    }
    var parts := BuildUpdate(items, form, files, now, isIos);
    return Send(parts);
  }
}
