/** Values shared by the catalog-driven submission screens: the field
    catalog, the form that the catalog drives, picker results and the
    parts of a multipart body. */
module Forms {
  import opened Strings
  import opened Optional

  /** One asset returned by the document picker. */
  datatype Asset = Asset(uri: string, name: string, mimeType: Option<string>)

  /** What a document-picker call returns: cancelled, or a list of assets. */
  datatype PickResult = Canceled | Chosen(assets: seq<Asset>)

  /** A value the dynamic form holds for one field: typed text (also a
      selected option or a date string) or a picked asset. */
  datatype FormValue = Text(text: string) | Attached(asset: Asset)

  /** The form state, keyed by the field's `nama_field`. */
  type Form = map<string, FormValue>

  /** `form[name]`, with `None` for `undefined`. */
  function Get(form: Form, name: string): Option<FormValue>
  {
    if name in form then Some(form[name]) else None
  }

  /** JavaScript truthiness of a form value: an asset object is always
      truthy, text only when non-empty, `undefined` never. */
  predicate Truthy(v: Option<FormValue>)
  {
    v.Some? && (v.value.Attached? || v.value.text != "")
  }

  /** `value && value.uri`: the value is an asset with a non-empty uri. */
  predicate HasUri(v: Option<FormValue>)
  {
    v.Some? && v.value.Attached? && v.value.asset.uri != ""
  }

  /** One descriptor of the field catalog (`GET /getFieldSurat/{id}`):
      `id`, `nama_field`, `tipe_field` and `is_required`. */
  datatype FieldSurat = FieldSurat(id: int, name: string, kind: string, required: bool)

  /** The profile fields the submission screens copy from `GET /user`. */
  datatype User = User(nik: string, name: string, email: string, alamat: string)

  /** The name of a multipart part: a plain name, or `fields[<id>]`. */
  datatype PartKey = Named(name: string) | FieldsKey(id: int)

  /** One part of a multipart body. A `FilePart` is the `{uri, name, type}`
      object React Native uploads as a file; an `AssetPart` is a picked
      asset appended as it stands. */
  datatype Part =
    | TextPart(key: PartKey, text: string)
    | FilePart(key: PartKey, uri: string, fileName: string, mimeType: string)
    | AssetPart(key: PartKey, asset: Asset)

  /** The five parts every new submission begins with. */
  function Header(u: User, jenisSuratId: string): seq<Part>
  {
    [ TextPart(Named("nik"), u.nik), TextPart(Named("name"), u.name),
      TextPart(Named("email"), u.email), TextPart(Named("alamat"), u.alamat),
      TextPart(Named("jenis_surat_id"), jenisSuratId) ]
  }

  /** The identity parts are the user's `nik`, `name`, `email` and
      `alamat`, then the letter type, all as text under plain names, so no
      catalog field part (`fields[<id>]`) can collide with them. */
  lemma HeaderParts(u: User, jenisSuratId: string)
    ensures |Header(u, jenisSuratId)| == 5
    ensures forall p :: p in Header(u, jenisSuratId) ==> p.TextPart? && p.key.Named?
    ensures var r := Header(u, jenisSuratId);
      && [r[0].key, r[1].key, r[2].key, r[3].key, r[4].key]
         == [Named("nik"), Named("name"), Named("email"), Named("alamat"), Named("jenis_surat_id")]
      && [r[0].text, r[1].text, r[2].text, r[3].text, r[4].text] == [u.nik, u.name, u.email, u.alamat, jenisSuratId]
  {
  }

  /** `formData.append(key, value || "")`: a falsy value is sent as empty
      text, text as itself, an asset as it stands. */
  function ValuePart(key: PartKey, v: Option<FormValue>): (p: Part)
    ensures p.key == key
    ensures !p.FilePart?
    ensures p.TextPart? <==> !(v.Some? && v.value.Attached?)
    ensures p.TextPart? && Truthy(v) ==> p.text == v.value.text
    ensures !Truthy(v) ==> p == TextPart(key, "")
    ensures v.Some? && v.value.Attached? ==> p == AssetPart(key, v.value.asset)
  {
    match v
    case None => TextPart(key, "")
    case Some(Text(s)) => TextPart(key, s)
    case Some(Attached(a)) => AssetPart(key, a)
  }

  /** Loading a catalog: a form holding `blank` under the name of every
      field and nothing else. */
  method InitForm<V(==)>(fields: seq<FieldSurat>, blank: V) returns (form: map<string, V>)
    ensures forall f :: f in fields ==> f.name in form
    ensures forall k :: k in form ==> form[k] == blank && exists f :: f in fields && f.name == k
  {
    form := map[];
    var i := 0;
    while i < |fields|
      invariant 0 <= i <= |fields|
      invariant forall j :: 0 <= j < i ==> fields[j].name in form
      invariant forall k :: k in form ==> form[k] == blank && exists j :: 0 <= j < i && fields[j].name == k
    {
      form := form[fields[i].name := blank];
      i := i + 1;
    }
  }

  /** A spread update `{...form, [key]: value}`: `key` now holds `value`;
      every other key is unchanged. */
  function Assign<K(==,!new), V>(form: map<K, V>, key: K, value: V): (r: map<K, V>)
    ensures key in r && r[key] == value
    ensures forall k :: k != key ==> (k in r <==> k in form)
    ensures forall k :: k != key && k in form ==> r[k] == form[k]
  {
    form[key := value]
  }

  /** A text input or a select: field `name` now holds `text`; every other
      field is unchanged. */
  function SetText(form: Form, name: string, text: string): (r: Form)
    ensures Get(r, name) == Some(Text(text))
    ensures forall k :: k != name ==> Get(r, k) == Get(form, k)
  {
    Assign(form, name, Text(text))
  }

  /** The pick handler that stores `result.assets[0]` unless the picker
      was cancelled. An empty asset list stores `undefined`, which every
      reader sees as an absent key. */
  function PickAsset(form: Form, name: string, result: PickResult): (r: Form)
    ensures result.Canceled? ==> r == form
    ensures forall k :: k != name ==> Get(r, k) == Get(form, k)
    ensures result.Chosen? && |result.assets| > 0 ==> Get(r, name) == Some(Attached(result.assets[0]))
    ensures result.Chosen? && |result.assets| == 0 ==> Get(r, name) == None
  {
    match result
    case Canceled => form
    case Chosen(assets) =>
      if |assets| > 0 then form[name := Attached(assets[0])] else form - {name}
  }

  /** The per-field encoder of the screens that decide "file" by the
      catalog type: a file part exactly when `tipe_field` is `file` and the
      value carries a uri, with `file_<id>` and `application/octet-stream`
      as defaults; otherwise the value as it stands, or empty text. */
  function TypedFieldPart(f: FieldSurat, form: Form): (p: Part)
    ensures p.key == FieldsKey(f.id)
    ensures p.FilePart? <==> f.kind == "file" && HasUri(Get(form, f.name))
    ensures p.FilePart? ==>
      && p.uri == Get(form, f.name).value.asset.uri
      && p.fileName == (if Get(form, f.name).value.asset.name != "" then Get(form, f.name).value.asset.name
                        else "file_" + Decimal(f.id))
      && p.mimeType == OrElse(Get(form, f.name).value.asset.mimeType, "application/octet-stream")
    ensures !p.FilePart? ==> p == ValuePart(FieldsKey(f.id), Get(form, f.name))
  {
    var v := Get(form, f.name);
    if f.kind == "file" && HasUri(v) then
      var a := v.value.asset;
      FilePart(FieldsKey(f.id), a.uri, if a.name != "" then a.name else "file_" + Decimal(f.id),
               OrElse(a.mimeType, "application/octet-stream"))
    else
      ValuePart(FieldsKey(f.id), v)
  }

  /** What is typed into a field is what is sent for it: after `SetText`,
      the catalog-typed encoder sends exactly that text. */
  lemma TypedTextIsSent(f: FieldSurat, form: Form, text: string)
    ensures TypedFieldPart(f, SetText(form, f.name, text)) == TextPart(FieldsKey(f.id), text)
  {
  }
}
