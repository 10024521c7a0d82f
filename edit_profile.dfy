/** The profile editor: loading the profile and its two photos, and the
    multipart update it posts. */
module EditProfile {
  import opened Optional
  import opened Forms
  import AuthContext

  /** One property of the profile object. Values are held as the text the
      form would send; a `null` or missing value is the empty text. */
  datatype Entry = Entry(key: string, value: string)

  /** The profile object, its properties in key order. */
  type Profile = seq<Entry>

  /** The body of `GET /user`: either `{user: {...}}` or the profile itself. */
  datatype UserResponse = UserResponse(user: Option<Profile>, data: Profile)

  /** `res.data.user ? res.data.user : res.data`. */
  function SelectUserData(res: UserResponse): (p: Profile)
    ensures res.user.Some? ==> p == res.user.value
    ensures res.user.None? ==> p == res.data
  {
    if res.user.Some? then res.user.value else res.data
  }

  /** The value of property `key`, `None` when the object lacks it. */
  function Lookup(p: Profile, key: string): (r: Option<string>)
    ensures r.Some? ==> Entry(key, r.value) in p
    ensures r.None? ==> forall e :: e in p ==> e.key != key
    decreases |p|
  {
    if p == [] then None
    else if p[0].key == key then Some(p[0].value)
    else Lookup(p[1..], key)
  }

  /** The uri of a stored photo: `<API_BASE_URL>/storage/<path>`. */
  function StorageUri(apiBase: string, path: string): string
  {
    apiBase + "/storage/" + path
  }

  /** A photo's state, as the uri of the photo object; `None` is `null`. */
  type Photo = Option<string>

  /** The screen's state after `fetchUser`. */
  datatype Loaded = Loaded(form: Profile, fotoKtp: Photo, fotoKk: Photo)

  /** A photo preview is set only when the profile holds a non-empty path;
      otherwise the photo state is left as it was. */
  function LoadPhoto(current: Photo, apiBase: string, path: Option<string>): (r: Photo)
    ensures Filled(path) ==> r == Some(StorageUri(apiBase, path.value))
    ensures !Filled(path) ==> r == current
  {
    if Filled(path) then Some(StorageUri(apiBase, path.value)) else current
  }

  /** `fetchUser` once the response has arrived: the form is reset to the
      selected profile and each photo preview is seeded from its path. */
  function LoadUser(res: UserResponse, apiBase: string, ktp: Photo, kk: Photo): (r: Loaded)
    ensures r.form == SelectUserData(res)
    ensures r.fotoKtp == LoadPhoto(ktp, apiBase, Lookup(SelectUserData(res), "foto_ktp"))
    ensures r.fotoKk == LoadPhoto(kk, apiBase, Lookup(SelectUserData(res), "foto_kk"))
  {
    var p := SelectUserData(res);
    Loaded(p, LoadPhoto(ktp, apiBase, Lookup(p, "foto_ktp")), LoadPhoto(kk, apiBase, Lookup(p, "foto_kk")))
  }

  /** The image picker: a cancelled pick keeps the photo, otherwise the
      first asset becomes the photo (`undefined` when there is none). */
  function PickPhoto(current: Photo, result: PickResult): (r: Photo)
    ensures result.Canceled? ==> r == current
    ensures result.Chosen? && |result.assets| > 0 ==> r == Some(result.assets[0].uri)
    ensures result.Chosen? && |result.assets| == 0 ==> r == None
  {
    match result
    case Canceled => current
    case Chosen(assets) => if |assets| > 0 then Some(assets[0].uri) else None
  }

  /** The text parts the `Object.keys(data).forEach` loop appends: one per
      property with a non-empty value, in key order. */
  function ProfileParts(data: Profile): (r: seq<Part>)
    ensures |r| <= |data|
    decreases |data|
  {
    if data == [] then []
    else
      var last := data[|data| - 1];
      ProfileParts(data[..|data| - 1]) + (if last.value != "" then [TextPart(Named(last.key), last.value)] else [])
  }

  /** The text parts are exactly the non-empty properties: every part is
      `key=value` for a property with a non-empty value, and every such
      property has its part. */
  lemma {:induction false} ProfilePartsMembers(data: Profile)
    ensures forall p :: p in ProfileParts(data) ==>
      exists e :: e in data && e.value != "" && p == TextPart(Named(e.key), e.value)
    ensures forall e :: e in data && e.value != "" ==> TextPart(Named(e.key), e.value) in ProfileParts(data)
    decreases |data|
  {
    if data != [] {
      var init := data[..|data| - 1];
      var last := data[|data| - 1];
      assert data == init + [last];
      ProfilePartsMembers(init);
    }
  }

  /** The JPEG part for one photo whose state has a uri. */
  function PhotoPart(key: string, uri: string): Part
  {
    FilePart(Named(key), uri, key + ".jpg", "image/jpeg")
  }

  /** The photo parts: `foto_ktp`, then `foto_kk`, each only when its photo
      state has a uri. */
  function PhotoParts(ktp: Photo, kk: Photo): (r: seq<Part>)
    ensures |r| == (if Filled(ktp) then 1 else 0) + (if Filled(kk) then 1 else 0)
    ensures Filled(ktp) ==> r[0] == PhotoPart("foto_ktp", ktp.value)
    ensures Filled(kk) ==> r[|r| - 1] == PhotoPart("foto_kk", kk.value)
  {
    (if Filled(ktp) then [PhotoPart("foto_ktp", ktp.value)] else [])
      + (if Filled(kk) then [PhotoPart("foto_kk", kk.value)] else [])
  }

  /** The method override every update carries. */
  const MethodOverride: Part := TextPart(Named("_method"), "PUT")

  /** What `onSubmit` leads to. */
  datatype ProfileOutcome =
    | NoToken                 // alert: log in again
    | NameOrEmailMissing      // alert: name and e-mail are required
    | Send(parts: seq<Part>)  // `POST /profile/update`

  /** `onSubmit`: a missing token, then an empty name or e-mail, stops
      before any request; otherwise the body is the non-empty profile
      properties, then `_method=PUT`, then the photo parts. */
  method OnSubmit(data: Profile, token: Option<string>, ktp: Photo, kk: Photo) returns (out: ProfileOutcome)
    ensures !AuthContext.HasToken(token) ==> out == NoToken
    ensures AuthContext.HasToken(token) && !(Filled(Lookup(data, "name")) && Filled(Lookup(data, "email"))) ==>
      out == NameOrEmailMissing
    ensures out.Send? <==> AuthContext.HasToken(token) && Filled(Lookup(data, "name")) && Filled(Lookup(data, "email"))
    ensures out.Send? ==> out.parts == ProfileParts(data) + [MethodOverride] + PhotoParts(ktp, kk)
  {
    if !AuthContext.HasToken(token) {
      return NoToken;
    }
    if !(Filled(Lookup(data, "name")) && Filled(Lookup(data, "email"))) {
      return NameOrEmailMissing;
    }
    var parts := [];
    var i := 0;
    while i < |data|
      invariant 0 <= i <= |data|
      invariant parts == ProfileParts(data[..i])
    {
      assert data[..i + 1][..i] == data[..i];
      if data[i].value != "" {
        parts := parts + [TextPart(Named(data[i].key), data[i].value)];
      }
      i := i + 1;
    }
    assert data[..|data|] == data;
    parts := parts + [MethodOverride];
    if Filled(ktp) {
      parts := parts + [PhotoPart("foto_ktp", ktp.value)];
    }
    if Filled(kk) {
      parts := parts + [PhotoPart("foto_kk", kk.value)];
    }
    return Send(parts);
  }

  /** A photo seeded at load is sent again on save: when the profile holds
      a `foto_ktp` path and nothing is edited, the body carries that path as
      text and, as a JPEG file, the preview uri built from it. */
  lemma LoadedPhotoIsResent(res: UserResponse, apiBase: string, ktp: Photo, kk: Photo)
    requires Filled(Lookup(SelectUserData(res), "foto_ktp"))
    ensures var loaded := LoadUser(res, apiBase, ktp, kk);
      var path := Lookup(SelectUserData(res), "foto_ktp").value;
      && TextPart(Named("foto_ktp"), path) in ProfileParts(loaded.form)
      && |PhotoParts(loaded.fotoKtp, loaded.fotoKk)| > 0
      && PhotoParts(loaded.fotoKtp, loaded.fotoKk)[0]
         == FilePart(Named("foto_ktp"), StorageUri(apiBase, path), "foto_ktp.jpg", "image/jpeg")
  {
    ProfilePartsMembers(SelectUserData(res));
  }
}
