# SiPeka client core, modelled in Dafny

SiPeka is a village-administration mobile app. Residents use it to request
letters such as a wedding dispensation, a moving certificate or an event
permit, to follow their requests and to resubmit a rejected one. This
project models the client-side logic that decides what the app sends and
what state it keeps:

- **The four request screens** each load a field catalog
  (`GET /getFieldSurat/{id}`), seed a blank form from it, take text, date
  and file input, and build the body posted to `/pengajuan`.
  - `dispenNikah` (letter type 3), `pindahDalamProvinsi` (type 1) and
    `pindahLuarProvinsi` (type 2) build a multipart body: five identity parts
    and then `fields[<id>]` parts.
  - `ijinHajatan` posts a JSON payload instead.
- **The resubmission screen** (`editPengajuan`) seeds a form and a file map
  from a stored submission. Stored files become remote references. It then
  validates required fields and builds the multipart update. The update
  re-sends every non-empty text and only files picked anew.
- **The notification list** merges the unread and read lists, marks one
  entry or all entries as read, and counts the unread ones.
- **The profile editor** loads the profile and its two photo previews and
  builds the method-overridden profile update.
- **The session context** keeps the three-valued `isLoggedIn` flag next to
  the token stored on the device.

Each screen is one module. `Forms` holds the values the catalog-driven
screens share: the field catalog, the form, picker results and multipart
parts. `Strings` holds the few JavaScript string operations they use, and
`Optional` holds optional values with the truthiness of an optional string.

JavaScript truthiness is written out:
- a string is truthy when it is present and non-empty (`Filled`);
- a form value is truthy when it is an asset or non-empty text (`Truthy`);
- `value && value.uri` becomes `HasUri`.

Network calls appear as the bodies they would send. Everything the device
supplies becomes a parameter: the stored token, picker results, the clock
and the platform. The session's storage is a small class.

The multipart builders of the three screens differ:
- `dispenNikah` and `pindahLuarProvinsi` send exactly one part per catalog
  field. They send a file part only for a field typed `file` whose value
  has a uri (`Forms.TypedFieldPart`).
- `pindahDalamProvinsi` skips every field whose value is falsy. It sends any
  value that carries a uri as a file, whatever the field's type
  (`PindahDalamProvinsi.UriFieldPart`).

Some other behaviour of the code that the model keeps:
- `ijinHajatan` loads catalog 4, but its payload says `jenis_surat_id: 1`.
- `markAllAsRead` stops at the first failed PATCH. The requests sent before
  it stay sent, and the list is not updated.

## Model

| member | source | states |
|---|---|---|
| Forms.InitForm | app/dispenNikah.tsx:66-70 | Loading a catalog yields a form with a blank entry under every field name and no other key. The same loop is at pindahDalamProvinsi.tsx:70-74, pindahLuarProvinsi.tsx:62-66 and, with text values, ijinHajatan.tsx:61-65. |
| Forms.Assign | app/editPengajuan.tsx:162-164 | `updateFormData`: the key takes the new value, and every other key keeps its presence and its value. The same spread update edits a field's text at ijinHajatan.tsx:138-140. |
| Forms.SetText | app/pindahDalamProvinsi.tsx:232-237 | A text input or select sets that field to the typed text and leaves every other field as it was. The same spread update is at dispenNikah.tsx:197 and 246, and pindahLuarProvinsi.tsx:204-206. |
| Forms.PickAsset | app/dispenNikah.tsx:87-93 | A cancelled pick leaves the form unchanged. Otherwise the first asset is stored and no other field changes. An empty asset list leaves the field undefined. The same handler is at pindahLuarProvinsi.tsx:82-88. |
| Forms.HeaderParts | app/dispenNikah.tsx:121-125 | The five identity parts are the user's `nik`, `name`, `email` and `alamat`, then the letter type, all as text under plain names, so no `fields[<id>]` part collides with them. The same appends are at pindahDalamProvinsi.tsx:119-123 and pindahLuarProvinsi.tsx:108-112. |
| Forms.ValuePart | app/dispenNikah.tsx:138 | `value \|\| ""`: a falsy value is sent as empty text, text is sent as itself, an asset object as the same asset. Never a file part. |
| Forms.TypedFieldPart | app/dispenNikah.tsx:131-139 | The part is a file part exactly when the field is typed `file` and its value has a uri. It carries the asset's uri, its name or `file_<id>`, and its type or `application/octet-stream`. Any other field is sent as `ValuePart`. |
| Forms.TypedTextIsSent | app/dispenNikah.tsx:128-140 | After `SetText`, the catalog-typed encoder sends exactly the typed text for that field. |
| DispenNikah.DateChange | app/dispenNikah.tsx:100-106 | The field's picker is always closed and other picker flags are unchanged. With no date, the form is unchanged. With a date, the field holds the part of the ISO text before the first `T`, and nothing else changes. |
| DispenNikah.BuildSubmission | app/dispenNikah.tsx:109-140 | No body without a user. Otherwise the body is the five identity parts with type `"3"`, then exactly one part per catalog field, in catalog order, each equal to `TypedFieldPart`. |
| PindahLuarProvinsi.BuildSubmission | app/pindahLuarProvinsi.tsx:95-129 | No body without a user. Otherwise the identity parts with type `"2"`, then one `fields[<id>]` part per field, in order. Each is a file part exactly when the field is typed `file` and holds a uri. |
| PindahDalamProvinsi.PickFile | app/pindahDalamProvinsi.tsx:84-105 | Only a non-cancelled pick that returned an asset stores `{uri, name, mimeType}`, and only for that field. |
| PindahDalamProvinsi.PresentMembers | app/pindahDalamProvinsi.tsx:126-128 | The fields the loop sends for are exactly the catalog fields whose value is truthy. |
| PindahDalamProvinsi.UriFieldPart | app/pindahDalamProvinsi.tsx:129-139 | A value with a uri becomes a file part, whatever the field's type, with defaults `upload` and `application/octet-stream`. Any other value goes as it stands. |
| PindahDalamProvinsi.FieldPartsAt | app/pindahDalamProvinsi.tsx:126-141 | The j-th field part is `UriFieldPart` of the j-th field sent. |
| PindahDalamProvinsi.SubmissionStep | app/pindahDalamProvinsi.tsx:126-141 | One pass of the loop adds that field's part exactly when its value is truthy. |
| PindahDalamProvinsi.BuildSubmission | app/pindahDalamProvinsi.tsx:108-141 | No body without a user. Otherwise the identity parts with type `"1"`, then the parts for the truthy fields in catalog order. The body is never longer than 5 plus the catalog size. |
| PindahDalamProvinsi.PartSentIffValueTruthy | app/pindahDalamProvinsi.tsx:126-141 | With distinct field ids, a field's id is among the fields sent exactly when its value is truthy. |
| IjinHajatan.Entries | app/ijinHajatan.tsx:86-89 | One `{field_id, nilai}` entry per catalog field, in order, with `nilai` the form text or `""`. |
| IjinHajatan.BuildPayload | app/ijinHajatan.tsx:74-90 | No payload without a user. Otherwise the user, letter type 1 (which differs from the loaded catalog 4) and the entries. |
| IjinHajatan.PayloadRoundTrip | app/ijinHajatan.tsx:86-89 | With distinct field ids, looking a field up by id in the payload gives back exactly the text the form held for it. |
| IjinHajatan.NoEntryOutsideCatalog | app/ijinHajatan.tsx:86-89 | An id outside the catalog has no entry in the payload. |
| EditPengajuan.RemoteFile | app/editPengajuan.tsx:103-110 | A stored path becomes a non-local PDF reference at `<image base>/<path>`. Its name is the last `/`-segment of the path, or `file` when that segment is empty. The name is never empty and has no `/`. |
| EditPengajuan.SeedFromDetail | app/editPengajuan.tsx:89-118 | The seeding loop's form and file map are the state `Seeded` reaches by reading the stored values in order. |
| EditPengajuan.SeededProfile | app/editPengajuan.tsx:90-94 | Seeding copies `name`, `email` and `alamat` and adds no other profile key. |
| EditPengajuan.SeededFields | app/editPengajuan.tsx:96-115 | With distinct field ids: a non-file value sits under `field_<id>` with its stored text. A file field has an entry exactly when its path is non-empty, and that entry is its `RemoteFile`. |
| EditPengajuan.SeededOnlyFromItems | app/editPengajuan.tsx:96-115 | Every `field_<id>` key and every file entry belongs to some stored value. |
| EditPengajuan.PickFile | app/editPengajuan.tsx:136-159 | A cancelled or empty pick changes nothing. Otherwise that field gets a local file whose type defaults to PDF, and no other entry changes. |
| EditPengajuan.MissingFields | app/editPengajuan.tsx:169-180 | An entry is reported missing exactly when it is required and either it is a file field without a file entry, or its text is absent or empty. |
| EditPengajuan.SeededMissingIffEmpty | app/editPengajuan.tsx:169-180 | Right after seeding, with distinct ids, a field is missing exactly when it is required and its stored value is empty. |
| EditPengajuan.UpdatePart | app/editPengajuan.tsx:211-238 | A file field contributes exactly when its entry is local. The part's uri has `file://` stripped on iOS and its name is `file_<id>_<now>.<ext>`. Another field contributes its text exactly when that text is non-empty. |
| EditPengajuan.AppendField | app/editPengajuan.tsx:215-238 | One pass of the loop appends exactly that field's contribution. |
| EditPengajuan.BuildUpdate | app/editPengajuan.tsx:203-239 | The update is `name`, `email`, `alamat`, then each stored value's contribution in order. |
| EditPengajuan.UpdatePartsFromItems | app/editPengajuan.tsx:211-239 | Every field part of the update is the contribution of some stored value. |
| EditPengajuan.UpdatePartsCoverItems | app/editPengajuan.tsx:211-239 | Every stored value that contributes has its part in the update. |
| EditPengajuan.KeptFilesSendNothing | app/editPengajuan.tsx:215-229 | When no file entry is local, the update carries no file part: kept server files are never re-sent. |
| EditPengajuan.UnchangedStateSendsStoredText | app/editPengajuan.tsx:230-237 | A state that still holds every stored text and no local file sends exactly the stored non-empty texts. |
| EditPengajuan.ResubmitUnchanged | app/editPengajuan.tsx:98-239 | Round trip: seed from a stored submission and submit with no edit. The update re-sends exactly the stored non-empty texts and none of the stored files. |
| EditPengajuan.HandleSubmit | app/editPengajuan.tsx:167-239 | Any missing required field blocks the submission before the confirmation or the token is consulted. Without confirmation nothing is sent, and without a token nothing is sent. Otherwise the result is exactly `BuildUpdate`'s body. |
| Notifikasi.Merge | app/notifikasi.tsx:61-65 | The list shown is the unread list followed by the read list. A missing list counts as empty. |
| Notifikasi.Fetch | app/notifikasi.tsx:41-67 | Without a token, or on a failed request, the list stays. Otherwise it becomes the merged list. |
| Notifikasi.UnreadCount | app/notifikasi.tsx:169-171 | `getUnreadCount` is the length of the unread filter, so it is never more than the length of the list. |
| Notifikasi.UnreadCountZeroIff | app/notifikasi.tsx:169-171 | The unread count is zero exactly when no entry is unread. |
| Notifikasi.ShowMarkAll | app/notifikasi.tsx:199 | The "mark all as read" button is shown exactly when some entry is unread. |
| Notifikasi.UnreadOfMembers | app/notifikasi.tsx:169-171 | The unread filter keeps exactly the entries with no read time. |
| Notifikasi.UnreadCountOfConcat | app/notifikasi.tsx:169-171 | The unread count of the merged list is the sum of the unread counts of its two parts. |
| Notifikasi.MarkRead | app/notifikasi.tsx:113-120 | Entries with that id get the new read time. The others, their order and the length stay. |
| Notifikasi.MarkAsRead | app/notifikasi.tsx:93-126 | Without a token or on a failed PATCH the list is unchanged. Otherwise it is `MarkRead`. |
| Notifikasi.TapCard | app/notifikasi.tsx:247 | Tapping a card marks it as read only when it is unread. |
| Notifikasi.MarkReadCount | app/notifikasi.tsx:114-120 | With distinct ids and a non-empty time, the unread count drops by one exactly when the tapped entry was unread. |
| Notifikasi.MarkAll | app/notifikasi.tsx:152-155 | Every entry gets a read time. Entries already read keep their own. |
| Notifikasi.MarkAllLeavesNothingUnread | app/notifikasi.tsx:152-155 | After marking all as read nothing is unread, so the "mark all" button disappears. |
| Notifikasi.MarkAllAsRead | app/notifikasi.tsx:128-163 | One PATCH per unread entry, in list order. Without a token nothing is sent. Each request has its own outcome. The list becomes `MarkAll` exactly when no PATCH fails. The first failure ends the walk and leaves the list unchanged. |
| EditProfile.SelectUserData | app/editProfile.tsx:64 | The profile is `user` when the response has one, else the response itself. |
| EditProfile.LoadPhoto | app/editProfile.tsx:70-71 | A preview `<API base>/storage/<path>` is set only for a non-empty path. Otherwise the photo stays as it was. |
| EditProfile.LoadUser | app/editProfile.tsx:63-71 | The form is reset to the selected profile, and both photo previews are seeded from its `foto_ktp` and `foto_kk` paths. |
| EditProfile.PickPhoto | app/editProfile.tsx:97 | A cancelled pick keeps the photo. Otherwise the first asset's uri is taken, or none when the list is empty. |
| EditProfile.ProfilePartsMembers | app/editProfile.tsx:133-136 | The text parts are exactly the profile properties with non-empty values. |
| EditProfile.PhotoParts | app/editProfile.tsx:141-155 | `foto_ktp`, then `foto_kk`, each a JPEG part exactly when its photo has a uri. |
| EditProfile.OnSubmit | app/editProfile.tsx:117-155 | Without a token, or with an empty name or e-mail, nothing is sent. Otherwise the body is the non-empty properties, then `_method=PUT`, then the photo parts. |
| EditProfile.LoadedPhotoIsResent | app/editProfile.tsx:64-155 | Load and save with no edit: a stored `foto_ktp` path goes out both as text and as a JPEG file at its preview uri. |
| AuthContext.HasToken | app/context/AuthContext.tsx:23 | `!!token`: a token counts exactly when it is stored and non-empty. The screens' `if (!token)` guards use the same test. |
| AuthContext.AuthProvider.constructor | app/context/AuthContext.tsx:17-18 | `isLoggedIn` starts as `null`. |
| AuthContext.AuthProvider.CheckAuth | app/context/AuthContext.tsx:21-24 | `isLoggedIn` becomes whether a non-empty token is stored, so the state agrees with the storage. |
| AuthContext.AuthProvider.Login | app/context/AuthContext.tsx:28-31 | The token is stored unchecked and `isLoggedIn` becomes true. The state agrees with the storage exactly when the token is non-empty. |
| AuthContext.AuthProvider.Logout | app/context/AuthContext.tsx:33-36 | The token is removed and `isLoggedIn` becomes false. |
| AuthContext.DefaultAuthContext.Login | app/context/AuthContext.tsx:11-15 | Without a provider, `login` does nothing and `isLoggedIn` stays `null`. |
| AuthContext.DefaultAuthContext.Logout | app/context/AuthContext.tsx:11-15 | Without a provider, `logout` does nothing and `isLoggedIn` stays `null`. |
| AuthContext.LoginWithEmptyToken | app/context/AuthContext.tsx:21-31 | `login("")` reports a session that a later `checkAuth` denies. |
| AuthContext.LogoutAfterLogin | app/context/AuthContext.tsx:20-36 | From any start, after `checkAuth`, `login` and `logout` no token is stored and `isLoggedIn` is false. |
| Strings.AfterLastSegment | app/editPengajuan.tsx:106 | `split('/').pop()` is the last segment. It is a suffix free of the separator, preceded by the separator unless it is the whole text, and the whole text when the separator does not occur. |
| Strings.BeforeFirst | app/dispenNikah.tsx:103 | `split("T")[0]` is a prefix free of `T`, followed by `T` unless it is the whole text. |
| Strings.StripFirst | app/editPengajuan.tsx:224 | `replace("file://", "")` removes a leading `file://`. A text without any occurrence is unchanged, and the result is never longer. |
| Strings.StripFirstRemovesFirst | app/editPengajuan.tsx:224 | `replace` with a string pattern cuts out the first occurrence, wherever it lies, and keeps everything else. |
| Strings.NatDigits | app/editPengajuan.tsx:227 | A natural number's text is made only of digits, denotes that number, and has no leading zero. |
| Strings.Decimal | app/editPengajuan.tsx:227 | The template-literal text of an integral number below 1e21 in magnitude starts with `-` exactly for negatives. The rest is the digits of the magnitude, without leading zeros, and denotes the magnitude. |

## Left out

- Field ids and timestamps are unbounded `int`s. JavaScript numbers are doubles: they are exact only up to 2^53, and `${n}` switches to exponent form from 1e21 on. `Strings.Decimal` is therefore the template-literal text only below 1e21, and it is exact only up to 2^53.
- Network I/O is not modelled: requests appear as the bodies and payloads they would carry. Responses, status codes, alerts, navigation and loading flags are left out.
- The catalog and user fetches of the request screens are parameters: `fields` and `user` arrive already loaded.
- The pickers are parameters: the document picker and the image picker return a `PickResult`, and the date picker returns the ISO text of the chosen date. `toISOString` itself is not modelled.
- `Date.now()` and `new Date().toISOString()` are a single `now` parameter per operation.
- Notifikasi.MarkAll: every entry gets the same `now`. The source evaluates the time once per entry, so entries marked in one pass may differ by milliseconds.
- `Platform.OS` is the `isIos` parameter.
- Failures are modelled only where the source branches on them: `response` is `None` for a failed GET of the notification list, `patchOk` covers a single PATCH, and the `failing` set covers the mark-all walk. Other exceptions are caught only to show an alert and are left out.
- The token check and the `if (data)` check in `fetchDetail` are left out: seeding starts from a loaded detail. The token check in the profile editor's `fetchUser` is left out for the same reason.
- JSON serialisation of the `ijinHajatan` payload is left out. `...user` is modelled as the four identity properties, not as every property the server returns.
- Multipart part names are the `PartKey` datatype (`Named` or `FieldsKey`), not the rendered text `fields[<id>]`.
- Form values are text or assets. Numbers and `null` that a loosely typed response may carry are not modelled, and a `null` profile property is the empty text.
- The AuthProvider runs `checkAuth` on mount asynchronously, so it can race with a `login` or `logout` that starts before it settles. The model runs the operations one after another and leaves that race out.
- Status tracking, listing, deleting and printing of submissions belong to other screens and are not part of this model.
