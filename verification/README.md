# SINDEGEOLÓGICO affiliation form: a verified model

This project models the deterministic core of the SINDEGEOLÓGICO union-affiliation form in Dafny.
The form is a React page that collects a member's data and two signature images. It renders a
paginated PDF and can relay that PDF by e-mail through a small Express server. The model covers
three parts:

- **The form page** (`form.dfy`, `form_page.dfy`). The flat record of nineteen string fields and
  the record updaters are pure functions. These are the change handler's field assignment, the
  synchronisation of the five read-only derived fields, signature upload (slot 1 clones into slot 2),
  signature removal, the redacted preview and the start-up decision on the stored snapshot. The
  component state is the class `FormPage.Page`: the record, the preview, the review flag, the
  e-mail status line and the browser-storage entry. Its handlers update that state in place.
  `Page.Valid()` states that a preview on screen is always the redacted form of the stored snapshot.
- **The PDF layout skeleton** (`pdf_layout.dfy`). The class `PdfLayout.Document` holds the
  vertical cursor, the page count, the boxes placed so far and the footers. `EnsureRoom` starts a
  new page when a section will not fit. The sections advance the cursor by the renderer's fixed
  steps. The footer loop stamps "k de N" on every page. Lengths are integers in tenths of a
  millimetre on a US Letter page. The signature image's scale-to-fit rectangle is computed over
  `real`. The module also has the "N/A" substitution for blank values and the JPEG/PNG choice
  from a data URL.
- **The mail relay** (`mail_relay.dfy`). The `POST /api/send-pdf` handler is a pure function from
  the environment, the request body, a time stamp and the provider's reply to the response and
  the provider request, if one is made. The function covers the configuration check, the check
  for a missing PDF, the attachment name, the six-line text body, the provider payload and the
  mapping of the provider's reply.

`text.dfy` models the JavaScript string operations these parts rely on: `trim`, `startsWith`,
decimal rendering, and `join` with its inverse `split`. `wrappers.dfy` holds `Option`.

### Behaviours worth noting

- The server sends mail only through the provider's HTTP API (server/index.js:51-69). It has no
  SMTP transport, so none is modelled.
- The synchronisation effect (src/App.jsx:62-85) depends only on the name, surname, ID number and
  issuer. It runs in edit mode and in review mode alike, and so does `Page.SyncFields`.
- The page offers an upload input only for the first signature, but the upload handler
  (src/App.jsx:92-113) accepts any field name. Uploading to another field sets only that field.

## Model

| member | source | states |
|---|---|---|
| `Text.Trim` | src/App.jsx:63 | `trim()` yields the empty string exactly when the input is all whitespace; otherwise the result neither starts nor ends with whitespace, and it has no character the input lacks |
| `Text.TrimIsSlice` | src/App.jsx:63 | `trim()` removes exactly the leading and trailing whitespace: its result is a contiguous slice of the input with only whitespace before it and after it |
| `Text.StartsWithPointwise` | src/App.jsx:98 | `startsWith(p)` holds exactly when `p` is no longer than the string and matches it character by character from the start |
| `Text.Join` | server/index.js:42-49 | `join(sep)` starts with the first part, and holds the separator whenever there are at least two parts |
| `Text.Split` | server/index.js:42-49 | the reference inverse of the body's `join('\n')`, used to read the body back into its lines: `split(sep)` always yields at least one piece, even for the empty string |
| `Text.NatToString` | src/App.jsx:374 | a page number renders as a non-empty string of decimal digits that starts with `0` only for zero itself |
| `Text.DecimalRoundTrip` | server/index.js:73 | reading back the decimal rendering of a status gives the status, so different statuses give different messages |
| `Text.SplitJoin` | server/index.js:42-49 | splitting a `join('\n')` on newlines gives back the parts, when no part holds a newline |
| `Form.With` | src/App.jsx:87-90 | the change handler's updater sets the named field and leaves every other field as it was |
| `Form.SyncDerived` | src/App.jsx:62-85 | after the effect, `yo` is the trimmed full name, `ccIdentificado` and `cc2` equal `cc1`, and `de2` and `de3` equal `de1`; an already synchronised record is returned unchanged; only the five derived fields can change |
| `Form.SyncFixedPoint` | src/App.jsx:67-75 | the effect changes the record exactly when it is out of sync, and a second run changes nothing |
| `Form.DerivedWritesAreOverridden` | src/App.jsx:77-84 | a value written into a read-only derived field is overwritten by the next synchronisation, which depends only on the source fields |
| `Form.EditThenSync` | src/App.jsx:63-65 | after a source field is edited and the record synchronised, the derived fields show the edited name, ID number and issuer, and the edited field keeps its new value |
| `Form.InitialIsSynced` | src/App.jsx:6-27 | the initial record already satisfies the synchronisation |
| `Form.WithSignature` | src/App.jsx:105-110 | uploading to the first signature writes the same data into both signature slots; uploading to any other field writes only that field; nothing else changes |
| `Form.WithoutSignature` | src/App.jsx:115-122 | removing the first signature clears both slots; removing any other field clears only that field; nothing else changes |
| `Form.SignatureUpdatesKeepSync` | src/App.jsx:105-122 | signature upload and removal neither break nor establish the derived-field synchronisation |
| `Form.UploadThenRemove` | src/App.jsx:115-118 | uploading then removing the first signature leaves both slots empty and every other field as before |
| `Form.BuildPreview` | src/App.jsx:32-36 | the preview copies every non-signature field; each signature becomes "[Imagen cargada]" exactly when it holds data and "[Sin firma]" exactly when it is empty, so no image data reaches the preview |
| `Form.PreviewForgetsOnlyImages` | src/App.jsx:32-36 | records with the same preview agree on every non-signature field and on which signatures are present |
| `Form.Restore` | src/App.jsx:46-60 | a stored snapshot is restored; stored text that is non-empty and does not parse is discarded; an absent or empty entry keeps the defaults |
| `FormPage.Page.constructor` | src/App.jsx:40-44 | a mounted page starts from the initial record, with no preview, editable, with an empty status, over the storage it finds |
| `FormPage.Page.Load` | src/App.jsx:46-60 | start-up restores a snapshot as the record and its redacted preview in review mode; removes an unparseable entry and leaves the page as it is; does nothing when nothing is stored |
| `FormPage.Page.SyncFields` | src/App.jsx:62-85 | the effect leaves the record synchronised and changes no field but the derived ones |
| `FormPage.Page.HandleChange` | src/App.jsx:87-90 | the named field takes the value; every other field is kept |
| `FormPage.Page.HandleSignatureUpload` | src/App.jsx:92-113 | with no file, a non-`image/` file or a read that never completes the record is unchanged; otherwise the record is updated by `Form.WithSignature` with the data URL |
| `FormPage.Page.HandleRemoveSignature` | src/App.jsx:115-122 | the record is updated by `Form.WithoutSignature` |
| `FormPage.Page.HandleSubmit` | src/App.jsx:132-138 | when the storage write succeeds, the record is stored under the key, its redacted preview is shown, the form goes to review and the status is cleared; when the write throws, storage, preview, mode and status are all as before; the record is untouched in both cases |
| `FormPage.Page.HandleReset` | src/App.jsx:140-146 | the initial record is restored, the preview and the stored entry are removed, the form is editable, and the status is cleared |
| `FormPage.Page.HandleModify` | src/App.jsx:148-150 | the form becomes editable again |
| `FormPage.SaveThenReload` | src/App.jsx:132-138 | a page opened after a successful save restores exactly the saved record and shows the same preview as the page that saved it, in review mode |
| `FormPage.ResetThenReload` | src/App.jsx:140-146 | a page opened after a reset finds nothing stored and starts from the initial record, editable |
| `FormPage.CorruptSnapshotIsDropped` | src/App.jsx:52-59 | a corrupt entry is removed at start-up, so the next start finds nothing and shows the defaults |
| `PdfLayout.Document.constructor` | src/App.jsx:153-166 | a new document has one page and the cursor at the 12 mm top margin |
| `PdfLayout.Document.EnsureRoom` | src/App.jsx:168-174 | when `y + h` fits above the bottom margin nothing changes; otherwise exactly one page is added and `y` becomes 12 mm; the page count never decreases |
| `PdfLayout.Document.Advance` | src/App.jsx:315 | `y += delta` moves the cursor down by exactly `delta` and changes nothing else |
| `PdfLayout.Document.FieldRow` | src/App.jsx:313-315 | a row of one or two `drawField` boxes (16 mm tall) at the cursor, then `y += advance`: the cursor moves by exactly the advance, and the boxes stay above a line exactly when the earlier boxes did and the row's bottom does |
| `PdfLayout.Document.Draw` | src/App.jsx:176-179 | a field box is placed at the cursor on the current page, and every box stays above a line exactly when the earlier boxes and the new one do |
| `PdfLayout.Document.Header` | src/App.jsx:246-300 | the header and title boxes end 60 mm below the start, and the cursor moves down 67 mm plus 4 mm per introduction line |
| `PdfLayout.Document.PersonalSection` | src/App.jsx:302-329 | after `ensureRoom`, the personal-data section's boxes end 129 mm below where it starts, the cursor moves 135 mm down, and a page is added exactly when the reserve does not fit |
| `PdfLayout.Document.AuthorizationSection` | src/App.jsx:331-366 | after `ensureRoom`, the authorisation section's boxes end 145 mm below where it starts, and a page is added exactly when the reserve does not fit |
| `PdfLayout.Document.StampFooters` | src/App.jsx:368-375 | the footer loop stamps pages 1 to N in order, each exactly once, with the final page count N |
| `PdfLayout.Compose` | src/App.jsx:152-378 | the document's footers are stamped once per page; with the written reserves the document has two pages, stays above the bottom margin exactly when the introduction has at most 14 lines, and stays on the page exactly when it has at most 17; with reserves that cover the sections every box stays above the margin |
| `PdfLayout.GeneratePdfAsWritten` | src/App.jsx:302-331 | with `ensureRoom(80)` and `ensureRoom(98)` the document always has two pages, whose footers read "1 de 2" and "2 de 2"; its boxes stay above the bottom margin exactly when the introduction has at most 14 lines, and on the page exactly when it has at most 17 |
| `PdfLayout.OverflowWitness` | src/App.jsx:302-329 | an 18-line introduction pushes a box past the bottom edge of the page |
| `PdfLayout.GeneratePdf` | src/App.jsx:152-378 | with each reserve equal to its section's height every box stays above the bottom margin for any introduction; the document has two pages, or three when the introduction is longer than 14 lines |
| `PdfLayout.LabelReadsBack` | src/App.jsx:374 | a footer label is the page number's digits, " de ", and the total's digits, and reading each part back as a decimal number gives the page and the total |
| `PdfLayout.DisplayValue` | src/App.jsx:154 | `value(v)` is never blank; it is `v` itself when `v` has a non-whitespace character and "N/A" otherwise |
| `PdfLayout.GetImageFormat` | src/App.jsx:200-205 | data that starts with `data:image/jpeg` is drawn as JPEG, and data that starts with `data:image/png` as PNG |
| `PdfLayout.DataUrlPrefix` | src/App.jsx:101-112 | the data URL the file reader yields starts with `data:` followed by a prefix (without `;`) exactly when the file's type starts with that prefix |
| `PdfLayout.FormatFollowsMimeType` | src/App.jsx:200-205 | the format chosen for an uploaded image's data URL is JPEG exactly when the file's type starts with `image/jpeg` or `image/jpg`, and PNG for every other type |
| `PdfLayout.Dimension` | src/App.jsx:225-226 | an image dimension is the natural one when non-zero, else the plain one when non-zero, else 1, so it is never zero |
| `PdfLayout.PlaceSignature` | src/App.jsx:207-244 | no image is drawn when there is no data or the image does not load; otherwise the drawn rectangle fits in `(w-6) x (h-9)` and fills one of the two, keeps the image's aspect ratio, is centred horizontally in the box and vertically in the area below the label, and is drawn in the format the data URL names |
| `PdfLayout.FitImage` | src/App.jsx:227-236 | the scaled image fits in the area, fills its width or its height, and keeps the image's aspect ratio |
| `PdfLayout.WiderThanBox` | src/App.jsx:232-233 | for an image relatively wider than the box, the full-width rectangle's height fits and keeps the aspect ratio |
| `PdfLayout.NarrowerThanBox` | src/App.jsx:234-236 | for any other image, the full-height rectangle's width fits and keeps the aspect ratio |
| `MailRelay.EveryKeySet` | server/index.js:19-23 | `every` holds exactly when each listed variable is set to a value with a non-whitespace character |
| `MailRelay.HasRequiredEnv` | server/index.js:17-23 | the configuration check holds exactly when `RESEND_API_KEY` and `EMAIL_FROM` are both present and not all whitespace |
| `MailRelay.Recipient` | server/index.js:7 | the recipient is never empty: `EMAIL_TO` when it is a non-empty string, and the hard-coded address otherwise |
| `MailRelay.AttachmentName` | server/index.js:40 | the attachment name is never empty: the request's `fileName` when truthy, and `formulario-sindegeologico.pdf` otherwise |
| `MailRelay.FormField` | server/index.js:45-47 | reading a field of the optional form data, with `''` as the default, gives the submitted value when the form data holds the key, and is non-empty only when it does |
| `MailRelay.BodyLines` | server/index.js:42-49 | the message text is built from exactly six lines |
| `MailRelay.TextBodyHasSixLines` | server/index.js:42-49 | when the interpolated values hold no newline, the joined body splits back into exactly its six lines, and the trimmed name line still starts with "Nombre:" |
| `MailRelay.TextBodyOpening` | server/index.js:42-49 | the text body opens with the fixed sentence, a blank line and then "Nombre:", whatever the form data and time stamp |
| `MailRelay.NameLineKeepsLabel` | server/index.js:45 | trimming the name line can only drop trailing blanks, never its "Nombre:" label |
| `MailRelay.BuildRequest` | server/index.js:51-69 | the provider request goes to the API URL with the bearer key; its payload has the configured sender, exactly the recipient, the fixed subject, the text body, and one attachment with the chosen name and the request's base64 content unmodified |
| `MailRelay.ReplyResponse` | server/index.js:71-81 | a 2xx reply gives 200 `ok:true` "Correo enviado a <recipient>"; any other reply gives 500 `ok:false` with the provider's text, or "Error Resend (<status>)" when that is empty; a thrown error gives 500 `ok:false` with its message, or "No se pudo enviar el correo." when that is empty; a failure's message is never empty |
| `MailRelay.HandleSendPdf` | server/index.js:25-82 | missing configuration gives 500 with no provider call; then a missing or empty PDF gives 400 "No se recibió el PDF." with no provider call; the provider is called exactly when both checks pass; when the call is made, the response is the mapping of the provider's reply with the configured recipient; the response is `ok` exactly when its status is 200, and exactly when the call was made and accepted |
| `MailRelay.ConfigCheckPrecedes` | server/index.js:27-32 | without configuration every request gets the same 500 response, whatever its body, time stamp or provider reply |
| `MailRelay.SuccessNamesRecipient` | server/index.js:76 | a success names the recipient that the provider was asked to deliver to, and that recipient is the only one |

## Left out

- React rendering, JSX, refs and `openFileDialog` (src/App.jsx:124-130, 418-574): user interface.
- Effect scheduling: the synchronisation effect is the explicit call `Page.SyncFields`, made after an edit. React's batching and re-render order are not modelled.
- jsPDF drawing calls (colours, fonts, `text`, `addImage`, `output`, `save`): a foreign library. Only the vertical extent of the boxes is kept. Horizontal positions and the text drawn outside boxes are not modelled, including the introduction paragraph and the footer text at 6 mm from the bottom.
- `splitTextToSize` depends on font metrics. The introduction's line count is an input to `PdfLayout.Compose`. The first-line truncation of a field value and the wrapping of the authorisation text inside its 32 mm box are not modelled.
- `loadImage`, `FileReader` and the logo load are asynchronous browser I/O. Their outcomes are inputs: `PdfLayout.ImageLoad` and `Form.Upload.dataUrl`. The logo's success or failure does not move the cursor, so it is not modelled.
- Why a `localStorage.setItem` fails (quota, a disabled store) is not modelled: whether the write succeeds is the `written` parameter of `Page.HandleSubmit`, which models the outcome of each case.
- `localStorage` and `JSON.parse`/`stringify`: storage is `Option<Form.Stored>`. A stored value is either a full record or text that does not parse. JSON that parses to a partial record, to non-string values or to a non-object is not modelled. For a full record, the start-up merge `{ ...prev, ...parsed }` is the record itself.
- `handleDownloadPdf`, `handleSendEmail`, `isSending` and the status texts set while sending (src/App.jsx:380-416): network I/O. `emailStatus` is modelled only where submit and reset clear it.
- Express, cors, dotenv, `app.listen`, `/api/health`, the 30 MB body limit and `console.error` (server/index.js:1-15, 84-86): server plumbing.
- `new Date().toLocaleString('es-CO')` is nondeterministic and depends on the locale. It is the `timestamp` parameter.
- Request bodies whose properties are not strings (numbers, objects, `null`): every property is modelled as an optional string, and `formData` as an optional string map.
- `MailRelay.TextBodyHasSixLines`: the six-line split holds only when the name, e-mail, city and time stamp contain no newline. The code does not strip newlines, so a value containing one adds lines.
- `PdfLayout.PlaceSignature` requires `w > 6` and `h > 9`. Both calls pass the usable width (191.9 mm) and the default height (24 mm).
- JavaScript floating point: the scale-to-fit rectangle is computed over exact `real`s.
- SMTP delivery and SMTP with fallback do not appear in server/index.js. They are not part of this model.

## Findings

| source | as written | input that shows it | evidently intended | confidence | as-written member | corrected member |
|---|---|---|---|---|---|---|
| src/App.jsx:302-331 | `ensureRoom(80)` and `ensureRoom(98)` reserve 80 mm and 98 mm. The sections they guard have boxes reaching 129 mm and 145 mm below their start. | An introduction that wraps to 18 lines: the "C.C. No" row ends at 280.0 mm on a 279.4 mm page. With 28 lines, the "Ciudad y fecha" box ends at 292.0 mm. | Each reserve covers its section's height, so no box crosses the bottom margin (`PdfLayout.SectionHeights`). | low, not executed. The fixed introduction wraps to only a few lines at normal font metrics. | `PdfLayout.OverflowWitness` | `PdfLayout.GeneratePdf` |
