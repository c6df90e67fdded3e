/**
  * The affiliation form's record and the pure record transformations of the form page: the field
  * assignment of the change handler, the derived-field synchronisation, the signature upload and
  * removal updaters, the redacted preview shown after saving, and the decision taken on the
  * snapshot found in browser storage when the page starts.
  */
module Form {
  import opened Wrappers
  import opened Text

  /** The names of the record's fields, one per key of the form's initial data. */
  datatype Field =
    | Nombres | Apellidos | FechaIngreso | Dependencia | Ciudad | Telefono | Extension | Correo
    | Firma1Image | Cc1 | De1 | Yo | CcIdentificado | De2 | AutorizacionTexto | Firma2Image
    | Cc2 | De3 | CiudadFecha

  /** The flat record of string fields the page edits, saves and renders. */
  datatype FormData = FormData(
    nombres: string, apellidos: string, fechaIngreso: string, dependencia: string,
    ciudad: string, telefono: string, extension: string, correo: string,
    firma1Image: string, cc1: string, de1: string, yo: string, ccIdentificado: string,
    de2: string, autorizacionTexto: string, firma2Image: string, cc2: string, de3: string,
    ciudadFecha: string)

  /** The pre-filled authorisation statement. */
  const AuthorizationText: string :=
    "Autorizo se me descuente mensualmente el 0,5 % de mi sueldo b\U{E1}sico con destino al "
    + "Sindicato de Empleados del Servicio Geol\U{F3}gico Colombiano - SINDEGEOL\U{D3}GICO, por "
    + "concepto de cuotas mensuales ordinarias."

  /** The record a fresh page starts from: every field empty except the authorisation text. */
  const Initial: FormData :=
    FormData("", "", "", "", "", "", "", "", "", "", "", "", "", "", AuthorizationText, "", "", "", "")

  /** The preview's replacement for a signature that holds image data. */
  const ImageMarker: string := "[Imagen cargada]"
  /** The preview's replacement for an empty signature. */
  const NoImageMarker: string := "[Sin firma]"

  /** The five read-only fields that mirror the name, the first ID number and its issuer. */
  predicate IsDerived(f: Field)
  {
    f.Yo? || f.CcIdentificado? || f.De2? || f.Cc2? || f.De3?
  }

  /** The two signature-image fields. */
  predicate IsSignature(f: Field)
  {
    f.Firma1Image? || f.Firma2Image?
  }

  /** The value of field `f` (the record read as `data[f]`). */
  function Get(r: FormData, f: Field): string
  {
    match f
    case Nombres => r.nombres
    case Apellidos => r.apellidos
    case FechaIngreso => r.fechaIngreso
    case Dependencia => r.dependencia
    case Ciudad => r.ciudad
    case Telefono => r.telefono
    case Extension => r.extension
    case Correo => r.correo
    case Firma1Image => r.firma1Image
    case Cc1 => r.cc1
    case De1 => r.de1
    case Yo => r.yo
    case CcIdentificado => r.ccIdentificado
    case De2 => r.de2
    case AutorizacionTexto => r.autorizacionTexto
    case Firma2Image => r.firma2Image
    case Cc2 => r.cc2
    case De3 => r.de3
    case CiudadFecha => r.ciudadFecha
  }

  /** Two records that agree on every field are the same record. */
  lemma Extensionality(a: FormData, b: FormData)
    requires forall f :: Get(a, f) == Get(b, f)
    ensures a == b
  {
    assert Get(a, Nombres) == Get(b, Nombres) && Get(a, Apellidos) == Get(b, Apellidos);
    assert Get(a, FechaIngreso) == Get(b, FechaIngreso) && Get(a, Dependencia) == Get(b, Dependencia);
    assert Get(a, Ciudad) == Get(b, Ciudad) && Get(a, Telefono) == Get(b, Telefono);
    assert Get(a, Extension) == Get(b, Extension) && Get(a, Correo) == Get(b, Correo);
    assert Get(a, Firma1Image) == Get(b, Firma1Image) && Get(a, Cc1) == Get(b, Cc1);
    assert Get(a, De1) == Get(b, De1) && Get(a, Yo) == Get(b, Yo);
    assert Get(a, CcIdentificado) == Get(b, CcIdentificado) && Get(a, De2) == Get(b, De2);
    assert Get(a, AutorizacionTexto) == Get(b, AutorizacionTexto) && Get(a, Firma2Image) == Get(b, Firma2Image);
    assert Get(a, Cc2) == Get(b, Cc2) && Get(a, De3) == Get(b, De3) && Get(a, CiudadFecha) == Get(b, CiudadFecha);
  }

  /**
    * The change handler's updater `{ ...prev, [name]: value }`: field `f` takes `v` and every
    * other field keeps its value.
    */
  function With(r: FormData, f: Field, v: string): (r': FormData)
    ensures Get(r', f) == v
    ensures forall g :: g != f ==> Get(r', g) == Get(r, g)
  {
    match f
    case Nombres => r.(nombres := v)
    case Apellidos => r.(apellidos := v)
    case FechaIngreso => r.(fechaIngreso := v)
    case Dependencia => r.(dependencia := v)
    case Ciudad => r.(ciudad := v)
    case Telefono => r.(telefono := v)
    case Extension => r.(extension := v)
    case Correo => r.(correo := v)
    case Firma1Image => r.(firma1Image := v)
    case Cc1 => r.(cc1 := v)
    case De1 => r.(de1 := v)
    case Yo => r.(yo := v)
    case CcIdentificado => r.(ccIdentificado := v)
    case De2 => r.(de2 := v)
    case AutorizacionTexto => r.(autorizacionTexto := v)
    case Firma2Image => r.(firma2Image := v)
    case Cc2 => r.(cc2 := v)
    case De3 => r.(de3 := v)
    case CiudadFecha => r.(ciudadFecha := v)
  }

  // ---------------------------------------------------------------------------------------------
  // Derived-field synchronisation

  /** The value `yo` must mirror: the trimmed full name. */
  function FullName(r: FormData): string
  {
    Trim(r.nombres + " " + r.apellidos)
  }

  /** The derived fields agree with the fields they mirror. */
  predicate IsSynced(r: FormData)
  {
    && r.yo == FullName(r)
    && r.ccIdentificado == r.cc1 && r.cc2 == r.cc1
    && r.de2 == r.de1 && r.de3 == r.de1
  }

  /**
    * The synchronisation effect: when any derived field disagrees with its source, all five are
    * overwritten from `nombres`, `apellidos`, `cc1` and `de1`; otherwise the record is left as it is.
    * The result is synchronised, is the record itself when that was already synchronised, and
    * differs from it in derived fields only.
    */
  function SyncDerived(r: FormData): (r': FormData)
    ensures IsSynced(r')
    ensures IsSynced(r) ==> r' == r
    ensures forall f :: !IsDerived(f) ==> Get(r', f) == Get(r, f)
  {
    if IsSynced(r) then r
    else r.(yo := FullName(r), ccIdentificado := r.cc1, de2 := r.de1, cc2 := r.cc1, de3 := r.de1)
  }

  /** Synchronisation changes the record exactly when it was out of sync; a second pass changes nothing. */
  lemma SyncFixedPoint(r: FormData)
    ensures SyncDerived(r) == r <==> IsSynced(r)
    ensures SyncDerived(SyncDerived(r)) == SyncDerived(r)
  {
  }

  /**
    * Writing a derived field is undone by the next synchronisation: whatever is typed into a
    * read-only field, the synchronised record is the one the sources determine.
    */
  lemma DerivedWritesAreOverridden(r: FormData, f: Field, v: string)
    requires IsDerived(f)
    ensures SyncDerived(With(r, f, v)) == SyncDerived(r)
  {
    var a := SyncDerived(With(r, f, v));
    var b := SyncDerived(r);
    forall g ensures Get(a, g) == Get(b, g) {
      if !IsDerived(g) {
        assert Get(a, g) == Get(With(r, f, v), g) == Get(r, g);
      }
    }
    Extensionality(a, b);
  }

  /**
    * After a source field is edited and the record synchronised, the derived fields show the
    * edited sources: the new full name, the new first ID number and the new first issuer.
    */
  lemma EditThenSync(r: FormData, f: Field, v: string)
    requires !IsDerived(f)
    ensures var s := SyncDerived(With(r, f, v));
      && s.yo == Trim(Get(With(r, f, v), Nombres) + " " + Get(With(r, f, v), Apellidos))
      && s.ccIdentificado == s.cc2 == Get(With(r, f, v), Cc1)
      && s.de2 == s.de3 == Get(With(r, f, v), De1)
      && Get(s, f) == v
  {
  }

  /** The initial record is already synchronised: both names are empty, and so is their trimmed join. */
  lemma InitialIsSynced()
    ensures IsSynced(Initial)
  {
    assert Initial.nombres + " " + Initial.apellidos == " ";
    assert AllWhitespace(" ");
  }

  // ---------------------------------------------------------------------------------------------
  // Signature upload and removal

  /** A file chosen in the upload dialog: its MIME type and, when the read completes, its data URL. */
  datatype Upload = Upload(mimeType: string, dataUrl: Option<string>)

  /**
    * The upload updater: image data stored in the first signature is cloned into the second one;
    * into any other field it goes alone. Fields other than the two signatures never change.
    */
  function WithSignature(r: FormData, field: Field, data: string): (r': FormData)
    ensures Get(r', field) == data
    ensures field == Firma1Image ==> r'.firma2Image == data
    ensures forall g :: g != field && (field != Firma1Image || g != Firma2Image) ==> Get(r', g) == Get(r, g)
  {
    if field == Firma1Image then r.(firma1Image := data, firma2Image := data)
    else With(r, field, data)
  }

  /**
    * The removal updater: clearing the first signature clears its clone too; clearing any other
    * field clears that field alone.
    */
  function WithoutSignature(r: FormData, field: Field): (r': FormData)
    ensures Get(r', field) == ""
    ensures field == Firma1Image ==> r'.firma2Image == ""
    ensures forall g :: g != field && (field != Firma1Image || g != Firma2Image) ==> Get(r', g) == Get(r, g)
  {
    if field == Firma1Image then r.(firma1Image := "", firma2Image := "")
    else With(r, field, "")
  }

  /** Upload and removal leave the derived fields, hence the synchronisation, untouched. */
  lemma SignatureUpdatesKeepSync(r: FormData, field: Field, data: string)
    requires IsSignature(field)
    ensures IsSynced(WithSignature(r, field, data)) == IsSynced(r)
    ensures IsSynced(WithoutSignature(r, field)) == IsSynced(r)
  {
  }

  /** Uploading the first signature and then removing it leaves both signature slots empty. */
  lemma UploadThenRemove(r: FormData, data: string)
    ensures var r' := WithoutSignature(WithSignature(r, Firma1Image, data), Firma1Image);
      && r'.firma1Image == "" && r'.firma2Image == ""
      && forall g :: !IsSignature(g) ==> Get(r', g) == Get(r, g)
  {
  }

  // ---------------------------------------------------------------------------------------------
  // Preview

  /** The marker a preview shows for a signature field. */
  function SignatureMarker(image: string): string
  {
    if image != "" then ImageMarker else NoImageMarker
  }

  /**
    * The redacted preview: every non-signature field is copied, and each signature is replaced by
    * a marker telling whether an image is present, so no image data reaches the preview.
    */
  function BuildPreview(r: FormData): (p: FormData)
    ensures forall f :: !IsSignature(f) ==> Get(p, f) == Get(r, f)
    ensures forall f :: IsSignature(f) ==> (Get(p, f) == ImageMarker <==> Get(r, f) != "")
    ensures forall f :: IsSignature(f) ==> (Get(p, f) == NoImageMarker <==> Get(r, f) == "")
  {
    r.(firma1Image := SignatureMarker(r.firma1Image), firma2Image := SignatureMarker(r.firma2Image))
  }

  /** Two records with the same preview differ at most in which images they carry, not in whether. */
  lemma PreviewForgetsOnlyImages(a: FormData, b: FormData)
    requires BuildPreview(a) == BuildPreview(b)
    ensures forall f :: !IsSignature(f) ==> Get(a, f) == Get(b, f)
    ensures (a.firma1Image == "") == (b.firma1Image == "") && (a.firma2Image == "") == (b.firma2Image == "")
  {
    assert Get(BuildPreview(a), Firma1Image) == Get(BuildPreview(b), Firma1Image);
    assert Get(BuildPreview(a), Firma2Image) == Get(BuildPreview(b), Firma2Image);
  }

  // ---------------------------------------------------------------------------------------------
  // Persisted snapshot

  /** What browser storage holds under the key: the JSON of a record, or text that does not parse. */
  datatype Stored = Snapshot(data: FormData) | Unparseable(text: string)

  /** What the start-up path does with what it finds under the key. */
  datatype Restoration = KeepDefaults | Restored(data: FormData) | DiscardCorrupt

  /**
    * The start-up decision: nothing stored (or an empty string) keeps the defaults; a snapshot is
    * restored; text that does not parse is discarded.
    */
  function Restore(saved: Option<Stored>): (r: Restoration)
    ensures r.Restored? <==> saved.Some? && saved.value.Snapshot?
    ensures r.Restored? ==> r.data == saved.value.data
    ensures r == DiscardCorrupt <==> saved.Some? && saved.value.Unparseable? && saved.value.text != ""
  {
    match saved
    case None => KeepDefaults
    case Some(Unparseable(text)) => if text == "" then KeepDefaults else DiscardCorrupt
    case Some(Snapshot(data)) => Restored(data)
  }
}
