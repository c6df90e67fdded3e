/**
  * The form page's component state and its handlers. The page keeps the record being edited, the
  * preview shown after saving, whether the form is editable, the e-mail status line, and the
  * browser-storage entry under the form's key; each handler updates them in place.
  */
module FormPage {
  import opened Wrappers
  import opened Form

  class Page {
    /** The record bound to the form's inputs. */
    var formData: FormData
    /** The redacted preview shown after saving; `None` before the first save. */
    var resultado: Option<FormData>
    /** Whether the form accepts edits (otherwise it is shown for review). */
    var isEditing: bool
    /** The transient e-mail status line. */
    var emailStatus: string
    /** The browser-storage entry under the key `sindegeologico_form_data`. */
    var storage: Option<Stored>

    /** A preview on screen is always the redacted form of the snapshot held in storage. */
    predicate Valid()
      reads this
    {
      resultado.Some? ==> storage.Some? && storage.value.Snapshot? && resultado.value == BuildPreview(storage.value.data)
    }

    /** A freshly mounted page over whatever storage already holds. */
    constructor (saved: Option<Stored>)
      ensures Valid()
      ensures formData == Initial && resultado == None && isEditing && emailStatus == ""
      ensures storage == saved
    {
      formData := Initial;
      resultado := None;
      isEditing := true;
      emailStatus := "";
      storage := saved;
    }

    /**
      * The start-up effect: a stored snapshot is merged over the current record, previewed and
      * shown for review; unparseable text is removed from storage and the page stays as it is;
      * with nothing stored nothing happens.
      */
    method Load()
      requires Valid()
      modifies this
      ensures Valid()
      ensures emailStatus == old(emailStatus)
      ensures match Restore(old(storage))
        case Restored(data) =>
          formData == data && resultado == Some(BuildPreview(data)) && !isEditing && storage == old(storage)
        case DiscardCorrupt =>
          storage == None && formData == old(formData) && resultado == old(resultado) && isEditing == old(isEditing)
        case KeepDefaults =>
          storage == old(storage) && formData == old(formData) && resultado == old(resultado) && isEditing == old(isEditing)
    {
      match Restore(storage)
      case Restored(data) =>
        formData := data;
        resultado := Some(BuildPreview(data));
        isEditing := false;
      case DiscardCorrupt =>
        storage := None;
      case KeepDefaults =>
    }

    /** The derived-field effect: after it runs the record is synchronised, and only derived fields moved. */
    method SyncFields()
      requires Valid()
      modifies this`formData
      ensures Valid()
      ensures formData == SyncDerived(old(formData))
      ensures IsSynced(formData)
      ensures forall f :: !IsDerived(f) ==> Get(formData, f) == Get(old(formData), f)
    {
      formData := SyncDerived(formData);
    }

    /** The change handler: field `name` takes `value`. */
    method HandleChange(name: Field, value: string)
      requires Valid()
      modifies this`formData
      ensures Valid()
      ensures Get(formData, name) == value
      ensures forall g :: g != name ==> Get(formData, g) == Get(old(formData), g)
    {
      formData := With(formData, name, value);
    }

    /**
      * The upload handler: with no file, a file whose type is not `image/...`, or a read that never
      * completes, nothing changes; otherwise the data URL goes into `field`, and into the second
      * signature as well when `field` is the first.
      */
    method HandleSignatureUpload(field: Field, file: Option<Upload>)
      requires Valid()
      modifies this`formData
      ensures Valid()
      ensures file.None? || !Text.StartsWith(file.value.mimeType, "image/") || file.value.dataUrl.None? ==>
        formData == old(formData)
      ensures file.Some? && Text.StartsWith(file.value.mimeType, "image/") && file.value.dataUrl.Some? ==>
        formData == WithSignature(old(formData), field, file.value.dataUrl.value)
    {
      if file.None? {
        return;
      }
      if !Text.StartsWith(file.value.mimeType, "image/") {
        return;
      }
      match file.value.dataUrl
      case Some(imageData) =>
        formData := WithSignature(formData, field, imageData);
      case None =>
    }

    /** The removal handler. */
    method HandleRemoveSignature(field: Field)
      requires Valid()
      modifies this`formData
      ensures Valid()
      ensures formData == WithoutSignature(old(formData), field)
    {
      formData := WithoutSignature(formData, field);
    }

    /**
      * The submit handler: the record is written to storage, its redacted preview is shown, the
      * form switches to review and the e-mail status is cleared. The record itself is untouched.
      * `written` is the outcome of the storage write: when it throws (the quota is exceeded, say)
      * the handler stops before any state update, so the page is left exactly as it was.
      */
    method HandleSubmit(written: bool)
      requires Valid()
      modifies this
      ensures Valid()
      ensures formData == old(formData)
      ensures written ==> storage == Some(Snapshot(formData))
      ensures written ==> resultado == Some(BuildPreview(formData)) && !isEditing && emailStatus == ""
      ensures !written ==>
        && storage == old(storage) && resultado == old(resultado)
        && isEditing == old(isEditing) && emailStatus == old(emailStatus)
    {
      if !written {
        return;
      }
      storage := Some(Snapshot(formData));
      resultado := Some(BuildPreview(formData));
      isEditing := false;
      emailStatus := "";
    }

    /** The reset handler: defaults back, no preview, storage entry removed, form editable again. */
    method HandleReset()
      requires Valid()
      modifies this
      ensures Valid()
      ensures formData == Initial && resultado == None && storage == None
      ensures isEditing && emailStatus == ""
    {
      formData := Initial;
      resultado := None;
      storage := None;
      isEditing := true;
      emailStatus := "";
    }

    /** The modify handler: the form becomes editable again; nothing else changes. */
    method HandleModify()
      requires Valid()
      modifies this`isEditing
      ensures Valid()
      ensures isEditing
    {
      isEditing := true;
    }
  }

  /**
    * Saving successfully and then opening the page again: the new page restores exactly the saved
    * record, shows the same preview as the page that saved it, and starts in review.
    */
  method SaveThenReload(page: Page) returns (reloaded: Page)
    requires page.Valid()
    modifies page
    ensures fresh(reloaded) && reloaded.Valid()
    ensures reloaded.formData == old(page.formData)
    ensures reloaded.resultado == page.resultado == Some(BuildPreview(old(page.formData)))
    ensures !reloaded.isEditing
  {
    page.HandleSubmit(true);
    reloaded := new Page(page.storage);
    reloaded.Load();
  }

  /** Resetting and then opening the page again: the new page finds nothing and starts from the defaults. */
  method ResetThenReload(page: Page) returns (reloaded: Page)
    requires page.Valid()
    modifies page
    ensures fresh(reloaded) && reloaded.Valid()
    ensures reloaded.formData == Initial && reloaded.resultado == None && reloaded.storage == None
    ensures reloaded.isEditing
  {
    page.HandleReset();
    reloaded := new Page(page.storage);
    reloaded.Load();
  }

  /** A corrupt entry found at start-up is removed, and a second start finds nothing. */
  method CorruptSnapshotIsDropped(text: string) returns (reloaded: Page)
    requires text != ""
    ensures fresh(reloaded) && reloaded.Valid()
    ensures reloaded.formData == Initial && reloaded.resultado == None && reloaded.isEditing
    ensures reloaded.storage == None
  {
    var page := new Page(Some(Unparseable(text)));
    page.Load();
    reloaded := new Page(page.storage);
    reloaded.Load();
  }
}
