/**
 * The plant add/edit form: a record of text fields and an ordered list of
 * fertilizers, edited field by field, entry by entry, or replaced whole.
 */
module PlantForm {

  import opened Wrappers

  datatype FormData = FormData(
    id: Option<string>,
    imageUrl: string,
    name: string,
    date: string,
    description: string,
    climate: string,
    soilPh: string,
    landPreparation: string,
    fertilizers: seq<string>)

  /** The text fields, by the `name` of their input (and the image upload's target). */
  datatype Field = ImageUrl | Name | Date | Description | Climate | SoilPh | LandPreparation

  function Get(f: FormData, field: Field): string
  {
    match field
    case ImageUrl => f.imageUrl
    case Name => f.name
    case Date => f.date
    case Description => f.description
    case Climate => f.climate
    case SoilPh => f.soilPh
    case LandPreparation => f.landPreparation
  }

  /** `{ ...prev, [field]: value }`: the named field takes the value, everything else stays. */
  function Set(f: FormData, field: Field, value: string): (r: FormData)
    ensures Get(r, field) == value
    ensures forall g :: g != field ==> Get(r, g) == Get(f, g)
    ensures r.fertilizers == f.fertilizers && r.id == f.id
  {
    match field
    case ImageUrl => f.(imageUrl := value)
    case Name => f.(name := value)
    case Date => f.(date := value)
    case Description => f.(description := value)
    case Climate => f.(climate := value)
    case SoilPh => f.(soilPh := value)
    case LandPreparation => f.(landPreparation := value)
  }

  /** Setting a field to the value it already holds changes nothing. */
  lemma SetToSameIsIdentity(f: FormData, field: Field)
    ensures Set(f, field, Get(f, field)) == f
  {
  }

  /** The state before any editing: every text field empty, no fertilizers, no id. */
  function Blank(): (r: FormData)
    ensures forall g :: Get(r, g) == ""
    ensures r.fertilizers == [] && r.id == None
  {
    FormData(None, "", "", "", "", "", "", "", [])
  }

  /**
   * The browser's constraint validation: every input marked `required` (all
   * text fields but the image) is non-empty. The form's submit event fires
   * only when this holds.
   */
  predicate RequiredFilled(f: FormData)
  {
    forall g :: g != ImageUrl ==> Get(f, g) != ""
  }

  /** A blank form cannot be submitted. */
  lemma BlankIsNotSubmittable()
    ensures !RequiredFilled(Blank())
  {
    assert Get(Blank(), Name) == "";
  }

  /**
   * Writing a required field keeps the form submittable exactly when the new
   * value is non-empty and the other required fields are filled; writing the
   * image URL never changes it.
   */
  lemma RequiredFilledAfterSet(f: FormData, field: Field, value: string)
    ensures field == ImageUrl ==> (RequiredFilled(Set(f, field, value)) <==> RequiredFilled(f))
    ensures field != ImageUrl ==>
              (RequiredFilled(Set(f, field, value)) <==>
               value != "" && forall g :: g != ImageUrl && g != field ==> Get(f, g) != "")
  {
  }

  class FormState {
    var formData: FormData
    /** An image upload is running; the submit button is disabled meanwhile. */
    var uploading: bool

    /** The form as it first renders, then with `initialData` loaded when one is given. */
    constructor (initialData: Option<FormData>)
      ensures initialData.None? ==> formData == Blank()
      ensures initialData.Some? ==> formData == initialData.value
      ensures !uploading
    {
      formData := Blank();
      uploading := false;
      if initialData.Some? {
        formData := initialData.value;
      }
    }

    /** The effect on `initialData`: the whole record is replaced. */
    method LoadInitialData(data: FormData)
      modifies this`formData
      ensures formData == data
    {
      formData := data;
    }

    /** `handleChange`: only the named field changes. */
    method HandleChange(field: Field, value: string)
      modifies this`formData
      ensures formData == Set(old(formData), field, value)
      ensures Get(formData, field) == value
      ensures forall g :: g != field ==> Get(formData, g) == Get(old(formData), g)
      ensures formData.fertilizers == old(formData.fertilizers)
    {
      formData := Set(formData, field, value);
    }

    /** `handleFertilizersChange`: entry `index` takes the value; length and every other entry stay. */
    method HandleFertilizersChange(index: nat, value: string)
      requires index < |formData.fertilizers|
      modifies this`formData
      ensures formData == old(formData).(fertilizers := old(formData.fertilizers)[index := value])
      ensures |formData.fertilizers| == |old(formData.fertilizers)|
      ensures formData.fertilizers[index] == value
      ensures forall j :: 0 <= j < |formData.fertilizers| && j != index ==>
                formData.fertilizers[j] == old(formData.fertilizers)[j]
    {
      var newFertilizers := formData.fertilizers;
      newFertilizers := newFertilizers[index := value];
      formData := formData.(fertilizers := newFertilizers);
    }

    /** `handleAddFertilizer`: an empty entry is appended; the old list is a prefix of the new one. */
    method HandleAddFertilizer()
      modifies this`formData
      ensures formData == old(formData).(fertilizers := old(formData.fertilizers) + [""])
      ensures |formData.fertilizers| == |old(formData.fertilizers)| + 1
      ensures formData.fertilizers[..|old(formData.fertilizers)|] == old(formData.fertilizers)
    {
      formData := formData.(fertilizers := formData.fertilizers + [""]);
    }

    /** A file was picked: the upload starts. */
    method StartUpload()
      modifies this`uploading
      ensures uploading
    {
      uploading := true;
    }

    /** The upload failed: the form is unchanged and can be submitted again. */
    method UploadFailed()
      modifies this`uploading
      ensures !uploading
    {
      uploading := false;
    }

    /** The upload finished: only `imageUrl` changes, to the download URL. */
    method UploadComplete(downloadUrl: string)
      modifies this`formData, this`uploading
      ensures formData == Set(old(formData), ImageUrl, downloadUrl)
      ensures !uploading
    {
      formData := Set(formData, ImageUrl, downloadUrl);
      uploading := false;
    }

    /**
     * `handleFormSubmit`: the current record goes to the parent's handler
     * unchanged. The button is disabled while uploading, and the browser
     * blocks the submit event while a required field is empty.
     */
    method Submit() returns (submitted: FormData)
      requires !uploading
      requires RequiredFilled(formData)
      ensures submitted == formData
      ensures forall g :: g != ImageUrl ==> Get(submitted, g) != ""
    {
      submitted := formData;
    }
  }
}
