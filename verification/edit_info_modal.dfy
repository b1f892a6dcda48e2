/** The edit-information dialog: the form's initial values, the per-field
    change handler and the submit hand-off. The save callback is a parameter,
    described only by whether it throws and with which message. */
module EditInfoModal {
  import opened Wrappers
  import opened Strings
  import opened DeviceInfo

  const DefaultLocation := "Hanoi - Vietnam - Asia"
  const DefaultModel := "Apple M1 Pro"
  const ResponseFailed := "Failed to update device information"
  const GenericFailure := "An error occurred while updating device information"

  /** The input names of the form. */
  datatype Field = Name | Description | Location | Model | Tags

  datatype Form = Form(name: string, description: string, location: string, model: string, tags: string)

  function Get(f: Form, k: Field): string {
    match k
    case Name => f.name
    case Description => f.description
    case Location => f.location
    case Model => f.model
    case Tags => f.tags
  }

  /** Two forms with the same value in every field are the same form. */
  lemma FormExtensional(a: Form, b: Form)
    requires forall k :: Get(a, k) == Get(b, k)
    ensures a == b
  {
    assert Get(a, Name) == Get(b, Name);
    assert Get(a, Description) == Get(b, Description);
    assert Get(a, Location) == Get(b, Location);
    assert Get(a, Model) == Get(b, Model);
    assert Get(a, Tags) == Get(b, Tags);
  }

  /** The model of the record's CPU, when there is one. */
  function CpuModel(info: Option<Info>): Option<string> {
    if info.Some? && info.value.cpu.Some? then info.value.cpu.value.model else None
  }

  /** The form's initial state: each field from the record, or its default. */
  function InitialForm(info: Option<Info>): (f: Form)
    ensures f.name == OrElse(if info.Some? then info.value.hostName else None, "")
    ensures f.description == "" && f.tags == ""
    ensures info.None? ==> f.location == DefaultLocation && f.model == DefaultModel
    ensures CpuModel(info).None? || CpuModel(info).value == "" ==> f.model == DefaultModel
    ensures f.location == DefaultLocation || (info.Some? && info.value.location == Some(f.location))
    ensures CpuModel(info).Some? && CpuModel(info).value != "" ==> f.model == CpuModel(info).value
    ensures info.Some? && info.value.location.Some? && info.value.location.value != "" ==>
              f.location == info.value.location.value
    ensures info.Some? && (info.value.location.None? || info.value.location.value == "") ==>
              f.location == DefaultLocation
  {
    match info
    case None => Form("", "", DefaultLocation, DefaultModel, "")
    case Some(d) => Form(OrElse(d.hostName, ""), "", OrElse(d.location, DefaultLocation), OrElse(CpuModel(info), DefaultModel), "")
  }

  /** `handleChange`: the named field takes the new value and nothing else changes. */
  function Change(f: Form, k: Field, v: string): (r: Form)
    ensures Get(r, k) == v
    ensures forall other :: other != k ==> Get(r, other) == Get(f, other)
  {
    match k
    case Name => f.(name := v)
    case Description => f.(description := v)
    case Location => f.(location := v)
    case Model => f.(model := v)
    case Tags => f.(tags := v)
  }

  /** Edits to different fields may be applied in either order. */
  lemma ChangesCommute(f: Form, k1: Field, v1: string, k2: Field, v2: string)
    requires k1 != k2
    ensures Change(Change(f, k1, v1), k2, v2) == Change(Change(f, k2, v2), k1, v1)
  {
    var a := Change(Change(f, k1, v1), k2, v2);
    var b := Change(Change(f, k2, v2), k1, v1);
    forall k ensures Get(a, k) == Get(b, k) {
    }
    FormExtensional(a, b);
  }

  /** A second edit of the same field replaces the first. */
  lemma ChangeOverwrites(f: Form, k: Field, v1: string, v2: string)
    ensures Change(Change(f, k, v1), k, v2) == Change(f, k, v2)
  {
    var a := Change(Change(f, k, v1), k, v2);
    var b := Change(f, k, v2);
    forall k' ensures Get(a, k') == Get(b, k') {
    }
    FormExtensional(a, b);
  }

  /** Re-entering a field's current value leaves the form as it was. */
  lemma ChangeToSameIsIdentity(f: Form, k: Field)
    ensures Change(f, k, Get(f, k)) == f
  {
    var a := Change(f, k, Get(f, k));
    forall k' ensures Get(a, k') == Get(f, k') {
    }
    FormExtensional(a, f);
  }

  /** What a submission leaves behind: the form handed to the save callback
      (if it was called), the busy flag and the message shown. */
  datatype Submission = Submission(saved: Option<Form>, isSubmitting: bool, error: Option<string>)

  /** `handleSubmit` to its `finally`. `responseOk` is the simulated response's
      `success` flag (always true in the dialog); `saveThrows` is the message
      of an exception raised by the save callback, if it raised one. */
  function Submit(f: Form, responseOk: bool, saveThrows: Option<string>): (s: Submission)
    ensures !s.isSubmitting
    ensures s.saved.Some? <==> responseOk
    ensures s.saved.Some? ==> s.saved.value == f
    ensures s.error.None? <==> responseOk && saveThrows.None?
    ensures !responseOk ==> s.error == Some(ResponseFailed)
    ensures responseOk && saveThrows == Some("") ==> s.error == Some(GenericFailure)
    ensures responseOk && saveThrows.Some? && saveThrows.value != "" ==> s.error == saveThrows
  {
    if !responseOk then Submission(None, false, Some(ResponseFailed))
    else
      match saveThrows
      case None => Submission(Some(f), false, None)
      case Some(msg) => Submission(Some(f), false, Some(OrElse(saveThrows, GenericFailure)))
  }

  /** Saving the form untouched hands the record's own name, location and
      CPU model back to the callback, wherever the record has them. */
  lemma UnchangedFormSavesRecord(d: Info)
    requires d.hostName.Some? && d.hostName.value != ""
    requires d.location.Some? && d.location.value != ""
    requires CpuModel(Some(d)).Some? && CpuModel(Some(d)).value != ""
    ensures var saved := Submit(InitialForm(Some(d)), true, None).saved;
            && saved.Some?
            && saved.value.name == d.hostName.value
            && saved.value.location == d.location.value
            && saved.value.model == CpuModel(Some(d)).value
  {
  }

  /** After any edits, a successful save receives exactly the edited form; the
      tags stay the raw text typed. */
  lemma SubmitHandsOverEdits(info: Option<Info>, k: Field, v: string)
    ensures Submit(Change(InitialForm(info), k, v), true, None).saved == Some(Change(InitialForm(info), k, v))
    ensures Get(Submit(Change(InitialForm(info), k, v), true, None).saved.value, k) == v
  {
  }
}
