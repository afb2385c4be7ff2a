/** The new-project form: its initial values, the single change handler
    every input shares, and the submit handler. */
module NewProjectForm {

  /** A form field holds text, or a checkbox's state. */
  datatype FieldValue = Text(text: string) | Flag(checked: bool)

  /** The form's record, keyed by the inputs' `name` attributes. */
  type FormData = map<string, FieldValue>

  /** The form as it first renders: `Residential`, eight milestones, not
      featured, and every other field empty. */
  const InitialForm: FormData := map[
    "name" := Text(""),
    "location" := Text(""),
    "category" := Text("Residential"),
    "totalValue" := Text(""),
    "tokensAvailable" := Text(""),
    "tokenName" := Text(""),
    "tokenSymbol" := Text(""),
    "totalMilestones" := Text("8"),
    "featured" := Flag(false),
    "description" := Text("")
  ]

  /** The fields of the form. */
  const FieldNames: set<string> := {
    "name", "location", "category", "totalValue", "tokensAvailable",
    "tokenName", "tokenSymbol", "totalMilestones", "featured", "description"}

  /** What `handleChange` reads of the event's target. */
  datatype ChangeEvent = ChangeEvent(name: string, value: string, inputType: string, checked: bool)

  /** What the event stores: a checkbox its `checked` state, any other
      input its `value`. */
  function StoredValue(e: ChangeEvent): (v: FieldValue)
    ensures e.inputType == "checkbox" <==> v.Flag?
    ensures v.Flag? ==> v.checked == e.checked
    ensures v.Text? ==> v.text == e.value
  {
    if e.inputType == "checkbox" then Flag(e.checked) else Text(e.value)
  }

  /** The updater `(prev) => ({ ...prev, [name]: … })`. */
  function ApplyChange(prev: FormData, e: ChangeEvent): (r: FormData)
    ensures r.Keys == prev.Keys + {e.name}
    ensures e.name in r && r[e.name] == StoredValue(e)
  {
    prev[e.name := StoredValue(e)]
  }

  /** The initial form has exactly the ten fields, with these values. */
  lemma InitialFormFields()
    ensures InitialForm.Keys == FieldNames
    ensures forall k :: k in InitialForm && k !in {"category", "totalMilestones", "featured"} ==>
              InitialForm[k] == Text("")
    ensures InitialForm["category"] == Text("Residential")
    ensures InitialForm["totalMilestones"] == Text("8")
    ensures InitialForm["featured"] == Flag(false)
  {
  }

  /** A change sets the named field to the event's value and leaves every
      other field as it was; a name the form does not have is added. */
  lemma ChangeOnlyNamedField(prev: FormData, e: ChangeEvent)
    ensures ApplyChange(prev, e).Keys == prev.Keys + {e.name}
    ensures ApplyChange(prev, e)[e.name] == StoredValue(e)
    ensures forall k :: k in prev && k != e.name ==> ApplyChange(prev, e)[k] == prev[k]
  {
  }

  /** Applying the same change twice is applying it once. */
  lemma ChangeIdempotent(prev: FormData, e: ChangeEvent)
    ensures ApplyChange(ApplyChange(prev, e), e) == ApplyChange(prev, e)
  {
  }

  /** Changes to different fields can be applied in either order. */
  lemma ChangesCommute(prev: FormData, a: ChangeEvent, b: ChangeEvent)
    requires a.name != b.name
    ensures ApplyChange(ApplyChange(prev, a), b) == ApplyChange(ApplyChange(prev, b), a)
  {
  }

  /** A change to a field of the form keeps the form's set of fields; so
      does any sequence of them. */
  lemma {:induction false} ChangesKeepFields(form: FormData, es: seq<ChangeEvent>)
    requires forall i :: 0 <= i < |es| ==> es[i].name in form
    ensures ApplyAll(form, es).Keys == form.Keys
  {
    if es != [] {
      var last := es[|es| - 1];
      ChangesKeepFields(form, es[..|es| - 1]);
      ChangeOnlyNamedField(ApplyAll(form, es[..|es| - 1]), last);
    }
  }

  /** The form after a sequence of changes, in order. */
  function ApplyAll(form: FormData, es: seq<ChangeEvent>): FormData
  {
    if es == [] then form else ApplyChange(ApplyAll(form, es[..|es| - 1]), es[|es| - 1])
  }

  const CreatedText := "Project created successfully!"

  /** The page's state: the `formData` record. */
  class NewProjectPage {
    var formData: FormData

    constructor()
      ensures formData == InitialForm
    {
      formData := InitialForm;
    }

    /** `handleChange`: one field of the record is replaced. */
    method HandleChange(e: ChangeEvent)
      modifies this
      ensures formData == ApplyChange(old(formData), e)
    {
      formData := formData[e.name := StoredValue(e)];
    }

    /** `handleSubmit`: the data is logged and the success alert shown; the
        form is left as it is. Returns what is logged and the alert. */
    method HandleSubmit() returns (logged: FormData, alertText: string)
      ensures logged == formData && alertText == CreatedText
    {
      logged := formData;
      alertText := CreatedText;
    }
  }
}
