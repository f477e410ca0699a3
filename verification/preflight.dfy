/** The submit handler's pre-flight (script.js): the "something must be
    supplied" guard and the `patientData` object it sends to the server. */
module Preflight {
  import JsText

  /** The six form controls the guard reads; every control yields a string
      (an unset gender select yields ""). */
  datatype ClientForm = ClientForm(
    age: string,
    gender: string,
    diagnosis: string,
    symptoms: string,
    environmentalFactors: string,
    personalFactors: string)

  /** The controls in the guard's order. */
  function FieldValues(form: ClientForm): seq<string> {
    [form.age, form.gender, form.diagnosis, form.symptoms,
     form.environmentalFactors, form.personalFactors]
  }

  /** `hasTextInput`: some control holds more than white space. */
  predicate HasTextInput(form: ClientForm) {
    exists i :: 0 <= i < |FieldValues(form)| && JsText.NonBlank(FieldValues(form)[i])
  }

  /** The server-side key of each control, in the order the object literal lists them. */
  const FormKeys: seq<string> :=
    ["age", "gender", "diagnosis", "symptoms", "environmentalFactors", "personalFactors"]

  /** The `patientData` object built from the form. */
  function ToPatientData(form: ClientForm): (pd: map<string, string>)
    ensures pd.Keys == set k | k in FormKeys
    ensures forall i :: 0 <= i < |FormKeys| ==> pd[FormKeys[i]] == FieldValues(form)[i]
  {
    map["age" := form.age, "gender" := form.gender, "diagnosis" := form.diagnosis,
        "symptoms" := form.symptoms, "environmentalFactors" := form.environmentalFactors,
        "personalFactors" := form.personalFactors]
  }

  datatype PreflightOutcome =
    | Refused
    | Submit(patientData: map<string, string>, imageCount: nat)

  /** The guard, then the request body. Refusal happens before any request is made. */
  function CheckSubmission(form: ClientForm, imageCount: nat): (r: PreflightOutcome)
    ensures r.Refused? <==>
      imageCount == 0 && forall i :: 0 <= i < 6 ==> !JsText.NonBlank(FieldValues(form)[i])
    ensures r.Submit? ==> r.patientData == ToPatientData(form) && r.imageCount == imageCount
  {
    if !HasTextInput(form) && imageCount == 0 then Refused
    else Submit(ToPatientData(form), imageCount)
  }

  /** The guard looks past white space: a form of blanks, tabs and newlines with
      no image is refused, while one visible character anywhere lets it through. */
  lemma {:induction false} RefusedIffNoVisibleChar(form: ClientForm, imageCount: nat)
    ensures CheckSubmission(form, imageCount).Refused? <==>
      imageCount == 0 &&
      forall i, k :: 0 <= i < 6 && 0 <= k < |FieldValues(form)[i]| ==> JsText.IsJsSpace(FieldValues(form)[i][k])
  {
    var vs := FieldValues(form);
    forall i | 0 <= i < 6 {
      JsText.NonBlankIffVisibleChar(vs[i]);
    }
  }
}
