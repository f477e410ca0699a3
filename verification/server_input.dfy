/** The request body of `POST /api/classify` (server.js) and the two facts the
    handler derives from it before building anything: whether images were
    sent and whether any patient field holds text. */
module ServerInput {
  import opened Common
  import JsText

  /** `patientData` as a JSON object of strings; a `null` value behaves exactly
      like a missing key in every use the handler makes of it. */
  type PatientData = map<string, string>

  /** One normalized image as the client sends it. */
  datatype ImagePayload = ImagePayload(mimeType: string, base64: string)

  /** `req.body`; `None` is an absent (or `null`) property. */
  datatype RequestBody = RequestBody(patientData: Option<PatientData>, images: Option<seq<ImagePayload>>)

  /** `images && images.length > 0`. */
  predicate HasImages(images: Option<seq<ImagePayload>>) {
    images.Some? && |images.value| > 0
  }

  /** `hasTextData`: some value of `patientData || {}`, whatever its key, is
      non-blank after `toString().trim()`. */
  predicate HasTextData(pd: Option<PatientData>) {
    pd.Some? && exists k :: k in pd.value && JsText.NonBlank(pd.value[k])
  }

  /** The input check: no `patientData` object at all, and no image. A present
      object passes even when every value in it is blank. */
  predicate MissingInput(req: RequestBody) {
    req.patientData.None? && !HasImages(req.images)
  }

  /** Text data is only ever found in a present object, and a present object
      with no non-blank value gives none, so the check and `hasTextData` differ
      exactly on present-but-blank objects. */
  lemma {:induction false} TextDataAndInputCheck(req: RequestBody)
    ensures HasTextData(req.patientData) ==> !MissingInput(req)
    ensures !MissingInput(req) && !HasTextData(req.patientData) && !HasImages(req.images) <==>
      req.patientData.Some? && !HasImages(req.images)
        && forall k :: k in req.patientData.value ==>
             forall i :: 0 <= i < |req.patientData.value[k]| ==> JsText.IsJsSpace(req.patientData.value[k][i])
  {
    if req.patientData.Some? {
      var pd := req.patientData.value;
      forall k | k in pd {
        JsText.NonBlankIffVisibleChar(pd[k]);
      }
    }
  }
}
