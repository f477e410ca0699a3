/** How the client and the server fit together: what the browser's pre-flight
    sends, and what the server's gate and prompt make of it. */
module Pipeline {
  import opened Common
  import JsText
  import Preflight
  import Resize
  import opened ServerInput
  import opened PromptBuilder
  import opened Outbound
  import Classify

  /** The client's guard and the server's `hasTextData` agree on every form the
      client sends: both ask whether some field is non-blank after `trim`. */
  lemma {:induction false} ClientServerAgree(form: Preflight.ClientForm)
    ensures HasTextData(Some(Preflight.ToPatientData(form))) <==> Preflight.HasTextInput(form)
  {
    var pd := Preflight.ToPatientData(form);
    var vs := Preflight.FieldValues(form);
    var keys := Preflight.FormKeys;
    if HasTextData(Some(pd)) {
      var k :| k in pd && JsText.NonBlank(pd[k]);
      var i :| 0 <= i < |keys| && keys[i] == k;
      assert vs[i] == pd[k];
    }
    if Preflight.HasTextInput(form) {
      var i :| 0 <= i < |vs| && JsText.NonBlank(vs[i]);
      assert pd[keys[i]] == vs[i];
    }
  }

  /** Everything the client submits passes the server's gate: the client
      always sends a `patientData` object. */
  lemma ClientSubmissionsPassGate(prose: FixedProse, form: Preflight.ClientForm, imageCount: nat,
                                  images: seq<ImagePayload>)
    requires Preflight.CheckSubmission(form, imageCount).Submit?
    ensures Classify.Gate(prose, RequestBody(Some(Preflight.CheckSubmission(form, imageCount).patientData), Some(images))).Forwarded?
  {
  }

  /** The two sides disagree on a form of blanks: the client refuses it when no
      image is attached, but the same body sent straight to the server passes
      the gate and yields a prompt whose purpose line names no input at all. */
  lemma BlankFormDivergence(prose: FixedProse, form: Preflight.ClientForm)
    requires forall i :: 0 <= i < 6 ==> !JsText.NonBlank(Preflight.FieldValues(form)[i])
    ensures Preflight.CheckSubmission(form, 0).Refused?
    ensures var req := RequestBody(Some(Preflight.ToPatientData(form)), Some([]));
      && Classify.Gate(prose, req).Forwarded?
      && !HasTextData(req.patientData)
      && PurposeSubject(HasTextData(req.patientData), HasImages(req.images)) == ""
  {
    ClientServerAgree(form);
  }

  /** The client's images are re-encoded as JPEG, so the server's content parts
      carry each of them back intact and in order. */
  lemma ClientImagesRoundTrip(prompt: string, images: seq<ImagePayload>)
    requires forall i :: 0 <= i < |images| ==> images[i].mimeType == Resize.OutputMimeType
    ensures Attachments(UserContentFor(prompt, Some(images))) == Some((prompt, images))
  {
    UserContentRoundTrip(prompt, Some(images));
  }
}
