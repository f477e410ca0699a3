/** The file-type filter of the upload `change` handler (script.js): every
    selected file whose lower-cased MIME type is not one of five image types is
    reported by name, and a single such file clears the whole selection. */
module Upload {
  import JsText

  datatype SelectedFile = SelectedFile(name: string, mimeType: string)

  /** The accepted MIME types, all lower case. */
  const SupportedTypes: seq<string> :=
    ["image/png", "image/jpeg", "image/jpg", "image/gif", "image/webp"]

  /** `supportedTypes.includes(type.toLowerCase())`. */
  predicate IsSupported(mimeType: string) {
    JsText.LowerAscii(mimeType) in SupportedTypes
  }

  /** Case-insensitive equality of two strings, character by character. */
  predicate EqualIgnoringCase(a: string, b: string) {
    |a| == |b| && forall i :: 0 <= i < |a| ==> JsText.LowerChar(a[i]) == JsText.LowerChar(b[i])
  }

  /** Reference reading of the filter: a type is accepted exactly when it equals
      one of the accepted types up to ASCII case. */
  lemma IsSupportedIffCaseInsensitiveMatch(mimeType: string)
    ensures IsSupported(mimeType)
      <==> exists t :: t in SupportedTypes && EqualIgnoringCase(mimeType, t)
  {
    var lower := JsText.LowerAscii(mimeType);
    forall t | t in SupportedTypes
      ensures EqualIgnoringCase(mimeType, t) <==> lower == t
    {
      assert forall i :: 0 <= i < |t| ==> JsText.LowerChar(t[i]) == t[i];
      if EqualIgnoringCase(mimeType, t) {
        assert forall i :: 0 <= i < |t| ==> lower[i] == t[i];
      }
    }
  }

  /** Names of the rejected files, in selection order. */
  function InvalidNames(files: seq<SelectedFile>): seq<string>
  {
    if |files| == 0 then []
    else
      var last := files[|files| - 1];
      InvalidNames(files[..|files| - 1]) + (if IsSupported(last.mimeType) then [] else [last.name])
  }

  /** Splitting the selection splits the report: names keep the order of their files. */
  lemma {:induction false} InvalidNamesAppend(a: seq<SelectedFile>, b: seq<SelectedFile>)
    ensures InvalidNames(a + b) == InvalidNames(a) + InvalidNames(b)
    decreases |b|
  {
    if |b| == 0 {
      assert a + b == a;
    } else {
      var b' := b[..|b| - 1];
      assert (a + b)[..|a + b| - 1] == a + b';
      InvalidNamesAppend(a, b');
    }
  }

  /** A name is reported exactly when some file carrying it has an unsupported type. */
  lemma {:induction false} InvalidNamesMembers(files: seq<SelectedFile>, n: string)
    ensures n in InvalidNames(files)
      <==> exists i :: 0 <= i < |files| && files[i].name == n && !IsSupported(files[i].mimeType)
    decreases |files|
  {
    if |files| > 0 {
      var init := files[..|files| - 1];
      InvalidNamesMembers(init, n);
      assert forall i :: 0 <= i < |init| ==> init[i] == files[i];
    }
  }

  /** The report is empty exactly when every selected file is supported. */
  lemma {:induction false} InvalidNamesEmpty(files: seq<SelectedFile>)
    ensures InvalidNames(files) == [] <==> forall i :: 0 <= i < |files| ==> IsSupported(files[i].mimeType)
    decreases |files|
  {
    if |files| > 0 {
      var init := files[..|files| - 1];
      InvalidNamesEmpty(init);
      assert forall i :: 0 <= i < |init| ==> init[i] == files[i];
    }
  }

  /** Outcome of the `change` handler: the selection stays, or it is cleared and
      the rejected names are shown. */
  datatype Selection = Kept(files: seq<SelectedFile>) | Cleared(rejected: seq<string>)

  /** The `change` handler's loop over the selected files. */
  method CheckSelection(files: seq<SelectedFile>) returns (outcome: Selection)
    ensures outcome.Cleared? <==> InvalidNames(files) != []
    ensures outcome.Kept? ==> outcome.files == files
    ensures outcome.Cleared? ==> outcome.rejected == InvalidNames(files)
  {
    var invalid: seq<string> := [];
    var i := 0;
    while i < |files|
      invariant 0 <= i <= |files|
      invariant invalid == InvalidNames(files[..i])
    {
      assert files[..i + 1][..i] == files[..i];
      if !IsSupported(files[i].mimeType) {
        invalid := invalid + [files[i].name];
      }
      i := i + 1;
    }
    assert files[..|files|] == files;
    if |invalid| > 0 {
      outcome := Cleared(invalid);
    } else {
      outcome := Kept(files);
    }
  }
}
