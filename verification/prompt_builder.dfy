/** `buildPrompt` (server.js): a fixed template whose purpose line, patient
    block and image clause depend on the request. The wording of the fixed
    prose blocks is a parameter; the conditional structure is modelled. */
module PromptBuilder {
  import opened Common
  import opened ServerInput

  /** The request-independent prose: the system message and the role,
      goal-note and instruction blocks of the user prompt. */
  datatype FixedProse = FixedProse(system: string, role: string, goalNote: string, instructions: string)

  const TextPhrase: string := "以下の患者情報"
  const Joiner: string := "と"
  const ImagePhrase: string := "アップロードされた画像"
  const PurposeTail: string := "を分析し、ICFの6つの構成要素に基づいたサマリーを生成してください。"
  const BlockHeader: string := "入力情報:"
  const ImageInstruction: string := "画像から患者の医療記録、検査結果、症状などの情報を読み取り、サマリー生成に活用してください。"

  /** `t` occurs in `s` starting at index `i`. */
  predicate OccursAt(s: string, t: string, i: int) {
    0 <= i && i + |t| <= |s| && s[i..i + |t|] == t
  }

  /** `t` occurs in `s` as a contiguous substring. */
  predicate Contains(s: string, t: string) {
    exists i :: 0 <= i <= |s| && OccursAt(s, t, i)
  }

  lemma AbsentHeadNotContained(s: string, t: string)
    requires |t| > 0 && t[0] !in s
    ensures !Contains(s, t)
  {
    forall i | 0 <= i && i + |t| <= |s| ensures !OccursAt(s, t, i) {
      assert s[i..i + |t|][0] == s[i];
    }
  }

  /** The subject of the purpose line. */
  function PurposeSubject(hasText: bool, hasImages: bool): string {
    (if hasText then TextPhrase else "")
    + (if hasText && hasImages then Joiner else "")
    + (if hasImages then ImagePhrase else "")
  }

  /** The purpose line names the patient information exactly when there is text
      data, the uploaded images exactly when there are images, and joins the two
      with と exactly when both are present. */
  lemma PurposeSubjectPhrases(hasText: bool, hasImages: bool)
    ensures Contains(PurposeSubject(hasText, hasImages), TextPhrase) <==> hasText
    ensures Contains(PurposeSubject(hasText, hasImages), Joiner) <==> hasText && hasImages
    ensures Contains(PurposeSubject(hasText, hasImages), ImagePhrase) <==> hasImages
  {
    var s := PurposeSubject(hasText, hasImages);
    if hasText && hasImages {
      assert s == TextPhrase + Joiner + ImagePhrase;
      assert OccursAt(s, TextPhrase, 0);
      assert OccursAt(s, Joiner, 7);
      assert OccursAt(s, ImagePhrase, 8);
    } else if hasText {
      assert s == TextPhrase;
      assert OccursAt(s, TextPhrase, 0);
      AbsentHeadNotContained(s, Joiner);
      AbsentHeadNotContained(s, ImagePhrase);
    } else if hasImages {
      assert s == ImagePhrase;
      assert OccursAt(s, ImagePhrase, 0);
      AbsentHeadNotContained(s, TextPhrase);
      AbsentHeadNotContained(s, Joiner);
    } else {
      assert s == "";
    }
  }

  /** The patient fields the template reads, in its order. */
  datatype PatientField = PatientId | Age | Gender | Diagnosis | Symptoms | EnvironmentalFactors | PersonalFactors

  const FieldOrder: seq<PatientField> :=
    [PatientId, Age, Gender, Diagnosis, Symptoms, EnvironmentalFactors, PersonalFactors]

  function Rank(f: PatientField): nat {
    match f
    case PatientId => 0
    case Age => 1
    case Gender => 2
    case Diagnosis => 3
    case Symptoms => 4
    case EnvironmentalFactors => 5
    case PersonalFactors => 6
  }

  function Key(f: PatientField): string {
    match f
    case PatientId => "patientId"
    case Age => "age"
    case Gender => "gender"
    case Diagnosis => "diagnosis"
    case Symptoms => "symptoms"
    case EnvironmentalFactors => "environmentalFactors"
    case PersonalFactors => "personalFactors"
  }

  function Caption(f: PatientField): string {
    match f
    case PatientId => "患者ID"
    case Age => "年齢"
    case Gender => "性別"
    case Diagnosis => "診断名"
    case Symptoms => "症状・状態"
    case EnvironmentalFactors => "環境因子"
    case PersonalFactors => "個人因子"
  }

  /** `patientData.key`, a missing key read as the falsy empty value. */
  function Lookup(pd: PatientData, key: string): string {
    if key in pd then pd[key] else ""
  }

  /** The gender label: only the two exact codes get their own label; every
      other value, in any case or spelling, is その他. */
  function GenderLabel(v: string): (g: string)
    ensures g == "男性" <==> v == "male"
    ensures g == "女性" <==> v == "female"
    ensures g == "その他" <==> v != "male" && v != "female"
  {
    if v == "male" then "男性" else if v == "female" then "女性" else "その他"
  }

  /** The text after a field's caption. */
  function Shown(f: PatientField, v: string): string {
    match f
    case Age => v + "歳"
    case Gender => GenderLabel(v)
    case _ => v
  }

  datatype PatientLine = PatientLine(field: PatientField, text: string)

  /** One line per truthy field among `fields`, in their order. */
  function LinesFor(pd: PatientData, fields: seq<PatientField>): seq<PatientLine> {
    if |fields| == 0 then []
    else
      var v := Lookup(pd, Key(fields[0]));
      (if v != "" then [PatientLine(fields[0], Shown(fields[0], v))] else []) + LinesFor(pd, fields[1..])
  }

  function PatientLines(pd: PatientData): seq<PatientLine> {
    LinesFor(pd, FieldOrder)
  }

  predicate StrictlyOrdered(fields: seq<PatientField>) {
    forall j, k :: 0 <= j < k < |fields| ==> Rank(fields[j]) < Rank(fields[k])
  }

  /** Every line belongs to one of `fields`, whose value is truthy, and shows it. */
  predicate LinesSound(pd: PatientData, fields: seq<PatientField>, ls: seq<PatientLine>) {
    forall j :: 0 <= j < |ls| ==>
      && ls[j].field in fields
      && Lookup(pd, Key(ls[j].field)) != ""
      && ls[j].text == Shown(ls[j].field, Lookup(pd, Key(ls[j].field)))
  }

  /** Each of `fields` whose value is truthy has a line. */
  predicate LinesComplete(pd: PatientData, fields: seq<PatientField>, ls: seq<PatientLine>) {
    forall f :: f in fields && Lookup(pd, Key(f)) != "" ==> exists j :: 0 <= j < |ls| && ls[j].field == f
  }

  /** Lines follow the template's field order, with no field twice. */
  predicate LinesOrdered(ls: seq<PatientLine>) {
    forall j, k :: 0 <= j < k < |ls| ==> Rank(ls[j].field) < Rank(ls[k].field)
  }

  lemma StrictlyOrderedTail(fields: seq<PatientField>)
    requires |fields| > 0 && StrictlyOrdered(fields)
    ensures StrictlyOrdered(fields[1..])
    ensures forall f :: f in fields[1..] ==> Rank(fields[0]) < Rank(f)
  {
    var rest := fields[1..];
    forall j, k | 0 <= j < k < |rest| ensures Rank(rest[j]) < Rank(rest[k]) {
      assert rest[j] == fields[j + 1] && rest[k] == fields[k + 1];
    }
    forall f | f in rest ensures Rank(fields[0]) < Rank(f) {
      var m :| 0 <= m < |rest| && rest[m] == f;
      assert rest[m] == fields[m + 1];
    }
  }

  lemma {:induction false} LinesForSound(pd: PatientData, fields: seq<PatientField>)
    ensures LinesSound(pd, fields, LinesFor(pd, fields))
    decreases |fields|
  {
    if |fields| > 0 {
      var rest := fields[1..];
      LinesForSound(pd, rest);
      var tail := LinesFor(pd, rest);
      var v := Lookup(pd, Key(fields[0]));
      var head := if v != "" then [PatientLine(fields[0], Shown(fields[0], v))] else [];
      var ls := LinesFor(pd, fields);
      assert ls == head + tail;
      forall j | 0 <= j < |ls|
        ensures ls[j].field in fields && Lookup(pd, Key(ls[j].field)) != ""
          && ls[j].text == Shown(ls[j].field, Lookup(pd, Key(ls[j].field)))
      {
        if j >= |head| {
          assert ls[j] == tail[j - |head|];
          assert tail[j - |head|].field in rest;
        }
      }
    }
  }

  lemma {:induction false} LinesForComplete(pd: PatientData, fields: seq<PatientField>)
    ensures LinesComplete(pd, fields, LinesFor(pd, fields))
    decreases |fields|
  {
    if |fields| > 0 {
      var rest := fields[1..];
      LinesForComplete(pd, rest);
      var tail := LinesFor(pd, rest);
      var v := Lookup(pd, Key(fields[0]));
      var head := if v != "" then [PatientLine(fields[0], Shown(fields[0], v))] else [];
      var ls := LinesFor(pd, fields);
      assert ls == head + tail;
      forall f | f in fields && Lookup(pd, Key(f)) != ""
        ensures exists j :: 0 <= j < |ls| && ls[j].field == f
      {
        if f == fields[0] {
          assert ls[0].field == f;
        } else {
          assert f in rest;
          var j :| 0 <= j < |tail| && tail[j].field == f;
          assert ls[|head| + j] == tail[j];
        }
      }
    }
  }

  lemma {:induction false} LinesForOrdered(pd: PatientData, fields: seq<PatientField>)
    requires StrictlyOrdered(fields)
    ensures LinesOrdered(LinesFor(pd, fields))
    decreases |fields|
  {
    if |fields| > 0 {
      var rest := fields[1..];
      StrictlyOrderedTail(fields);
      LinesForOrdered(pd, rest);
      LinesForSound(pd, rest);
      var tail := LinesFor(pd, rest);
      var v := Lookup(pd, Key(fields[0]));
      var ls := LinesFor(pd, fields);
      if v != "" {
        assert ls == [PatientLine(fields[0], Shown(fields[0], v))] + tail;
        forall j, k | 0 <= j < k < |ls| ensures Rank(ls[j].field) < Rank(ls[k].field) {
          assert ls[k] == tail[k - 1];
          assert tail[k - 1].field in rest;
          if j > 0 {
            assert ls[j] == tail[j - 1];
          }
        }
      } else {
        assert ls == tail;
      }
    }
  }

  /** Patient lines: one per field with a truthy value (white space alone is
      truthy), in the fixed order patientId, age, gender, diagnosis, symptoms,
      environmentalFactors, personalFactors, each showing its value. */
  lemma PatientLinesSpec(pd: PatientData)
    ensures forall j :: 0 <= j < |PatientLines(pd)| ==>
      Lookup(pd, Key(PatientLines(pd)[j].field)) != ""
      && PatientLines(pd)[j].text == Shown(PatientLines(pd)[j].field, Lookup(pd, Key(PatientLines(pd)[j].field)))
    ensures forall f: PatientField ::
      (exists j :: 0 <= j < |PatientLines(pd)| && PatientLines(pd)[j].field == f) <==> Lookup(pd, Key(f)) != ""
    ensures LinesOrdered(PatientLines(pd))
  {
    assert StrictlyOrdered(FieldOrder);
    LinesForSound(pd, FieldOrder);
    LinesForComplete(pd, FieldOrder);
    LinesForOrdered(pd, FieldOrder);
    var ls := PatientLines(pd);
    assert ls == LinesFor(pd, FieldOrder);
    forall f: PatientField
      ensures (exists j :: 0 <= j < |ls| && ls[j].field == f) <==> Lookup(pd, Key(f)) != ""
    {
      assert FieldOrder[Rank(f)] == f;
    }
  }

  function RenderLine(l: PatientLine): string {
    "\n- " + Caption(l.field) + ": " + l.text
  }

  function RenderLines(ls: seq<PatientLine>): string {
    if |ls| == 0 then "" else RenderLine(ls[0]) + RenderLines(ls[1..])
  }

  /** Rendering distributes over the lines: the block text is the lines'
      `"\n- " + caption + ": " + text` pieces, one after another in order. */
  lemma {:induction false} RenderLinesAppend(a: seq<PatientLine>, b: seq<PatientLine>)
    ensures RenderLines(a + b) == RenderLines(a) + RenderLines(b)
    decreases |a|
  {
    if |a| == 0 {
      assert a + b == b;
    } else {
      assert (a + b)[0] == a[0];
      assert (a + b)[1..] == a[1..] + b;
      RenderLinesAppend(a[1..], b);
    }
  }

  /** The patient block is present exactly when there is text data and a
      `patientData` object; it then starts with its header. */
  function PatientBlock(hasText: bool, pd: Option<PatientData>): (b: string)
    ensures b != "" <==> hasText && pd.Some?
    ensures b != "" ==> |b| >= |BlockHeader| && b[..|BlockHeader|] == BlockHeader
    ensures b != "" ==> pd.Some? && b == BlockHeader + RenderLines(PatientLines(pd.value))
  {
    if hasText && pd.Some? then BlockHeader + RenderLines(PatientLines(pd.value)) else ""
  }

  function ImageClause(hasImages: bool): (c: string)
    ensures c != "" <==> hasImages
  {
    if hasImages then ImageInstruction else ""
  }

  /** The whole prompt, laid out as the template literal lays it out. */
  function BuildPrompt(prose: FixedProse, hasText: bool, pd: Option<PatientData>, images: Option<seq<ImagePayload>>): string {
    PromptHead(prose)
    + PurposeSubject(hasText, HasImages(images)) + PurposeTail + "\n" + prose.goalNote + "\n\n"
    + PatientBlock(hasText, pd) + "\n\n"
    + ImageClause(HasImages(images)) + "\n\n"
    + prose.instructions
  }

  /** The images enter the prompt only through whether any were sent: their
      MIME types and data never reach the prompt text. */
  lemma PromptSeesOnlyImagePresence(prose: FixedProse, hasText: bool, pd: Option<PatientData>,
                                    i1: Option<seq<ImagePayload>>, i2: Option<seq<ImagePayload>>)
    requires HasImages(i1) == HasImages(i2)
    ensures BuildPrompt(prose, hasText, pd, i1) == BuildPrompt(prose, hasText, pd, i2)
  {
  }

  /** Without text data the patient values never reach the prompt, whatever
      `patientData` holds. */
  lemma PromptIgnoresDataWithoutText(prose: FixedProse, pd1: Option<PatientData>, pd2: Option<PatientData>,
                                     images: Option<seq<ImagePayload>>)
    ensures BuildPrompt(prose, false, pd1, images) == BuildPrompt(prose, false, pd2, images)
  {
  }

  /** The prompt text from the role heading up to the purpose sentence. */
  function PromptHead(prose: FixedProse): string {
    "\n# あなたの役割\n" + prose.role + "\n\n# 目的\n"
  }

  /** The prompt opens with the role heading and the role block. */
  lemma PromptOpensWithRole(prose: FixedProse, hasText: bool, pd: Option<PatientData>,
                            images: Option<seq<ImagePayload>>)
    ensures OccursAt(BuildPrompt(prose, hasText, pd, images), "\n# あなたの役割\n" + prose.role, 0)
  {
  }

  /** The prompt closes with the instruction block. */
  lemma PromptClosesWithInstructions(prose: FixedProse, hasText: bool, pd: Option<PatientData>,
                                     images: Option<seq<ImagePayload>>)
    ensures var p := BuildPrompt(prose, hasText, pd, images);
      OccursAt(p, prose.instructions, |p| - |prose.instructions|)
  {
  }

  /** An occurrence survives appending text after it. */
  lemma OccursBeforeAppend(s: string, t: string, i: int, y: string)
    requires OccursAt(s, t, i)
    ensures OccursAt(s + y, t, i)
  {
  }

  /** A piece appended at the end occurs at the old length. */
  lemma OccursAtEnd(x: string, t: string)
    ensures OccursAt(x + t, t, |x|)
  {
  }

  /** An occurrence in the prompt text built up to the patient block survives
      the rest of the template. */
  lemma OccursBeforeBlockEnd(prose: FixedProse, hasText: bool, pd: Option<PatientData>,
                             images: Option<seq<ImagePayload>>, t: string, i: int)
    requires OccursAt(PromptHead(prose) + PurposeSubject(hasText, HasImages(images)) + PurposeTail
                      + "\n" + prose.goalNote + "\n\n" + PatientBlock(hasText, pd), t, i)
    ensures OccursAt(BuildPrompt(prose, hasText, pd, images), t, i)
  {
  }

  /** The purpose sentence, with its subject, appears right after the heading. */
  lemma PromptCarriesPurpose(prose: FixedProse, hasText: bool, pd: Option<PatientData>,
                             images: Option<seq<ImagePayload>>)
    ensures Contains(BuildPrompt(prose, hasText, pd, images), PurposeSubject(hasText, HasImages(images)) + PurposeTail)
  {
    var head := PromptHead(prose);
    var subject := PurposeSubject(hasText, HasImages(images));
    var purpose := subject + PurposeTail;
    var i := |head|;
    assert head + subject + PurposeTail == head + purpose;
    OccursAtEnd(head, purpose);
    var s0 := head + subject + PurposeTail;
    OccursBeforeAppend(s0, purpose, i, "\n");
    OccursBeforeAppend(s0 + "\n", purpose, i, prose.goalNote);
    OccursBeforeAppend(s0 + "\n" + prose.goalNote, purpose, i, "\n\n");
    OccursBeforeAppend(s0 + "\n" + prose.goalNote + "\n\n", purpose, i, PatientBlock(hasText, pd));
    OccursBeforeBlockEnd(prose, hasText, pd, images, purpose, i);
  }

  /** The patient block appears as one contiguous piece of the prompt. */
  lemma PromptCarriesPatientBlock(prose: FixedProse, hasText: bool, pd: Option<PatientData>,
                                  images: Option<seq<ImagePayload>>)
    ensures Contains(BuildPrompt(prose, hasText, pd, images), PatientBlock(hasText, pd))
  {
    var before := PromptHead(prose) + PurposeSubject(hasText, HasImages(images)) + PurposeTail
      + "\n" + prose.goalNote + "\n\n";
    OccursAtEnd(before, PatientBlock(hasText, pd));
    OccursBeforeBlockEnd(prose, hasText, pd, images, PatientBlock(hasText, pd), |before|);
  }

  /** The image clause appears as one contiguous piece of the prompt. */
  lemma PromptCarriesImageClause(prose: FixedProse, hasText: bool, pd: Option<PatientData>,
                                 images: Option<seq<ImagePayload>>)
    ensures Contains(BuildPrompt(prose, hasText, pd, images), ImageClause(HasImages(images)))
  {
    var before := PromptHead(prose) + PurposeSubject(hasText, HasImages(images)) + PurposeTail
      + "\n" + prose.goalNote + "\n\n" + PatientBlock(hasText, pd) + "\n\n";
    var clause := ImageClause(HasImages(images));
    OccursAtEnd(before, clause);
    OccursBeforeAppend(before + clause, clause, |before|, "\n\n");
    OccursBeforeAppend(before + clause + "\n\n", clause, |before|, prose.instructions);
  }

  /** A field of white space alone still gets a line: the template tests
      truthiness, not `trim`, so once some other value makes `hasTextData` true a
      blank age prints as its spaces followed by 歳. */
  lemma BlankFieldStillListed(pd: PatientData)
    requires "age" in pd && pd["age"] != "" && !JsText.NonBlank(pd["age"])
    ensures exists j :: 0 <= j < |PatientLines(pd)| && PatientLines(pd)[j] == PatientLine(Age, pd["age"] + "歳")
  {
    var ls := PatientLines(pd);
    assert Lookup(pd, Key(Age)) == pd["age"];
    PatientLinesSpec(pd);
    var j :| 0 <= j < |ls| && ls[j].field == Age;
    assert ls[j].text == Shown(Age, pd["age"]);
    assert ls[j] == PatientLine(Age, pd["age"] + "歳");
  }

  /** When no key the template knows is present, text under other keys still
      makes `hasTextData` true, and the block is its header alone. */
  lemma UnknownKeysGiveBareHeader(pd: PatientData)
    requires HasTextData(Some(pd))
    requires forall f: PatientField :: Key(f) !in pd
    ensures PatientBlock(HasTextData(Some(pd)), Some(pd)) == BlockHeader
  {
    PatientLinesSpec(pd);
  }
}
