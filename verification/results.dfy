/** `displayResults` (script.js) as a pure mapping from the classification
    object to six titled sections of inert data, plus `translate`. */
module Results {
  import opened Common
  import JsText

  /** A leaf of the classification object as the renderer can meet it: missing
      or `null`, a string, or an array of strings. */
  datatype Leaf = Null | Text(text: string) | Items(items: seq<string>)

  /** A section object; `Object.values` of it are the map's values, so keys the
      renderer does not know still count towards "has data". */
  type Section = map<string, Leaf>

  /** The six-section object; `None` is a missing (or `null`) section key. */
  datatype Classification = Classification(
    healthCondition: Option<Section>,
    bodyFunctionsAndStructures: Option<Section>,
    activities: Option<Section>,
    participation: Option<Section>,
    environmentalFactors: Option<Section>,
    personalFactors: Leaf)

  /** JavaScript truthiness of a leaf: arrays are truthy even when empty. */
  predicate Truthy(v: Leaf) {
    match v
    case Null => false
    case Text(s) => s != ""
    case Items(_) => true
  }

  /** `v && v.length > 0`. */
  predicate Filled(v: Leaf) {
    match v
    case Null => false
    case Text(s) => |s| > 0
    case Items(xs) => |xs| > 0
  }

  /** `v.forEach` throws a TypeError for a string. */
  predicate BreaksForEach(v: Leaf) {
    v.Text? && Filled(v)
  }

  /** `section.key`, with a missing key read as `undefined`. */
  function Get(sec: Section, key: string): Leaf {
    if key in sec then sec[key] else Null
  }

  /** Template-literal interpolation of a leaf: an array prints as its
      comma-joined elements. */
  function Display(v: Leaf): string {
    match v
    case Null => ""
    case Text(s) => s
    case Items(xs) => JsText.Join(xs, ",")
  }

  /** One known key of a section with its displayed label. */
  datatype Slot = Slot(key: string, caption: string)

  datatype Entry = Labeled(caption: string, value: string) | Listed(caption: string, items: seq<string>)

  datatype Body =
    | NoData(placeholder: string)
    | Entries(entries: seq<Entry>)
    | Bullets(items: seq<string>)

  datatype RenderedSection = RenderedSection(title: string, body: Body)

  /** Any language other than "ja" renders the English strings. */
  function Pick(lang: string, ja: string, en: string): string {
    if lang == "ja" then ja else en
  }

  function Placeholder(lang: string): string {
    Pick(lang, "データなし", "No data")
  }

  function Titles(lang: string): (ts: seq<string>)
    ensures |ts| == 6
  {
    [Pick(lang, "1. 健康状態", "1. Health Condition"),
     Pick(lang, "2. 心身機能・身体構造", "2. Body Functions & Structures"),
     Pick(lang, "3. 活動", "3. Activities"),
     Pick(lang, "4. 参加", "4. Participation"),
     Pick(lang, "5. 環境因子", "5. Environmental Factors"),
     Pick(lang, "6. 個人因子", "6. Personal Factors")]
  }

  function HealthSlots(lang: string): seq<Slot> {
    [Slot("currentMedicalHistory", Pick(lang, "現病歴", "Current Medical History")),
     Slot("pastMedicalHistory", Pick(lang, "既往歴", "Past Medical History")),
     Slot("overview", Pick(lang, "全体像", "Overview"))]
  }

  function BodySlots(lang: string): seq<Slot> {
    [Slot("functions", Pick(lang, "心身機能", "Body Functions")),
     Slot("structures", Pick(lang, "身体構造", "Body Structures")),
     Slot("impairments", Pick(lang, "機能・構造障害", "Impairments"))]
  }

  function ActivitySlots(lang: string): seq<Slot> {
    [Slot("capacity", Pick(lang, "能力", "Capacity")),
     Slot("performance", Pick(lang, "実行状況", "Performance")),
     Slot("limitations", Pick(lang, "活動制限", "Activity Limitations"))]
  }

  function ParticipationSlots(lang: string): seq<Slot> {
    [Slot("participation", Pick(lang, "参加", "Participation")),
     Slot("restrictions", Pick(lang, "参加制約", "Participation Restrictions"))]
  }

  function EnvironmentSlots(lang: string): seq<Slot> {
    [Slot("physical", Pick(lang, "物的環境", "Physical Environment")),
     Slot("human", Pick(lang, "人的環境", "Human Environment")),
     Slot("social", Pick(lang, "社会的環境", "Social Environment"))]
  }

  /** Section 1 has data when some value is truthy. */
  predicate HealthHasData(sec: Option<Section>) {
    sec.Some? && exists k :: k in sec.value && Truthy(sec.value[k])
  }

  /** Sections 2-5 have data when some value is a non-empty string or array. */
  predicate ListHasData(sec: Option<Section>) {
    sec.Some? && exists k :: k in sec.value && Filled(sec.value[k])
  }

  /** The labelled lines of section 1: one per truthy known key, in slot order. */
  function LabeledEntries(sec: Section, slots: seq<Slot>): (r: seq<Entry>)
    ensures |r| <= |slots|
  {
    if |slots| == 0 then []
    else
      var head := if Truthy(Get(sec, slots[0].key))
        then [Labeled(slots[0].caption, Display(Get(sec, slots[0].key)))] else [];
      head + LabeledEntries(sec, slots[1..])
  }

  /** `es` shows exactly the labelled lines of `slots` over `sec`: every line is
      a truthy known key's caption with its interpolated value, and every truthy
      known key has its line. */
  predicate ShowsLabeled(sec: Section, slots: seq<Slot>, es: seq<Entry>) {
    && (forall e :: e in es ==>
          exists i :: 0 <= i < |slots| && Truthy(Get(sec, slots[i].key))
            && e == Labeled(slots[i].caption, Display(Get(sec, slots[i].key))))
    && (forall i :: 0 <= i < |slots| && Truthy(Get(sec, slots[i].key)) ==>
          Labeled(slots[i].caption, Display(Get(sec, slots[i].key))) in es)
  }

  /** Section 1's lines are exactly one per truthy known key. */
  lemma {:induction false} LabeledEntriesContents(sec: Section, slots: seq<Slot>)
    ensures ShowsLabeled(sec, slots, LabeledEntries(sec, slots))
    decreases |slots|
  {
    if |slots| > 0 {
      var rest := slots[1..];
      LabeledEntriesContents(sec, rest);
      assert forall i :: 0 <= i < |rest| ==> rest[i] == slots[i + 1];
    }
  }

  /** The item lists of sections 2-5: one per filled known key, in slot order,
      each holding the array as given. `None` when `forEach` meets a string. */
  function ListedEntries(sec: Section, slots: seq<Slot>): (r: Option<seq<Entry>>)
    ensures r.None? <==> exists i :: 0 <= i < |slots| && BreaksForEach(Get(sec, slots[i].key))
    ensures r.Some? ==> |r.value| <= |slots|
  {
    if |slots| == 0 then Some([])
    else
      var v := Get(sec, slots[0].key);
      if BreaksForEach(v) then None
      else
        match ListedEntries(sec, slots[1..])
        case None => None
        case Some(rest) =>
          Some((if Filled(v) then [Listed(slots[0].caption, v.items)] else []) + rest)
  }

  /** Every listed entry is a filled known key with its array unchanged, and every
      filled known key is listed: a sub-list appears exactly when non-empty. */
  lemma {:induction false} ListedEntriesContents(sec: Section, slots: seq<Slot>)
    requires ListedEntries(sec, slots).Some?
    ensures forall e :: e in ListedEntries(sec, slots).value ==>
      exists i :: 0 <= i < |slots| && Get(sec, slots[i].key).Items? && Filled(Get(sec, slots[i].key))
        && e == Listed(slots[i].caption, Get(sec, slots[i].key).items)
    ensures forall i :: 0 <= i < |slots| && Filled(Get(sec, slots[i].key)) ==>
      Get(sec, slots[i].key).Items? && Listed(slots[i].caption, Get(sec, slots[i].key).items) in ListedEntries(sec, slots).value
    decreases |slots|
  {
    if |slots| > 0 {
      var rest := slots[1..];
      ListedEntriesContents(sec, rest);
      assert forall i :: 0 <= i < |rest| ==> rest[i] == slots[i + 1];
    }
  }

  /** Section 1: the placeholder when no value is truthy, and otherwise one
      labelled line per truthy known key. */
  function HealthBody(lang: string, sec: Option<Section>): (b: Body)
    ensures b.NoData? <==> !HealthHasData(sec)
    ensures b.NoData? ==> b.placeholder == Placeholder(lang)
    ensures !b.NoData? ==> b.Entries? && ShowsLabeled(sec.value, HealthSlots(lang), b.entries)
    ensures !b.NoData? ==> b == Entries(LabeledEntries(sec.value, HealthSlots(lang)))
  {
    if HealthHasData(sec) then
      LabeledEntriesContents(sec.value, HealthSlots(lang));
      Entries(LabeledEntries(sec.value, HealthSlots(lang)))
    else NoData(Placeholder(lang))
  }

  function ListBody(lang: string, sec: Option<Section>, slots: seq<Slot>): (b: Option<Body>)
    ensures b == Some(NoData(Placeholder(lang))) <==> !ListHasData(sec)
    ensures b.None? <==> ListSectionBreaks(sec, slots)
    ensures b.Some? && ListHasData(sec) ==> b.value == Entries(ListedEntries(sec.value, slots).value)
  {
    if ListHasData(sec) then
      match ListedEntries(sec.value, slots)
      case None => None
      case Some(es) => Some(Entries(es))
    else Some(NoData(Placeholder(lang)))
  }

  function PersonalBody(lang: string, pf: Leaf): (b: Option<Body>)
    ensures b.None? <==> BreaksForEach(pf)
    ensures b == Some(NoData(Placeholder(lang))) <==> !Filled(pf)
    ensures pf.Items? && |pf.items| > 0 ==> b == Some(Bullets(pf.items))
  {
    if Filled(pf) then
      if pf.Items? then Some(Bullets(pf.items)) else None
    else Some(NoData(Placeholder(lang)))
  }

  /** A list section whose rendering would throw. */
  predicate ListSectionBreaks(sec: Option<Section>, slots: seq<Slot>) {
    ListHasData(sec) && exists i :: 0 <= i < |slots| && BreaksForEach(Get(sec.value, slots[i].key))
  }

  /** `displayResults`: six sections in fixed order, or `None` when the
      rendering throws. Rendering fails exactly when a populated list section
      (or the personal factors) holds a non-empty string where an array is
      expected; otherwise the six sections carry the fixed titles, and section
      k is computed from the k-th field of the classification alone. */
  function Render(lang: string, c: Classification): (r: Option<seq<RenderedSection>>)
    ensures r.None? <==>
      || ListSectionBreaks(c.bodyFunctionsAndStructures, BodySlots(lang))
      || ListSectionBreaks(c.activities, ActivitySlots(lang))
      || ListSectionBreaks(c.participation, ParticipationSlots(lang))
      || ListSectionBreaks(c.environmentalFactors, EnvironmentSlots(lang))
      || BreaksForEach(c.personalFactors)
    ensures r.Some? ==> |r.value| == 6 && forall i :: 0 <= i < 6 ==> r.value[i].title == Titles(lang)[i]
    ensures r.Some? ==>
      && r.value[0].body == HealthBody(lang, c.healthCondition)
      && Some(r.value[1].body) == ListBody(lang, c.bodyFunctionsAndStructures, BodySlots(lang))
      && Some(r.value[2].body) == ListBody(lang, c.activities, ActivitySlots(lang))
      && Some(r.value[3].body) == ListBody(lang, c.participation, ParticipationSlots(lang))
      && Some(r.value[4].body) == ListBody(lang, c.environmentalFactors, EnvironmentSlots(lang))
      && Some(r.value[5].body) == PersonalBody(lang, c.personalFactors)
  {
    var b2 := ListBody(lang, c.bodyFunctionsAndStructures, BodySlots(lang));
    var b3 := ListBody(lang, c.activities, ActivitySlots(lang));
    var b4 := ListBody(lang, c.participation, ParticipationSlots(lang));
    var b5 := ListBody(lang, c.environmentalFactors, EnvironmentSlots(lang));
    var b6 := PersonalBody(lang, c.personalFactors);
    if b2.None? || b3.None? || b4.None? || b5.None? || b6.None? then None
    else
      var ts := Titles(lang);
      Some([RenderedSection(ts[0], HealthBody(lang, c.healthCondition)),
            RenderedSection(ts[1], b2.value),
            RenderedSection(ts[2], b3.value),
            RenderedSection(ts[3], b4.value),
            RenderedSection(ts[4], b5.value),
            RenderedSection(ts[5], b6.value)])
  }

  /** A missing section key renders exactly like a present section whose values
      are all empty, one section at a time, whatever the other sections hold. */
  lemma MissingSameAsEmpty(lang: string, c: Classification, e: Section, pf: Leaf)
    ensures !HealthHasData(Some(e)) ==>
      Render(lang, c.(healthCondition := None)) == Render(lang, c.(healthCondition := Some(e)))
    ensures !ListHasData(Some(e)) ==>
      Render(lang, c.(bodyFunctionsAndStructures := None)) == Render(lang, c.(bodyFunctionsAndStructures := Some(e)))
    ensures !ListHasData(Some(e)) ==>
      Render(lang, c.(activities := None)) == Render(lang, c.(activities := Some(e)))
    ensures !ListHasData(Some(e)) ==>
      Render(lang, c.(participation := None)) == Render(lang, c.(participation := Some(e)))
    ensures !ListHasData(Some(e)) ==>
      Render(lang, c.(environmentalFactors := None)) == Render(lang, c.(environmentalFactors := Some(e)))
    ensures !Filled(pf) ==>
      Render(lang, c.(personalFactors := Null)) == Render(lang, c.(personalFactors := pf))
  {
  }

  /** Section 1 holding a single truthy overview shows exactly that one line. */
  lemma OverviewLine(lang: string, v: Leaf)
    requires Truthy(v)
    ensures HealthBody(lang, Some(map["overview" := v])) == Entries([Labeled(HealthSlots(lang)[2].caption, Display(v))])
  {
    var sec := map["overview" := v];
    var slots := HealthSlots(lang);
    assert HealthHasData(Some(sec)) by { assert Truthy(sec["overview"]); }
    var line := Labeled(slots[2].caption, Display(v));
    assert LabeledEntries(sec, slots[3..]) == [];
    assert LabeledEntries(sec, slots[2..]) == [line] by { assert slots[2..][1..] == slots[3..]; }
    assert LabeledEntries(sec, slots[1..]) == [line] by { assert slots[1..][1..] == slots[2..]; }
  }

  /** A reply holding only an overview renders section 1 with that one line and
      the placeholder in sections 2 to 6. */
  lemma OverviewOnly(lang: string, overview: string)
    requires overview != ""
    ensures var c := Classification(Some(map["overview" := Text(overview)]), None, None, None, None, Null);
      && Render(lang, c).Some?
      && Render(lang, c).value[0].body == Entries([Labeled(HealthSlots(lang)[2].caption, overview)])
      && forall i :: 1 <= i < 6 ==> Render(lang, c).value[i].body == NoData(Placeholder(lang))
  {
    OverviewLine(lang, Text(overview));
  }

  /** Section 1 emptiness is truthiness, sections 2-5 use `v && v.length > 0`: an
      empty array counts as data in section 1 (and prints as an empty value) but
      not in section 2. */
  lemma EmptyArrayDivergence(lang: string)
    ensures HealthBody(lang, Some(map["overview" := Items([])]))
      == Entries([Labeled(HealthSlots(lang)[2].caption, "")])
    ensures ListBody(lang, Some(map["functions" := Items([])]), BodySlots(lang))
      == Some(NoData(Placeholder(lang)))
  {
    OverviewLine(lang, Items([]));
    assert Display(Items([])) == "";
  }

  /** Listing distributes over the slots: the entries of a longer slot list are the
      entries of its parts in the same order, so nothing is re-sorted. */
  lemma {:induction false} ListedEntriesAppend(sec: Section, a: seq<Slot>, b: seq<Slot>)
    requires ListedEntries(sec, a).Some? && ListedEntries(sec, b).Some?
    ensures ListedEntries(sec, a + b) == Some(ListedEntries(sec, a).value + ListedEntries(sec, b).value)
    decreases |a|
  {
    if |a| == 0 {
      assert a + b == b;
      assert ListedEntries(sec, a).value == [];
      assert ListedEntries(sec, a + b) == ListedEntries(sec, b);
      assert ListedEntries(sec, a).value + ListedEntries(sec, b).value == ListedEntries(sec, b).value;
    } else {
      assert (a + b)[0] == a[0];
      assert (a + b)[1..] == a[1..] + b;
      var v := Get(sec, a[0].key);
      assert !BreaksForEach(v);
      assert ListedEntries(sec, a[1..]).Some?;
      ListedEntriesAppend(sec, a[1..], b);
      var head := if Filled(v) then [Listed(a[0].caption, v.items)] else [];
      assert ListedEntries(sec, a).value == head + ListedEntries(sec, a[1..]).value;
      assert ListedEntries(sec, a + b).value == head + ListedEntries(sec, a[1..] + b).value;
      assert head + (ListedEntries(sec, a[1..]).value + ListedEntries(sec, b).value)
        == (head + ListedEntries(sec, a[1..]).value) + ListedEntries(sec, b).value;
    }
  }

  /** Labelling distributes over the slots: the lines of a longer slot list are
      the lines of its parts in the same order, so with one slot at a time each
      truthy key gives exactly one line, in slot order. */
  lemma {:induction false} LabeledEntriesAppend(sec: Section, a: seq<Slot>, b: seq<Slot>)
    ensures LabeledEntries(sec, a + b) == LabeledEntries(sec, a) + LabeledEntries(sec, b)
    decreases |a|
  {
    if |a| == 0 {
      assert a + b == b;
    } else {
      assert (a + b)[0] == a[0];
      assert (a + b)[1..] == a[1..] + b;
      LabeledEntriesAppend(sec, a[1..], b);
      var v := Get(sec, a[0].key);
      var head := if Truthy(v) then [Labeled(a[0].caption, Display(v))] else [];
      assert LabeledEntries(sec, a + b) == head + LabeledEntries(sec, a[1..] + b);
      assert head + (LabeledEntries(sec, a[1..]) + LabeledEntries(sec, b))
        == (head + LabeledEntries(sec, a[1..])) + LabeledEntries(sec, b);
    }
  }

  /** `translate(key)`: the current language's entry, or the key itself when the
      entry is missing or empty. */
  function Translate(table: map<string, string>, key: string): (r: string)
    ensures key in table && table[key] != "" ==> r == table[key]
    ensures !(key in table && table[key] != "") ==> r == key
    ensures r == "" ==> key == ""
  {
    if key in table && table[key] != "" then table[key] else key
  }
}
