/** The persisted form of a snapshot: what is written, what a restore accepts, and
    the round trip between them. */
module SnapshotPayload {
  import opened Util
  import opened Ordering
  import opened SnapshotScript

  const MAX_LABEL_BYTES := 256
  const MAX_PERSISTED := 20000

  datatype Json =
    | Null
    | Bool(flag: bool)
    | Num(number: Value)
    | Str(text: string)
    | Arr(items: seq<Json>)
    | Obj(fields: map<string, Json>)

  datatype Sample = Sample(labels: Labels, value: Value)

  function Utf8Bytes(text: string): nat {
    if text == [] then 0
    else
      var c := text[|text| - 1] as int;
      Utf8Bytes(text[..|text| - 1]) + (if c < 0x80 then 1 else if c < 0x800 then 2 else if c < 0x10000 then 3 else 4)
  }

  /** A text has at least one and at most four bytes a character, one if it is ASCII. */
  lemma {:induction false} BytesPerCharacter(text: string)
    ensures |text| <= Utf8Bytes(text) <= 4 * |text|
    ensures (forall i | 0 <= i < |text| :: text[i] as int < 0x80) ==> Utf8Bytes(text) == |text|
  {
    if text != [] {
      BytesPerCharacter(text[..|text| - 1]);
    }
  }

  /** The positions of characters at or above a code point. */
  function AtLeast(text: string, bound: int): set<nat> {
    set i: nat | i < |text| && text[i] as int >= bound
  }

  lemma AtLeastStep(text: string, bound: int)
    requires text != []
    ensures |AtLeast(text, bound)|
            == |AtLeast(text[..|text| - 1], bound)| + (if text[|text| - 1] as int >= bound then 1 else 0)
  {
    var n := |text| - 1;
    assert AtLeast(text, bound) == AtLeast(text[..n], bound) + (if text[n] as int >= bound then {n} else {});
  }

  /** One byte for each character, and one more from each of three code points on (RFC 3629
      section 3). */
  lemma {:induction false} BytesAreCounted(text: string)
    ensures Utf8Bytes(text) == |text| + |AtLeast(text, 0x80)| + |AtLeast(text, 0x800)| + |AtLeast(text, 0x10000)|
  {
    if text == [] {
      assert AtLeast(text, 0x80) == AtLeast(text, 0x800) == AtLeast(text, 0x10000) == {};
    } else {
      BytesAreCounted(text[..|text| - 1]);
      AtLeastStep(text, 0x80);
      AtLeastStep(text, 0x800);
      AtLeastStep(text, 0x10000);
    }
  }

  predicate LabelsFit(labels: Labels) {
    forall i | 0 <= i < |labels.values| :: Utf8Bytes(labels.values[i]) <= MAX_LABEL_BYTES
  }

  // ---- writing ------------------------------------------------------------------

  function Strings(texts: seq<string>): Json {
    Arr(seq(|texts|, i requires 0 <= i < |texts| => Str(texts[i])))
  }

  function SampleJson(sample: Sample): Json {
    Obj(map["labels" := Strings(sample.labels.values), "value" := Num(sample.value)])
  }

  function ItemJson(shape: Shape, samples: seq<Sample>): Json {
    Obj(map["labelnames" := Strings(shape.labelnames),
            "samples" := Arr(seq(|samples|, i requires 0 <= i < |samples| => SampleJson(samples[i])))])
  }

  function Metrics(shapes: seq<Shape>, listings: seq<seq<Sample>>): map<string, Json>
    requires |listings| == |shapes|
  {
    if shapes == [] then map[]
    else
      var n := |shapes| - 1;
      Metrics(shapes[..n], listings[..n])[shapes[n].name := ItemJson(shapes[n], listings[n])]
  }

  function Payload(shapes: seq<Shape>, listings: seq<seq<Sample>>): Json
    requires |listings| == |shapes|
  {
    Obj(map["version" := Num(Finite(1.0)), "metrics" := Obj(Metrics(shapes, listings))])
  }

  /** The samples of a family in some order, each once. */
  ghost predicate Lists(samples: seq<Sample>, contents: Contents) {
    && |samples| == |contents|
    && (forall i | 0 <= i < |samples| ::
          samples[i].labels in contents && contents[samples[i].labels] == samples[i].value)
    && forall i, j | 0 <= i < j < |samples| :: samples[i].labels != samples[j].labels
  }

  // ---- reading ------------------------------------------------------------------

  /** Python's == 1 on a JSON value. */
  predicate IsOne(json: Json) {
    json == Num(Finite(1.0)) || json == Bool(true)
  }

  /** float() of a JSON value, `parse` being the reading of a string. */
  function ToFloat(json: Json, parse: string -> Option<Value>): Option<Value> {
    match json
    case Num(value) => if value.Text? then None else Some(value)
    case Bool(flag) => Some(Finite(if flag then 1.0 else 0.0))
    case Str(text) => parse(text)
    case _ => None
  }

  /** Numbers read as themselves, true and false as one and zero, a text as it parses;
      nothing else reads as a number. */
  lemma FloatOf(json: Json, parse: string -> Option<Value>)
    ensures json.Num? && !json.number.Text? ==> ToFloat(json, parse) == Some(json.number)
    ensures json == Bool(true) ==> ToFloat(json, parse) == Some(Finite(1.0))
    ensures json == Bool(false) ==> ToFloat(json, parse) == Some(Finite(0.0))
    ensures json.Str? ==> ToFloat(json, parse) == parse(json.text)
    ensures json.Null? || json.Arr? || json.Obj? || (json.Num? && json.number.Text?) ==> ToFloat(json, parse).None?
  {
  }

  function Texts(items: seq<Json>): Option<seq<string>> {
    if items == [] then Some([])
    else
      var n := |items| - 1;
      var before := Texts(items[..n]);
      if before.Some? && items[n].Str? then Some(before.value + [items[n].text]) else None
  }

  function ReadSample(shape: Shape, json: Json, parse: string -> Option<Value>): Option<Sample> {
    if !json.Obj? || "labels" !in json.fields || !json.fields["labels"].Arr? || "value" !in json.fields then None
    else
      var texts, value := Texts(json.fields["labels"].items), ToFloat(json.fields["value"], parse);
      if texts.None? || value.None? then None
      else
        var sample := Sample(Labels(texts.value), value.value);
        if |texts.value| == |shape.labelnames| && LabelsFit(sample.labels) && value.value.Finite? then Some(sample)
        else None
  }

  function ReadSamples(shape: Shape, items: seq<Json>, parse: string -> Option<Value>): Option<seq<Sample>> {
    if items == [] then Some([])
    else
      var n := |items| - 1;
      var before, last := ReadSamples(shape, items[..n], parse), ReadSample(shape, items[n], parse);
      if before.Some? && last.Some? then Some(before.value + [last.value]) else None
  }

  function ReadItem(shape: Shape, json: Json, parse: string -> Option<Value>): Option<seq<Sample>> {
    if !json.Obj? || "labelnames" !in json.fields || json.fields["labelnames"] != Strings(shape.labelnames)
       || "samples" !in json.fields || !json.fields["samples"].Arr? then None
    else
      var samples := ReadSamples(shape, json.fields["samples"].items, parse);
      if samples.Some? && shape.labelnames == [] && |samples.value| != 1 then None else samples
  }

  function Total(listings: seq<seq<Sample>>): nat {
    if listings == [] then 0 else Total(listings[..|listings| - 1]) + |listings[|listings| - 1]|
  }

  function ReadItems(shapes: seq<Shape>, stored: map<string, Json>,
                     parse: string -> Option<Value>): Option<seq<seq<Sample>>> {
    if shapes == [] then Some([])
    else
      var n := |shapes| - 1;
      var before := ReadItems(shapes[..n], stored, parse);
      if before.None? || shapes[n].name !in stored then None
      else
        var last := ReadItem(shapes[n], stored[shapes[n].name], parse);
        if last.Some? && Total(before.value + [last.value]) <= MAX_PERSISTED then Some(before.value + [last.value])
        else None
  }

  function Names(shapes: seq<Shape>): set<string> {
    set i | 0 <= i < |shapes| :: shapes[i].name
  }

  /** What a restore would publish; None when it rejects the payload. */
  function Prepared(shapes: seq<Shape>, payload: Json, parse: string -> Option<Value>): Option<seq<seq<Sample>>> {
    if !payload.Obj? || "version" !in payload.fields || !IsOne(payload.fields["version"])
       || "metrics" !in payload.fields || !payload.fields["metrics"].Obj?
       || payload.fields["metrics"].fields.Keys != Names(shapes) then None
    else ReadItems(shapes, payload.fields["metrics"].fields, parse)
  }

  /** The samples a restore leaves in a family: a later duplicate overwrites. */
  function Restored(samples: seq<Sample>): Contents {
    if samples == [] then map[]
    else
      var last := samples[|samples| - 1];
      Restored(samples[..|samples| - 1])[last.labels := last.value]
  }

  // ---- what a restore accepts -------------------------------------------------------

  /** A sample: a list of texts, one for each label name and none over 256 bytes, and a
      value that reads as a finite number. */
  predicate IsRow(names: seq<string>, json: Json, parse: string -> Option<Value>) {
    && json.Obj? && "labels" in json.fields && json.fields["labels"].Arr? && "value" in json.fields
    && var labels, value := json.fields["labels"].items, ToFloat(json.fields["value"], parse);
    && |labels| == |names| && value.Some? && value.value.Finite?
    && forall i | 0 <= i < |labels| :: labels[i].Str? && Utf8Bytes(labels[i].text) <= 256
  }

  /** A family: its own label names in order, and samples; a single cell has exactly one. */
  predicate IsItem(names: seq<string>, json: Json, parse: string -> Option<Value>) {
    && json.Obj? && "labelnames" in json.fields && json.fields["labelnames"].Arr?
    && "samples" in json.fields && json.fields["samples"].Arr?
    && var listed, rows := json.fields["labelnames"].items, json.fields["samples"].items;
    && |listed| == |names| && (forall i | 0 <= i < |names| :: listed[i] == Str(names[i]))
    && (forall i | 0 <= i < |rows| :: IsRow(names, rows[i], parse))
    && (names == [] ==> |rows| == 1)
  }

  /** The number of samples in all families. */
  function Rows(shapes: seq<Shape>, stored: map<string, Json>): nat {
    if shapes == [] then 0
    else
      var last := shapes[|shapes| - 1];
      Rows(shapes[..|shapes| - 1], stored)
      + (if last.name in stored && stored[last.name].Obj? && "samples" in stored[last.name].fields
            && stored[last.name].fields["samples"].Arr?
         then |stored[last.name].fields["samples"].items| else 0)
  }

  /** A payload of version 1 with an item for every family and no other, and at most
      20000 samples. */
  ghost predicate IsPayload(shapes: seq<Shape>, payload: Json, parse: string -> Option<Value>) {
    && payload.Obj? && "version" in payload.fields && "metrics" in payload.fields
    && payload.fields["version"] in {Num(Finite(1.0)), Bool(true)} && payload.fields["metrics"].Obj?
    && var stored := payload.fields["metrics"].fields;
    && OnlyNames(shapes, stored) && AllItems(shapes, stored, parse) && Rows(shapes, stored) <= 20000
  }

  ghost predicate OnlyNames(shapes: seq<Shape>, stored: map<string, Json>) {
    forall name :: name in stored <==> exists i :: 0 <= i < |shapes| && shapes[i].name == name
  }

  lemma {:induction false} TextsExactly(items: seq<Json>)
    ensures Texts(items).Some? <==> forall i | 0 <= i < |items| :: items[i].Str?
    ensures Texts(items).Some? ==>
              && |Texts(items).value| == |items|
              && forall i | 0 <= i < |items| :: items[i] == Str(Texts(items).value[i])
  {
    if items != [] {
      TextsExactly(items[..|items| - 1]);
    }
  }

  /** The sample read is the one written there. */
  ghost predicate Means(json: Json, sample: Sample, parse: string -> Option<Value>) {
    && json.Obj? && "labels" in json.fields && json.fields["labels"].Arr? && "value" in json.fields
    && |sample.labels.values| == |json.fields["labels"].items|
    && (forall i | 0 <= i < |sample.labels.values| :: json.fields["labels"].items[i] == Str(sample.labels.values[i]))
    && ToFloat(json.fields["value"], parse) == Some(sample.value)
  }

  ghost predicate MeansAll(json: Json, samples: seq<Sample>, parse: string -> Option<Value>) {
    && json.Obj? && "samples" in json.fields && json.fields["samples"].Arr?
    && var items := json.fields["samples"].items;
    && |samples| == |items| && forall j | 0 <= j < |items| :: Means(items[j], samples[j], parse)
  }

  lemma RowExactly(shape: Shape, json: Json, parse: string -> Option<Value>)
    ensures ReadSample(shape, json, parse).Some? <==> IsRow(shape.labelnames, json, parse)
    ensures ReadSample(shape, json, parse).Some? ==> Means(json, ReadSample(shape, json, parse).value, parse)
  {
    if json.Obj? && "labels" in json.fields && json.fields["labels"].Arr? {
      TextsExactly(json.fields["labels"].items);
    }
  }

  lemma {:induction false} RowsExactly(shape: Shape, items: seq<Json>, parse: string -> Option<Value>)
    ensures ReadSamples(shape, items, parse).Some? <==>
            forall i | 0 <= i < |items| :: IsRow(shape.labelnames, items[i], parse)
    ensures ReadSamples(shape, items, parse).Some? ==>
              var samples := ReadSamples(shape, items, parse).value;
              |samples| == |items| && forall i | 0 <= i < |items| :: Means(items[i], samples[i], parse)
  {
    if items != [] {
      var n := |items| - 1;
      RowsExactly(shape, items[..n], parse);
      RowExactly(shape, items[n], parse);
    }
  }

  lemma NamesExactly(names: seq<string>, json: Json)
    ensures json == Strings(names) <==>
            json.Arr? && |json.items| == |names| && forall i | 0 <= i < |names| :: json.items[i] == Str(names[i])
  {
    if json.Arr? && |json.items| == |names| && (forall i | 0 <= i < |names| :: json.items[i] == Str(names[i])) {
      assert json.items == Strings(names).items;
    }
  }

  lemma ItemExactly(shape: Shape, json: Json, parse: string -> Option<Value>)
    ensures ReadItem(shape, json, parse).Some? <==> IsItem(shape.labelnames, json, parse)
    ensures ReadItem(shape, json, parse).Some? ==>
              MeansAll(json, ReadItem(shape, json, parse).value, parse)
  {
    if json.Obj? && "labelnames" in json.fields {
      NamesExactly(shape.labelnames, json.fields["labelnames"]);
      if "samples" in json.fields && json.fields["samples"].Arr? {
        RowsExactly(shape, json.fields["samples"].items, parse);
      }
    }
  }

  predicate AllItems(shapes: seq<Shape>, stored: map<string, Json>, parse: string -> Option<Value>) {
    forall i | 0 <= i < |shapes| ::
      shapes[i].name in stored && IsItem(shapes[i].labelnames, stored[shapes[i].name], parse)
  }

  /** Every family is read as it stands in the payload. */
  ghost predicate AllMeant(shapes: seq<Shape>, stored: map<string, Json>, listings: seq<seq<Sample>>,
                           parse: string -> Option<Value>) {
    && |listings| == |shapes|
    && forall i | 0 <= i < |shapes| ::
         shapes[i].name in stored && MeansAll(stored[shapes[i].name], listings[i], parse)
  }

  lemma AllItemsStep(shapes: seq<Shape>, stored: map<string, Json>, parse: string -> Option<Value>)
    requires shapes != []
    ensures var n := |shapes| - 1;
            AllItems(shapes, stored, parse) <==>
            && AllItems(shapes[..n], stored, parse)
            && shapes[n].name in stored && IsItem(shapes[n].labelnames, stored[shapes[n].name], parse)
  {
    var n := |shapes| - 1;
    assert shapes == shapes[..n] + [shapes[n]];
  }

  lemma AllMeantStep(shapes: seq<Shape>, stored: map<string, Json>, before: seq<seq<Sample>>, last: seq<Sample>,
                     parse: string -> Option<Value>)
    requires shapes != [] && AllMeant(shapes[..|shapes| - 1], stored, before, parse)
    requires shapes[|shapes| - 1].name in stored && MeansAll(stored[shapes[|shapes| - 1].name], last, parse)
    ensures AllMeant(shapes, stored, before + [last], parse)
    ensures Total(before + [last]) == Total(before) + |last|
  {
    assert (before + [last])[..|before|] == before;
  }

  lemma {:induction false} ItemsExactly(shapes: seq<Shape>, stored: map<string, Json>, parse: string -> Option<Value>)
    ensures ReadItems(shapes, stored, parse).Some? <==>
            AllItems(shapes, stored, parse) && Rows(shapes, stored) <= 20000
    ensures ReadItems(shapes, stored, parse).Some? ==>
              var listings := ReadItems(shapes, stored, parse).value;
              AllMeant(shapes, stored, listings, parse) && Total(listings) == Rows(shapes, stored)
  {
    if shapes != [] {
      var n := |shapes| - 1;
      ItemsExactly(shapes[..n], stored, parse);
      AllItemsStep(shapes, stored, parse);
      var before := ReadItems(shapes[..n], stored, parse);
      if before.Some? && shapes[n].name in stored {
        ItemExactly(shapes[n], stored[shapes[n].name], parse);
        var last := ReadItem(shapes[n], stored[shapes[n].name], parse);
        if last.Some? {
          AllMeantStep(shapes, stored, before.value, last.value, parse);
        }
      }
    }
  }

  /** A restore accepts exactly such payloads, and reads in each family the samples that
      stand there. */
  lemma AcceptedExactly(shapes: seq<Shape>, payload: Json, parse: string -> Option<Value>)
    ensures Prepared(shapes, payload, parse).Some? <==> IsPayload(shapes, payload, parse)
    ensures Prepared(shapes, payload, parse).Some? ==>
              AllMeant(shapes, payload.fields["metrics"].fields, Prepared(shapes, payload, parse).value, parse)
  {
    if payload.Obj? && "metrics" in payload.fields && payload.fields["metrics"].Obj? {
      ItemsExactly(shapes, payload.fields["metrics"].fields, parse);
      SameNames(shapes, payload.fields["metrics"].fields);
    }
  }

  lemma SameNames(shapes: seq<Shape>, stored: map<string, Json>)
    ensures stored.Keys == Names(shapes) <==> OnlyNames(shapes, stored)
  {
    forall name ensures name in Names(shapes) <==> exists i :: 0 <= i < |shapes| && shapes[i].name == name {
    }
  }

  // ---- the round trip -----------------------------------------------------------

  /** What serialization demands of one family. */
  predicate Storable(shape: Shape, contents: Contents) {
    && shape.name != ""
    && forall labels | labels in contents :: contents[labels].Finite? && LabelsFit(labels)
  }

  /** The shape of every family's contents: as many labels as names, and one sample
      at no labels in a single cell. */
  predicate WellFormed(shape: Shape, contents: Contents) {
    && (forall labels | labels in contents :: |labels.values| == |shape.labelnames|)
    && (shape.labelnames == [] ==> contents.Keys == {NoLabels})
  }

  predicate DistinctNames(shapes: seq<Shape>) {
    forall i, j | 0 <= i < j < |shapes| :: shapes[i].name != shapes[j].name
  }

  lemma {:induction false} TextsOfStrings(texts: seq<string>)
    ensures Texts(Strings(texts).items) == Some(texts)
  {
    if texts != [] {
      var n := |texts| - 1;
      TextsOfStrings(texts[..n]);
      assert Strings(texts).items[..n] == Strings(texts[..n]).items;
      assert texts == texts[..n] + [texts[n]];
    }
  }

  lemma SampleRoundTrip(shape: Shape, sample: Sample, parse: string -> Option<Value>)
    requires sample.value.Finite? && LabelsFit(sample.labels) && |sample.labels.values| == |shape.labelnames|
    ensures ReadSample(shape, SampleJson(sample), parse) == Some(sample)
  {
    TextsOfStrings(sample.labels.values);
  }

  lemma {:induction false} SamplesRoundTrip(shape: Shape, samples: seq<Sample>, items: seq<Json>,
                                            parse: string -> Option<Value>)
    requires forall i | 0 <= i < |samples| ::
               samples[i].value.Finite? && LabelsFit(samples[i].labels)
               && |samples[i].labels.values| == |shape.labelnames|
    requires |items| == |samples| && forall i | 0 <= i < |samples| :: items[i] == SampleJson(samples[i])
    ensures ReadSamples(shape, items, parse) == Some(samples)
  {
    if samples != [] {
      var n := |samples| - 1;
      SamplesRoundTrip(shape, samples[..n], items[..n], parse);
      SampleRoundTrip(shape, samples[n], parse);
      assert samples == samples[..n] + [samples[n]];
    }
  }

  lemma ItemRoundTrip(shape: Shape, samples: seq<Sample>, contents: Contents, parse: string -> Option<Value>)
    requires Lists(samples, contents) && Storable(shape, contents) && WellFormed(shape, contents)
    ensures ReadItem(shape, ItemJson(shape, samples), parse) == Some(samples)
  {
    SamplesRoundTrip(shape, samples, ItemJson(shape, samples).fields["samples"].items, parse);
    if shape.labelnames == [] {
      assert |contents| == |contents.Keys| == 1;
    }
  }

  lemma {:induction false} MetricsAt(shapes: seq<Shape>, listings: seq<seq<Sample>>, i: nat)
    requires |listings| == |shapes| && DistinctNames(shapes) && i < |shapes|
    ensures shapes[i].name in Metrics(shapes, listings)
    ensures Metrics(shapes, listings)[shapes[i].name] == ItemJson(shapes[i], listings[i])
  {
    var n := |shapes| - 1;
    if i < n {
      MetricsAt(shapes[..n], listings[..n], i);
    }
  }

  lemma {:induction false} MetricsNames(shapes: seq<Shape>, listings: seq<seq<Sample>>)
    requires |listings| == |shapes|
    ensures Metrics(shapes, listings).Keys == Names(shapes)
  {
    if shapes != [] {
      var n := |shapes| - 1;
      MetricsNames(shapes[..n], listings[..n]);
      assert shapes == shapes[..n] + [shapes[n]];
      assert Names(shapes) == Names(shapes[..n]) + {shapes[n].name};
    }
  }

  ghost predicate ListsAll(shapes: seq<Shape>, listings: seq<seq<Sample>>, contents: seq<Contents>) {
    && |listings| == |shapes| == |contents|
    && forall i | 0 <= i < |shapes| :: Lists(listings[i], contents[i])
  }

  /** A payload that lists every family completely, in some order of its samples. */
  ghost predicate IsSnapshot(payload: Json, shapes: seq<Shape>, contents: seq<Contents>) {
    exists listings :: ListsAll(shapes, listings, contents) && payload == Payload(shapes, listings)
  }

  ghost predicate StorableAll(shapes: seq<Shape>, contents: seq<Contents>) {
    && |shapes| == |contents| && DistinctNames(shapes)
    && (forall i | 0 <= i < |shapes| :: Storable(shapes[i], contents[i]))
    && Count(contents) <= MAX_PERSISTED
  }

  function Count(contents: seq<Contents>): nat {
    if contents == [] then 0 else Count(contents[..|contents| - 1]) + |contents[|contents| - 1]|
  }

  predicate Reads(shape: Shape, stored: map<string, Json>, samples: seq<Sample>, parse: string -> Option<Value>) {
    shape.name in stored && ReadItem(shape, stored[shape.name], parse) == Some(samples)
  }

  lemma ReadsPrefix(shapes: seq<Shape>, listings: seq<seq<Sample>>, stored: map<string, Json>,
                    parse: string -> Option<Value>)
    requires |listings| == |shapes| > 0
    requires forall i | 0 <= i < |shapes| :: Reads(shapes[i], stored, listings[i], parse)
    ensures var n := |shapes| - 1;
            && (forall i | 0 <= i < n :: Reads(shapes[..n][i], stored, listings[..n][i], parse))
            && Reads(shapes[n], stored, listings[n], parse)
            && listings == listings[..n] + [listings[n]]
  {
  }

  lemma {:induction false} ReadsAll(shapes: seq<Shape>, listings: seq<seq<Sample>>, stored: map<string, Json>,
                                    parse: string -> Option<Value>)
    requires |listings| == |shapes| && Total(listings) <= MAX_PERSISTED
    requires forall i | 0 <= i < |shapes| :: Reads(shapes[i], stored, listings[i], parse)
    ensures ReadItems(shapes, stored, parse) == Some(listings)
  {
    if shapes != [] {
      var n := |shapes| - 1;
      ReadsPrefix(shapes, listings, stored, parse);
      ReadsAll(shapes[..n], listings[..n], stored, parse);
    }
  }

  lemma {:induction false} TotalIsCount(listings: seq<seq<Sample>>, contents: seq<Contents>)
    requires |listings| == |contents| && forall i | 0 <= i < |contents| :: |listings[i]| == |contents[i]|
    ensures Total(listings) == Count(contents)
  {
    if contents != [] {
      TotalIsCount(listings[..|listings| - 1], contents[..|contents| - 1]);
    }
  }

  /** Restoring a listing brings back the contents it lists. */
  lemma {:induction false} RestoredKeeps(samples: seq<Sample>, i: nat)
    requires i < |samples| && forall j | i < j < |samples| :: samples[j].labels != samples[i].labels
    ensures samples[i].labels in Restored(samples) && Restored(samples)[samples[i].labels] == samples[i].value
  {
    var n := |samples| - 1;
    if i < n {
      RestoredKeeps(samples[..n], i);
    }
  }

  lemma {:induction false} RestoredFrom(samples: seq<Sample>)
    ensures Restored(samples).Keys == set i | 0 <= i < |samples| :: samples[i].labels
  {
    if samples != [] {
      var n := |samples| - 1;
      RestoredFrom(samples[..n]);
      assert samples == samples[..n] + [samples[n]];
    }
  }

  lemma ListingRestores(samples: seq<Sample>, contents: Contents)
    requires Lists(samples, contents)
    ensures Restored(samples) == contents
  {
    RestoredFrom(samples);
    forall i | 0 <= i < |samples| ensures Restored(samples)[samples[i].labels] == samples[i].value {
      RestoredKeeps(samples, i);
    }
    ListedAll(samples, contents);
  }

  lemma ListedAll(samples: seq<Sample>, contents: Contents)
    requires Lists(samples, contents)
    ensures contents.Keys == set i | 0 <= i < |samples| :: samples[i].labels
  {
    var tags := seq(|samples|, i requires 0 <= i < |samples| => samples[i].labels);
    assert forall i | 0 <= i < |samples| :: tags[i] == samples[i].labels;
    CoversAll(tags, contents.Keys);
    assert forall labels | labels in contents :: labels in tags;
  }

  /** As many distinct members as the set has leave none out. */
  lemma CoversAll<T>(xs: seq<T>, all: set<T>)
    requires NoDuplicates(xs) && |xs| == |all| && forall x | x in xs :: x in all
    ensures forall x | x in all :: x in xs
  {
    var listed := set x | x in xs;
    DistinctSize(xs);
    DisjointUnionSize(listed, all - listed);
    assert all == listed + (all - listed);
  }

  /** Every payload written passes all checks of a restore into the same families,
      and brings back every label tuple and value. */
  lemma RoundTrip(shapes: seq<Shape>, listings: seq<seq<Sample>>, contents: seq<Contents>,
                  parse: string -> Option<Value>)
    requires ListsAll(shapes, listings, contents) && StorableAll(shapes, contents)
    requires forall i | 0 <= i < |shapes| :: WellFormed(shapes[i], contents[i])
    ensures Prepared(shapes, Payload(shapes, listings), parse) == Some(listings)
    ensures forall i | 0 <= i < |shapes| :: Restored(listings[i]) == contents[i]
  {
    var stored := Metrics(shapes, listings);
    MetricsNames(shapes, listings);
    forall i | 0 <= i < |shapes|
      ensures Reads(shapes[i], stored, listings[i], parse)
      ensures Restored(listings[i]) == contents[i] && |listings[i]| == |contents[i]|
    {
      MetricsAt(shapes, listings, i);
      ItemRoundTrip(shapes[i], listings[i], contents[i], parse);
      ListingRestores(listings[i], contents[i]);
    }
    TotalIsCount(listings, contents);
    ReadsAll(shapes, listings, stored, parse);
  }
}
