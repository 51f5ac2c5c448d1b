/** What one detection run computes from the inference service's answer:
    each raw record becomes a displayed item (name, confidence, distance), and
    the item list becomes one spoken sentence. */
module Detection {
  import opened Strings

  datatype Option<T> = None | Some(value: T)

  /** A bounding box `[xMin, yMin, xMax, yMax]` in image pixels. */
  datatype Box = Box(xMin: real, yMin: real, xMax: real, yMax: real)

  /** One element of the service response; each field may be absent. */
  datatype RawDetection = RawDetection(labelText: Option<string>, score: Option<real>, boundingBox: Option<Box>)

  /** The confidence shown to the user: a percentage, or "N/A". */
  datatype Confidence = Percent(value: real) | NotAvailable

  /** The estimated distance: a number of metres, or the JavaScript value
      `Infinity` that a zero-height box yields. */
  datatype Distance = Meters(value: real) | Infinite

  /** One displayed item. */
  datatype DetectedItem = DetectedItem(name: string, confidence: Confidence, distance: Distance)

  const FocalLength: real := 700.0
  const RealHeight: real := 1.7
  const DefaultName: string := "Unknown"

  /** The box used when the record has none: `[0, 0, 0, 0]`. */
  const ZeroBox: Box := Box(0.0, 0.0, 0.0, 0.0)

  /** `calculateDistance`: the pinhole estimate `1.7 * 700 / (yMax - yMin)`.
      A zero height divides by zero, which JavaScript evaluates to `Infinity`. */
  function CalculateDistance(boundingBox: Option<Box>): (d: Distance)
    ensures var b := if boundingBox.Some? then boundingBox.value else ZeroBox;
      && (d.Infinite? <==> b.yMax == b.yMin)
      && (d.Meters? ==> d.value * (b.yMax - b.yMin) == 1190.0)
  {
    var b := if boundingBox.Some? then boundingBox.value else ZeroBox;
    var objectHeight := b.yMax - b.yMin;
    if objectHeight == 0.0 then Infinite
    else Meters(RealHeight * FocalLength / objectHeight)
  }

  /** A record without a box has zero height, hence an infinite distance. */
  lemma MissingBoxIsInfinite()
    ensures CalculateDistance(None) == Infinite
  {
  }

  /** The distance depends on the vertical extent only. */
  lemma DistanceIgnoresX(b: Box, xMin: real, xMax: real)
    ensures CalculateDistance(Some(b)) == CalculateDistance(Some(Box(xMin, b.yMin, xMax, b.yMax)))
  {
  }

  /** A box of positive height gives a positive distance, and a taller box
      is estimated to be nearer. */
  lemma TallerIsNearer(b: Box, c: Box)
    requires 0.0 < b.yMax - b.yMin < c.yMax - c.yMin
    ensures CalculateDistance(Some(b)).Meters? && CalculateDistance(Some(c)).Meters?
    ensures 0.0 < CalculateDistance(Some(c)).value < CalculateDistance(Some(b)).value
  {
    var hb, hc := b.yMax - b.yMin, c.yMax - c.yMin;
    var db, dc := CalculateDistance(Some(b)).value, CalculateDistance(Some(c)).value;
    assert db * hb == 1190.0 && dc * hc == 1190.0;
    assert dc * hb < dc * hc;
  }

  /** JavaScript truthiness of an optional string: present and non-empty. */
  predicate Truthy(s: Option<string>)
  {
    s.Some? && s.value != ""
  }

  /** The name shown for a label: the label when truthy, else "Unknown". */
  function ItemName(text: Option<string>): (name: string)
    ensures name != ""
    ensures Truthy(text) ==> name == text.value
    ensures !Truthy(text) ==> name == DefaultName
  {
    if Truthy(text) then text.value else DefaultName
  }

  /** The confidence for a score: "N/A" when the score is falsy, which
      includes a score of exactly 0, otherwise the score times 100. */
  function ItemConfidence(score: Option<real>): (c: Confidence)
    ensures c.NotAvailable? <==> (score.None? || score.value == 0.0)
    ensures c.Percent? ==> c.value / 100.0 == score.value
  {
    if score.Some? && score.value != 0.0 then Percent(score.value * 100.0) else NotAvailable
  }

  /** The item built from one record by the response mapping. */
  function ToItem(obj: RawDetection): (item: DetectedItem)
    ensures Truthy(obj.labelText) ==> item.name == obj.labelText.value
    ensures !Truthy(obj.labelText) ==> item.name == DefaultName
    ensures item.confidence.NotAvailable? <==> (obj.score.None? || obj.score.value == 0.0)
    ensures item.confidence.Percent? ==> item.confidence.value == obj.score.value * 100.0
    ensures item.distance == CalculateDistance(obj.boundingBox)
  {
    DetectedItem(ItemName(obj.labelText), ItemConfidence(obj.score), CalculateDistance(obj.boundingBox))
  }

  /** `response.data.map(...)`: one item per record, in the same order. */
  function Normalize(records: seq<RawDetection>): (items: seq<DetectedItem>)
    ensures |items| == |records|
    ensures forall i :: 0 <= i < |records| ==> items[i] == ToItem(records[i])
  {
    if records == [] then [] else [ToItem(records[0])] + Normalize(records[1..])
  }

  /** Mapping a concatenated response maps each part. */
  lemma NormalizeAppend(xs: seq<RawDetection>, ys: seq<RawDetection>)
    ensures Normalize(xs + ys) == Normalize(xs) + Normalize(ys)
  {
  }

  /** The text of a confidence; `fixed2` stands for `toFixed(2)`. */
  function ConfidenceText(c: Confidence, fixed2: real -> string): (t: string)
    ensures c.NotAvailable? ==> t == "N/A"
    ensures c.Percent? ==> t == fixed2(c.value)
  {
    match c
    case Percent(p) => fixed2(p)
    case NotAvailable => "N/A"
  }

  /** The text of a distance; `toFixed(2)` of `Infinity` is "Infinity". */
  function DistanceText(d: Distance, fixed2: real -> string): (t: string)
    ensures d.Infinite? ==> t == "Infinity"
    ensures d.Meters? ==> t == fixed2(d.value)
  {
    match d
    case Meters(m) => fixed2(m)
    case Infinite => "Infinity"
  }

  /** The phrase spoken for one item:
      `<name> (<confidence>%) is approximately <distance> meters away`. */
  function Phrase(item: DetectedItem, fixed2: real -> string): (p: string)
    ensures var head := item.name + " (" + ConfidenceText(item.confidence, fixed2) + "%) is approximately ";
      && |head| < |p| && p[..|head|] == head
      && p[|head|..] == DistanceText(item.distance, fixed2) + " meters away"
  {
    var head := item.name + " (" + ConfidenceText(item.confidence, fixed2) + "%) is approximately ";
    var p := head + DistanceText(item.distance, fixed2) + " meters away";
    assert p[..|head|] == head;
    assert p[|head|..] == DistanceText(item.distance, fixed2) + " meters away";
    p
  }

  /** The phrases of a list of items, in order. */
  function Phrases(items: seq<DetectedItem>, fixed2: real -> string): (ps: seq<string>)
    ensures |ps| == |items|
    ensures forall i :: 0 <= i < |items| ==> ps[i] == Phrase(items[i], fixed2)
  {
    if items == [] then [] else [Phrase(items[0], fixed2)] + Phrases(items[1..], fixed2)
  }

  const DetectedPrefix: string := "Detected: "
  const NothingDetected: string := "No objects detected."

  /** The sentence spoken after a successful detection. */
  function Summary(items: seq<DetectedItem>, fixed2: real -> string): (s: string)
    ensures s == NothingDetected <==> items == []
    ensures items != [] ==> |DetectedPrefix| < |s| && s[..|DetectedPrefix|] == DetectedPrefix && s[|s| - 1] == '.'
  {
    if |items| > 0 then
      var s := DetectedPrefix + Join(Phrases(items, fixed2), ", ") + ".";
      assert s[..|DetectedPrefix|] == DetectedPrefix;
      assert s[3] != NothingDetected[3];
      s
    else
      NothingDetected
  }

  /** Every detected item is mentioned in the summary. */
  lemma EveryItemSpoken(items: seq<DetectedItem>, fixed2: real -> string, k: nat)
    requires k < |items|
    ensures Occurs(Summary(items, fixed2), Phrase(items[k], fixed2))
  {
    var ps := Phrases(items, fixed2);
    JoinContainsPart(ps, ", ", k);
    OccursExtended(DetectedPrefix, Join(ps, ", "), ".", ps[k]);
  }

  /** The phrases of a list extended by one item. */
  lemma PhrasesSnoc(items: seq<DetectedItem>, item: DetectedItem, fixed2: real -> string)
    ensures Phrases(items + [item], fixed2) == Phrases(items, fixed2) + [Phrase(item, fixed2)]
  {
  }

  /** Adding one more item to a non-empty list adds ", " and its phrase
      before the final full stop. */
  lemma SummarySnoc(items: seq<DetectedItem>, item: DetectedItem, fixed2: real -> string)
    requires items != []
    ensures var s := Summary(items, fixed2);
      Summary(items + [item], fixed2) == s[..|s| - 1] + ", " + Phrase(item, fixed2) + "."
  {
    var ps, q := Phrases(items, fixed2), Phrase(item, fixed2);
    PhrasesSnoc(items, item, fixed2);
    JoinSnoc(ps, q, ", ");
    DropFullStop(DetectedPrefix, Join(ps, ", "), q);
  }

  /** Removing the full stop of `prefix + joined + "."` and extending. */
  lemma DropFullStop(prefix: string, joined: string, q: string)
    ensures var s := prefix + joined + ".";
      s[..|s| - 1] + ", " + q + "." == prefix + (joined + ", " + q) + "."
  {
  }

  /** The two-record response: a labelled, scored, boxed person and a record
      with no label, no score and no box. */
  const PersonAndBlank: seq<RawDetection> := [
    RawDetection(Some("person"), Some(0.95), Some(Box(10.0, 20.0, 110.0, 220.0))),
    RawDetection(None, None, None)]

  /** The person is at 1190 / 200 metres; the blank record becomes "Unknown",
      "N/A" and an infinite distance. */
  lemma TwoRecordItems()
    ensures Normalize(PersonAndBlank) ==
      [DetectedItem("person", Percent(95.0), Meters(5.95)),
       DetectedItem("Unknown", NotAvailable, Infinite)]
  {
  }

  /** The sentence spoken for a single item. */
  lemma OneItemSummary(a: DetectedItem, fixed2: real -> string)
    ensures Summary([a], fixed2) == DetectedPrefix + Phrase(a, fixed2) + "."
  {
    assert Phrases([a], fixed2) == [Phrase(a, fixed2)];
  }

  /** The sentence spoken for two items mentions both, comma-separated. */
  lemma TwoItemSummary(a: DetectedItem, b: DetectedItem, fixed2: real -> string)
    ensures Summary([a, b], fixed2) == "Detected: " + Phrase(a, fixed2) + ", " + Phrase(b, fixed2) + "."
  {
    var ps := Phrases([a, b], fixed2);
    assert ps == [Phrase(a, fixed2), Phrase(b, fixed2)];
    assert Join(ps, ", ") == ps[0] + ", " + ps[1];
  }
}
