/** The shape the charts and the statistics panel read from an accepted
    document (script.js, `displayStats` and the `plot*` functions), and the
    four statistics themselves. */
module PcaData {
  import opened Wrappers
  import opened Intake

  /** One projected point; `text` is its `label` field. */
  datatype Point = Point(x: real, y: real, text: string)

  /** An accepted document whose fields have the shapes the rest of the
      script reads: points with numeric `x`, `y` and a string `label`, and
      two arrays of numbers. */
  datatype Dataset = Dataset(points: seq<Point>, explained: seq<real>, cumulative: seq<real>)

  function AsPoint(v: Json): (r: Option<Point>)
    ensures r.Some? ==> Read(v, "x") == Some(JNumber(r.value.x)) && Read(v, "y") == Some(JNumber(r.value.y))
    ensures r.Some? ==> Read(v, "label") == Some(JString(r.value.text))
  {
    match (Read(v, "x"), Read(v, "y"), Read(v, "label"))
    case (Some(JNumber(x)), Some(JNumber(y)), Some(JString(text))) => Some(Point(x, y, text))
    case _ => None
  }

  /** A JSON array of numbers, as numbers. */
  function AsNumbers(v: Option<Json>): (r: Option<seq<real>>)
    ensures r.Some? <==> v.Some? && v.value.JArray? && forall i :: 0 <= i < |v.value.items| ==> v.value.items[i].JNumber?
    ensures r.Some? ==>
      && |r.value| == |v.value.items|
      && forall i :: 0 <= i < |r.value| ==> v.value.items[i] == JNumber(r.value[i])
  {
    if v.Some? && v.value.JArray? && forall i :: 0 <= i < |v.value.items| ==> v.value.items[i].JNumber? then
      Some(seq(|v.value.items|, i requires 0 <= i < |v.value.items| => v.value.items[i].n))
    else None
  }

  /** A JSON array of point objects, as points. */
  function AsPoints(v: Option<Json>): (r: Option<seq<Point>>)
    ensures r.Some? <==> v.Some? && v.value.JArray? && forall i :: 0 <= i < |v.value.items| ==> AsPoint(v.value.items[i]).Some?
    ensures r.Some? ==>
      && |r.value| == |v.value.items|
      && forall i :: 0 <= i < |r.value| ==> AsPoint(v.value.items[i]) == Some(r.value[i])
  {
    if v.Some? && v.value.JArray? && forall i :: 0 <= i < |v.value.items| ==> AsPoint(v.value.items[i]).Some? then
      Some(seq(|v.value.items|, i requires 0 <= i < |v.value.items| => AsPoint(v.value.items[i]).value))
    else None
  }

  function AsDataset(doc: Json): Option<Dataset>
  {
    match (AsPoints(Read(doc, PointsKey)), AsNumbers(Read(doc, ExplainedKey)), AsNumbers(Read(doc, CumulativeKey)))
    case (Some(ps), Some(ev), Some(cv)) => Some(Dataset(ps, ev, cv))
    case _ => None
  }

  /** A document of the expected shape always passes the required-key
      check, even with no points (an empty array is truthy). */
  lemma WellShapedPasses(doc: Json)
    ensures AsDataset(doc).Some? ==> Validate(doc) == Success(doc)
  {
  }

  /** The check is a presence check, not a type check: a document whose
      required fields are plain truthy numbers passes it. */
  lemma CheckIsNoTypeCheck()
    ensures
      var doc := JObject(map[PointsKey := JNumber(1.0), ExplainedKey := JString("x"), CumulativeKey := JBool(true)]);
      Validate(doc).Success? && AsDataset(doc).None?
  {
    var doc := JObject(map[PointsKey := JNumber(1.0), ExplainedKey := JString("x"), CumulativeKey := JBool(true)]);
    assert PointsKey != ExplainedKey && PointsKey != CumulativeKey && ExplainedKey != CumulativeKey;
    assert Read(doc, PointsKey) == Some(JNumber(1.0));
  }

  /** The four stat cards. A percentage is `None` where the source reads
      past the end of an array: `undefined * 100` is `NaN`. */
  datatype Stats = Stats(pointCount: nat, pc1Percent: Option<real>, pc2Percent: Option<real>, cumulativePercent: Option<real>)

  /** `a[i] * 100`, or `None` for a read past the end. */
  function PercentAt(a: seq<real>, i: nat): (r: Option<real>)
    ensures r.Some? <==> i < |a|
    ensures r.Some? ==> r.value / 100.0 == a[i]
  {
    if i < |a| then Some(a[i] * 100.0) else None
  }

  /** Point count, PC1 and PC2 variance and the PC1+PC2 cumulative
      variance, before display rounding. */
  function DeriveStats(d: Dataset): (s: Stats)
    ensures s.pointCount == |d.points|
    ensures s.pc1Percent.Some? <==> |d.explained| >= 1
    ensures s.pc2Percent.Some? <==> |d.explained| >= 2
    ensures s.cumulativePercent.Some? <==> |d.cumulative| >= 2
    ensures |d.explained| >= 1 ==> s.pc1Percent == Some(100.0 * d.explained[0])
    ensures |d.explained| >= 2 ==> s.pc2Percent == Some(100.0 * d.explained[1])
    ensures |d.cumulative| >= 2 ==> s.cumulativePercent == Some(100.0 * d.cumulative[1])
  {
    Stats(|d.points|, PercentAt(d.explained, 0), PercentAt(d.explained, 1), PercentAt(d.cumulative, 1))
  }

  /** Every card shows a number exactly when both ratio arrays have at least
      two entries. */
  lemma StatsDefinedIff(d: Dataset)
    ensures (DeriveStats(d).pc1Percent.Some? && DeriveStats(d).pc2Percent.Some? && DeriveStats(d).cumulativePercent.Some?)
            <==> |d.explained| >= 2 && |d.cumulative| >= 2
  {
  }

  /** A point object with numeric coordinates and a string label reads as
      that point. */
  lemma PointObject(x: real, y: real, text: string)
    ensures AsPoint(JObject(map["x" := JNumber(x), "y" := JNumber(y), "label" := JString(text)])) == Some(Point(x, y, text))
  {
    assert "x" != "y" && "x" != "label" && "y" != "label";
  }

  /** A two-number array reads as those two numbers. */
  lemma TwoNumbers(a: real, b: real)
    ensures AsNumbers(Some(JArray([JNumber(a), JNumber(b)]))) == Some([a, b])
  {
    var r := AsNumbers(Some(JArray([JNumber(a), JNumber(b)])));
    assert r.Some? && |r.value| == 2 && r.value[0] == a && r.value[1] == b;
    assert r.value == [a, b];
  }

  /** A two-item array of point objects reads as those two points. */
  lemma TwoPoints(v: Json, w: Json, p: Point, q: Point)
    requires AsPoint(v) == Some(p) && AsPoint(w) == Some(q)
    ensures AsPoints(Some(JArray([v, w]))) == Some([p, q])
  {
    var r := AsPoints(Some(JArray([v, w])));
    assert r.Some? && |r.value| == 2 && r.value[0] == p && r.value[1] == q;
    assert r.value == [p, q];
  }

  /** Two points, ratios [0.6, 0.3] and cumulative [0.6, 0.9] give the cards
      2, 60, 30 and 90. */
  lemma TwoPointScenario()
    ensures
      var p := (x: real, y: real, l: string) => JObject(map["x" := JNumber(x), "y" := JNumber(y), "label" := JString(l)]);
      var doc := JObject(map[
        PointsKey := JArray([p(1.0, 2.0, "A"), p(3.0, 4.0, "B")]),
        ExplainedKey := JArray([JNumber(0.6), JNumber(0.3)]),
        CumulativeKey := JArray([JNumber(0.6), JNumber(0.9)])]);
      && Validate(doc).Success?
      && AsDataset(doc) == Some(Dataset([Point(1.0, 2.0, "A"), Point(3.0, 4.0, "B")], [0.6, 0.3], [0.6, 0.9]))
      && DeriveStats(AsDataset(doc).value) == Stats(2, Some(60.0), Some(30.0), Some(90.0))
  {
    var p := (x: real, y: real, l: string) => JObject(map["x" := JNumber(x), "y" := JNumber(y), "label" := JString(l)]);
    var pts := JArray([p(1.0, 2.0, "A"), p(3.0, 4.0, "B")]);
    var ev := JArray([JNumber(0.6), JNumber(0.3)]);
    var cv := JArray([JNumber(0.6), JNumber(0.9)]);
    var doc := JObject(map[PointsKey := pts, ExplainedKey := ev, CumulativeKey := cv]);
    assert PointsKey != ExplainedKey && PointsKey != CumulativeKey && ExplainedKey != CumulativeKey;
    assert Read(doc, PointsKey) == Some(pts);
    assert Read(doc, ExplainedKey) == Some(ev);
    assert Read(doc, CumulativeKey) == Some(cv);
    PointObject(1.0, 2.0, "A");
    PointObject(3.0, 4.0, "B");
    TwoPoints(p(1.0, 2.0, "A"), p(3.0, 4.0, "B"), Point(1.0, 2.0, "A"), Point(3.0, 4.0, "B"));
    TwoNumbers(0.6, 0.3);
    TwoNumbers(0.6, 0.9);
  }
}
