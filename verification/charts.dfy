/** The data handed to the charting library (script.js, `plotPCA`,
    `plotContributions`, `plotCumulative` and the first render pass of
    `displayResults`). Layout, styling and the library itself are not part
    of the model; a chart here is the series it is given. */
module Charts {
  import opened Wrappers
  import opened Decimal
  import opened Colour
  import opened PcaData
  import opened Sections

  /** The axis labels `PC1`, `PC2`, ... for `n` components. */
  function ComponentLabels(n: nat): (r: seq<string>)
    ensures |r| == n
    ensures forall i :: 0 <= i < n ==> |r[i]| >= 3 && r[i][..2] == "PC"
    ensures forall i :: 0 <= i < n ==> AllDigits(r[i][2..]) && r[i][2] != '0'
  {
    seq(n, i requires 0 <= i < n => "PC" + NatToString(i + 1))
  }

  /** The digits after "PC" in the i-th label read back as i + 1. */
  lemma ComponentLabelReadsBack(n: nat, i: nat)
    requires i < n
    ensures DigitsToNat(ComponentLabels(n)[i][2..]) == i + 1
  {
    assert ComponentLabels(n)[i][2..] == NatToString(i + 1);
    NatToStringRoundTrip(i + 1);
  }

  /** No two components share a label. */
  lemma ComponentLabelsDistinct(n: nat, i: nat, j: nat)
    requires i < n && j < n && i != j
    ensures ComponentLabels(n)[i] != ComponentLabels(n)[j]
  {
    ComponentLabelReadsBack(n, i);
    ComponentLabelReadsBack(n, j);
  }

  /** The three labels for a three-component result. */
  lemma ThreeComponentLabels()
    ensures ComponentLabels(3) == ["PC1", "PC2", "PC3"]
  {
    assert NatToString(1) == "1" && NatToString(2) == "2" && NatToString(3) == "3";
    var r := ComponentLabels(3);
    assert r[0] == "PC" + "1" == "PC1";
    assert r[1] == "PC" + "2" == "PC2";
    assert r[2] == "PC" + "3" == "PC3";
  }

  datatype Chart =
    | Scatter(xs: seq<real>, ys: seq<real>, text: seq<string>, colour: seq<real>, colourTitle: string)
    | Bars(components: seq<string>, heights: seq<real>)
    | Line(components: seq<string>, values: seq<real>)

  function Labels(d: Dataset): (ls: seq<string>)
    ensures |ls| == |d.points| && forall i :: 0 <= i < |ls| ==> ls[i] == d.points[i].text
  {
    seq(|d.points|, i requires 0 <= i < |d.points| => d.points[i].text)
  }

  /** The projection scatter, or nothing while its section is hidden. */
  function PlotPca(b: Board, d: Dataset): (c: Option<Chart>)
    ensures c.None? <==> b.Get(Pca).hidden
    ensures c.Some? ==> c.value.Scatter?
    ensures c.Some? ==>
      && |c.value.xs| == |d.points| && |c.value.ys| == |d.points| && |c.value.text| == |d.points|
      && forall i :: 0 <= i < |d.points| ==>
           c.value.xs[i] == d.points[i].x && c.value.ys[i] == d.points[i].y && c.value.text[i] == d.points[i].text
    ensures c.Some? ==> c.value.colour == Encode(Labels(d)).values && c.value.colourTitle == Encode(Labels(d)).title
  {
    if b.Get(Pca).hidden then None
    else
      var labels := Labels(d);
      var e := Encode(labels);
      Some(Scatter(seq(|d.points|, i requires 0 <= i < |d.points| => d.points[i].x),
                   seq(|d.points|, i requires 0 <= i < |d.points| => d.points[i].y),
                   labels, e.values, e.title))
  }

  /** The contribution bars: one bar per explained-variance entry. */
  function PlotContributions(b: Board, d: Dataset): (c: Option<Chart>)
    ensures c.None? <==> b.Get(Contribution).hidden
    ensures c.Some? ==> c.value == Bars(ComponentLabels(|d.explained|), d.explained)
  {
    if b.Get(Contribution).hidden then None else Some(Bars(ComponentLabels(|d.explained|), d.explained))
  }

  /** The cumulative line: one marker per cumulative-variance entry. */
  function PlotCumulative(b: Board, d: Dataset): (c: Option<Chart>)
    ensures c.None? <==> b.Get(Cumulative).hidden
    ensures c.Some? ==> c.value == Line(ComponentLabels(|d.cumulative|), d.cumulative)
  {
    if b.Get(Cumulative).hidden then None else Some(Line(ComponentLabels(|d.cumulative|), d.cumulative))
  }

  /** The plot function of a section. */
  function Plot(b: Board, id: SectionId, d: Dataset): Option<Chart>
  {
    match id
    case Pca => PlotPca(b, d)
    case Contribution => PlotContributions(b, d)
    case Cumulative => PlotCumulative(b, d)
  }

  /** Every plot function draws exactly when its section is not hidden,
      and always puts one component label against each plotted value. */
  lemma PlotGuard(b: Board, id: SectionId, d: Dataset)
    ensures Plot(b, id, d).None? <==> b.Get(id).hidden
    ensures Plot(b, id, d).Some? && id != Pca ==>
      match Plot(b, id, d).value
      case Bars(ls, hs) => |ls| == |hs|
      case Line(ls, vs) => |ls| == |vs|
      case Scatter(_, _, _, _, _) => false
  {
  }

  /** A click that activates a section schedules a render that, when it
      fires, draws whatever document it is given. */
  lemma ActivationRenders(b: Board, id: SectionId, d: Dataset)
    requires !b.Get(id).active
    ensures Toggle(b, id).1 == Some(id)
    ensures Plot(Toggle(b, id).0, id, d).Some?
  {
  }

  /** A scheduled render that fires after a second click has hidden the
      section again draws nothing. */
  lemma LateRenderAfterHideIsNoop(b: Board, id: SectionId, d: Dataset)
    requires !b.Get(id).active
    ensures Plot(Toggle(Toggle(b, id).0, id).0, id, d).None?
  {
  }

  /** Plotting one section depends only on that section's panel. */
  lemma PlotIgnoresOtherSections(b: Board, id: SectionId, other: SectionId, d: Dataset)
    requires other != id
    ensures Plot(Toggle(b, other).0, id, d) == Plot(b, id, d)
  {
  }

  /** The order of the first render pass: the projection, then the
      contributions, then the cumulative chart. */
  function Rank(id: SectionId): nat
  {
    match id
    case Pca => 0
    case Contribution => 1
    case Cumulative => 2
  }

  /** One step of the first render pass: the plot function of an active
      section is called, and draws if the section is not hidden. */
  function RenderIfActive(b: Board, id: SectionId, d: Dataset): seq<(SectionId, Chart)>
  {
    if b.Get(id).active then
      match Plot(b, id, d)
      case Some(c) => [(id, c)]
      case None => []
    else []
  }

  /** The first render pass after a successful load: each entry is the
      chart its section's plot function draws, in the fixed order. */
  function InitialRender(b: Board, d: Dataset): (r: seq<(SectionId, Chart)>)
    ensures forall k :: 0 <= k < |r| ==> Plot(b, r[k].0, d) == Some(r[k].1) && b.Get(r[k].0).active
    ensures forall k, l :: 0 <= k < l < |r| ==> Rank(r[k].0) < Rank(r[l].0)
  {
    RenderIfActive(b, Pca, d) + RenderIfActive(b, Contribution, d) + RenderIfActive(b, Cumulative, d)
  }

  /** The first render pass draws exactly the sections that are both
      active and shown. */
  lemma InitialRenderSections(b: Board, d: Dataset, id: SectionId)
    ensures (exists k :: 0 <= k < |InitialRender(b, d)| && InitialRender(b, d)[k].0 == id)
            <==> b.Get(id).active && !b.Get(id).hidden
  {
    var p := RenderIfActive(b, Pca, d);
    var q := RenderIfActive(b, Contribution, d);
    var s := RenderIfActive(b, Cumulative, d);
    var r := InitialRender(b, d);
    assert r == p + q + s;
    PlotGuard(b, id, d);
    if b.Get(id).active && !b.Get(id).hidden {
      match id
      case Pca => assert r[0].0 == Pca;
      case Contribution => assert r[|p|].0 == Contribution;
      case Cumulative => assert r[|p| + |q|].0 == Cumulative;
    } else {
      assert RenderIfActive(b, id, d) == [];
      forall k | 0 <= k < |r|
        ensures r[k].0 != id
      {
        if k < |p| {
          assert r[k] == p[k];
        } else if k < |p| + |q| {
          assert r[k] == q[k - |p|];
        } else {
          assert r[k] == s[k - |p| - |q|];
        }
      }
    }
  }
}
