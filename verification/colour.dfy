/** The colour encoding of the projection scatter (script.js, `plotPCA`):
    one colour value per point and the colour-bar title. */
module Colour {
  import opened Wrappers
  import opened TimeToken

  const TimeTitle: string := "Time (ps)"
  const IndexTitle: string := "File Index"

  datatype Encoding = Encoding(values: seq<real>, title: string)

  /** Some label carries a time token. */
  predicate AnyTime(labels: seq<string>)
  {
    exists i :: 0 <= i < |labels| && LabelTime(labels[i]).Some?
  }

  /** The per-label times, `None` where a label has no token. */
  function Times(labels: seq<string>): (ts: seq<Option<real>>)
    ensures |ts| == |labels|
    ensures forall i :: 0 <= i < |labels| ==> ts[i] == LabelTime(labels[i])
  {
    seq(|labels|, i requires 0 <= i < |labels| => LabelTime(labels[i]))
  }

  /** How many entries are present: the length of the times filtered to
      the non-null ones. */
  function CountPresent(ts: seq<Option<real>>): nat
    decreases |ts|
  {
    if |ts| == 0 then 0
    else CountPresent(ts[..|ts| - 1]) + (if ts[|ts| - 1].Some? then 1 else 0)
  }

  /** The filtered list is non-empty exactly when some entry is present. */
  lemma {:induction false} CountPresentPositive(ts: seq<Option<real>>)
    ensures CountPresent(ts) > 0 <==> exists i :: 0 <= i < |ts| && ts[i].Some?
    decreases |ts|
  {
    if |ts| > 0 {
      var init := ts[..|ts| - 1];
      CountPresentPositive(init);
      if exists i :: 0 <= i < |init| && init[i].Some? {
        var i :| 0 <= i < |init| && init[i].Some?;
        assert ts[i].Some?;
      }
      if exists i :: 0 <= i < |ts| && ts[i].Some? {
        var i :| 0 <= i < |ts| && ts[i].Some?;
        if i < |init| {
          assert init[i].Some?;
        }
      }
    }
  }

  /** The fallback rule: when any label has a time, each point takes its
      time, or its index when it has none, under the title "Time (ps)";
      when no label has a time, each point takes its index under
      "File Index". */
  function Encode(labels: seq<string>): (e: Encoding)
    ensures |e.values| == |labels|
    ensures e.title == TimeTitle <==> AnyTime(labels)
    ensures e.title == IndexTitle <==> !AnyTime(labels)
    ensures !AnyTime(labels) ==> forall i :: 0 <= i < |labels| ==> e.values[i] == i as real
    ensures AnyTime(labels) ==>
      forall i :: 0 <= i < |labels| && LabelTime(labels[i]).Some? ==> e.values[i] == LabelTime(labels[i]).value
    ensures forall i :: 0 <= i < |labels| && LabelTime(labels[i]).None? ==> e.values[i] == i as real
  {
    var ts := Times(labels);
    CountPresentPositive(ts);
    if CountPresent(ts) > 0 then Encoding(TimeOrIndex(ts), TimeTitle) else Encoding(Indices(|labels|), IndexTitle)
  }

  /** Each present time, with the index standing in for an absent one. */
  function TimeOrIndex(ts: seq<Option<real>>): (vs: seq<real>)
    ensures |vs| == |ts|
    ensures forall i :: 0 <= i < |ts| ==> vs[i] == if ts[i].None? then i as real else ts[i].value
  {
    seq(|ts|, i requires 0 <= i < |ts| => if ts[i].None? then i as real else ts[i].value)
  }

  /** The indices 0, 1, ..., n - 1. */
  function Indices(n: nat): (vs: seq<real>)
    ensures |vs| == n && forall i :: 0 <= i < n ==> vs[i] == i as real
  {
    seq(n, i requires 0 <= i < n => i as real)
  }

  /** A point's colour depends on the other labels only through whether
      any of them has a time. */
  lemma ColourIsLocal(labels: seq<string>, labels': seq<string>, i: nat)
    requires i < |labels| && i < |labels'| && labels[i] == labels'[i]
    requires AnyTime(labels) == AnyTime(labels')
    ensures Encode(labels).values[i] == Encode(labels').values[i]
    ensures Encode(labels).title == Encode(labels').title
  {
  }
}

module ColourExamples {
  import opened Wrappers
  import opened TimeToken
  import opened TimeTokenExamples
  import opened Colour

  /** Two labels, the first timed and the second not. */
  lemma TimedThenUntimed(first: string, second: string, t: real)
    requires LabelTime(first) == Some(t) && LabelTime(second) == None
    ensures Encode([first, second]) == Encoding([t, 1.0], TimeTitle)
  {
    var labels := [first, second];
    assert LabelTime(labels[0]).Some?;
    var e := Encode(labels);
    assert |e.values| == 2 && e.values[0] == t && e.values[1] == 1.0;
    PairOf(e.values, t, 1.0);
  }

  /** A label without a token falls back to its index while its sibling
      keeps its time, and the title names the time. */
  lemma MixedLabels()
    ensures Encode(["frame_500fs", "B"]) == Encoding([0.5, 1.0], TimeTitle)
  {
    FemtosecondLabel();
    NoTimeIffNoMatch("B");
    TimedThenUntimed("frame_500fs", "B", 0.5);
  }

  /** With no token anywhere, every colour is the point's index. */
  lemma UntimedLabels()
    ensures Encode(["A", "B"]) == Encoding([0.0, 1.0], IndexTitle)
  {
    NoDigitNoTime("A");
    NoDigitNoTime("B");
    BothUntimed("A", "B");
  }

  /** Two labels without a time are coloured by index. */
  lemma BothUntimed(first: string, second: string)
    requires LabelTime(first) == None && LabelTime(second) == None
    ensures Encode([first, second]) == Encoding([0.0, 1.0], IndexTitle)
  {
    var labels := [first, second];
    assert LabelTime(labels[0]) == None && LabelTime(labels[1]) == None;
    var e := Encode(labels);
    assert |e.values| == 2 && e.values[0] == 0.0 && e.values[1] == 1.0;
    PairOf(e.values, 0.0, 1.0);
  }

  lemma PairOf(v: seq<real>, a: real, b: real)
    requires |v| == 2 && v[0] == a && v[1] == b
    ensures v == [a, b]
  {
  }
}
