/** The time token of a point label (script.js, `plotPCA`): the leftmost
    match of `(\d+(?:\.\d+)?)\s*(fs|ps|ns)`, read as a decimal number and
    normalised to picoseconds. */
module TimeToken {
  import opened Wrappers
  import opened Decimal

  datatype Unit = Fs | Ps | Ns

  function UnitName(u: Unit): string
  {
    match u
    case Fs => "fs"
    case Ps => "ps"
    case Ns => "ns"
  }

  /** JavaScript's `\s`: the WhiteSpace and LineTerminator code points of
      ECMAScript. */
  predicate IsSpace(c: char)
  {
    || c == '\t' || c == '\n' || c == '\U{000B}' || c == '\U{000C}' || c == '\r'
    || c == ' ' || c == '\U{00A0}' || c == '\U{1680}'
    || ('\U{2000}' <= c <= '\U{200A}')
    || c == '\U{2028}' || c == '\U{2029}' || c == '\U{202F}' || c == '\U{205F}'
    || c == '\U{3000}' || c == '\U{FEFF}'
  }

  /** One match of the pattern: the digits of `s[start..intEnd]`, an optional
      fraction `s[intEnd..fracEnd]` (a dot and digits, or empty), whitespace up
      to `unitAt`, and the unit name at `unitAt`. */
  datatype Span = Span(start: nat, intEnd: nat, fracEnd: nat, unitAt: nat, unit: Unit)

  /** The language of the regular expression at one start position, with
      every choice the backtracking matcher could make left open. */
  ghost predicate IsMatchSpan(s: string, m: Span)
  {
    && m.start < m.intEnd <= m.fracEnd <= m.unitAt && m.unitAt + 2 <= |s|
    && (forall k :: m.start <= k < m.intEnd ==> IsDigit(s[k]))
    && (m.fracEnd == m.intEnd
        || (s[m.intEnd] == '.' && m.intEnd + 1 < m.fracEnd
            && forall k :: m.intEnd + 1 <= k < m.fracEnd ==> IsDigit(s[k])))
    && (forall k :: m.fracEnd <= k < m.unitAt ==> IsSpace(s[k]))
    && s[m.unitAt..m.unitAt + 2] == UnitName(m.unit)
  }

  /** End of the longest digit run starting at `i`. */
  function DigitRunEnd(s: string, i: nat): (j: nat)
    requires i <= |s|
    ensures i <= j <= |s|
    ensures forall k :: i <= k < j ==> IsDigit(s[k])
    ensures j == |s| || !IsDigit(s[j])
    decreases |s| - i
  {
    if i < |s| && IsDigit(s[i]) then DigitRunEnd(s, i + 1) else i
  }

  /** End of the longest whitespace run starting at `i`. */
  function SpaceRunEnd(s: string, i: nat): (j: nat)
    requires i <= |s|
    ensures i <= j <= |s|
    ensures forall k :: i <= k < j ==> IsSpace(s[k])
    ensures j == |s| || !IsSpace(s[j])
    decreases |s| - i
  {
    if i < |s| && IsSpace(s[i]) then SpaceRunEnd(s, i + 1) else i
  }

  /** The unit name at position `w`, if any. */
  function UnitAt(s: string, w: nat): (r: Option<Unit>)
    ensures r.Some? <==> w + 2 <= |s| && s[w..w + 2] in {"fs", "ps", "ns"}
    ensures r.Some? ==> s[w..w + 2] == UnitName(r.value)
  {
    if w + 2 <= |s| then
      if s[w..w + 2] == "fs" then Some(Fs)
      else if s[w..w + 2] == "ps" then Some(Ps)
      else if s[w..w + 2] == "ns" then Some(Ns)
      else None
    else None
  }

  /** The matcher at a fixed start: greedy digits, the fraction when a dot
      followed by a digit comes next, greedy whitespace, then a unit. */
  function MatchAt(s: string, i: nat): (r: Option<Span>)
    requires i <= |s|
    ensures r.Some? ==> r.value.start == i
  {
    var a := DigitRunEnd(s, i);
    if a == i then None
    else
      var b := if a + 1 < |s| && s[a] == '.' && IsDigit(s[a + 1]) then DigitRunEnd(s, a + 1) else a;
      var w := SpaceRunEnd(s, b);
      match UnitAt(s, w)
      case Some(u) => Some(Span(i, a, b, w, u))
      case None => None
  }

  /** A match starts with a digit and spans at least three characters. */
  lemma MatchShape(s: string, m: Span)
    requires IsMatchSpan(s, m)
    ensures IsDigit(s[m.start]) && m.start + 3 <= |s|
  {
  }

  /** Whatever the matcher returns is a match of the pattern. */
  lemma MatchAtSound(s: string, i: nat)
    requires i <= |s|
    ensures MatchAt(s, i).Some? ==> MatchAt(s, i).value.start == i && IsMatchSpan(s, MatchAt(s, i).value)
  {
  }

  /** A digit run that ends at a non-digit is the longest one. */
  lemma {:induction false} DigitRunEndAt(s: string, i: nat, j: nat)
    requires i <= j <= |s|
    requires forall k :: i <= k < j ==> IsDigit(s[k])
    requires j == |s| || !IsDigit(s[j])
    ensures DigitRunEnd(s, i) == j
    decreases j - i
  {
    if i < j {
      DigitRunEndAt(s, i + 1, j);
    }
  }

  /** A whitespace run that ends at a non-space is the longest one. */
  lemma {:induction false} SpaceRunEndAt(s: string, i: nat, j: nat)
    requires i <= j <= |s|
    requires forall k :: i <= k < j ==> IsSpace(s[k])
    requires j == |s| || !IsSpace(s[j])
    ensures SpaceRunEnd(s, i) == j
    decreases j - i
  {
    if i < j {
      SpaceRunEndAt(s, i + 1, j);
    }
  }

  /** The first letter of a unit name is no digit, space or dot. */
  lemma UnitLetter(s: string, m: Span)
    requires IsMatchSpan(s, m)
    ensures !IsDigit(s[m.unitAt]) && !IsSpace(s[m.unitAt]) && s[m.unitAt] != '.'
  {
    assert s[m.unitAt] == s[m.unitAt..m.unitAt + 2][0];
    assert s[m.unitAt] in {'f', 'p', 'n'};
  }

  /** The character after a match's digits is a dot, a space or a unit
      letter, so the digit run of a match is the longest one. */
  lemma IntEndOfMatch(s: string, m: Span)
    requires IsMatchSpan(s, m)
    ensures DigitRunEnd(s, m.start) == m.intEnd
    ensures m.fracEnd == m.intEnd ==> s[m.intEnd] != '.'
  {
    UnitLetter(s, m);
    assert !IsDigit(s[m.intEnd]);
    DigitRunEndAt(s, m.start, m.intEnd);
  }

  /** A match's fraction digits are the longest run after the dot. */
  lemma FracEndOfMatch(s: string, m: Span)
    requires IsMatchSpan(s, m) && m.fracEnd > m.intEnd
    ensures DigitRunEnd(s, m.intEnd + 1) == m.fracEnd
  {
    UnitLetter(s, m);
    assert !IsDigit(s[m.fracEnd]);
    DigitRunEndAt(s, m.intEnd + 1, m.fracEnd);
  }

  /** The scanner's choice about the fraction agrees with every match. */
  lemma FractionChoiceOfMatch(s: string, m: Span)
    requires IsMatchSpan(s, m)
    ensures (if m.intEnd + 1 < |s| && s[m.intEnd] == '.' && IsDigit(s[m.intEnd + 1])
             then DigitRunEnd(s, m.intEnd + 1) else m.intEnd) == m.fracEnd
  {
    IntEndOfMatch(s, m);
    if m.fracEnd > m.intEnd {
      FracEndOfMatch(s, m);
    }
  }

  /** Every match of the pattern is the one the matcher returns: once the
      start is fixed, backtracking cannot produce a different match. */
  lemma MatchAtComplete(s: string, m: Span)
    requires IsMatchSpan(s, m)
    ensures MatchAt(s, m.start) == Some(m)
  {
    IntEndOfMatch(s, m);
    FractionChoiceOfMatch(s, m);
    UnitLetter(s, m);
    SpaceRunEndAt(s, m.fracEnd, m.unitAt);
    UnitAtOfMatch(s, m);
    MatchAtOfRuns(s, m);
  }

  /** The scanner's result is fixed by the three run ends and the unit. */
  lemma MatchAtOfRuns(s: string, m: Span)
    requires m.start < m.intEnd <= |s| && DigitRunEnd(s, m.start) == m.intEnd
    requires (if m.intEnd + 1 < |s| && s[m.intEnd] == '.' && IsDigit(s[m.intEnd + 1])
              then DigitRunEnd(s, m.intEnd + 1) else m.intEnd) == m.fracEnd
    requires m.fracEnd <= |s| && SpaceRunEnd(s, m.fracEnd) == m.unitAt
    requires UnitAt(s, m.unitAt) == Some(m.unit)
    ensures MatchAt(s, m.start) == Some(m)
  {
  }

  /** The scanner reads a match's unit at the match's unit position. */
  lemma UnitAtOfMatch(s: string, m: Span)
    requires IsMatchSpan(s, m)
    ensures UnitAt(s, m.unitAt) == Some(m.unit)
  {
  }

  /** The matcher's outcome at each start position `0..|s|`, in order. */
  function Attempts(s: string): (a: seq<Option<Span>>)
    ensures |a| == |s| + 1
    ensures forall j :: 0 <= j < |a| ==> a[j] == MatchAt(s, j)
  {
    seq(|s| + 1, j requires 0 <= j <= |s| => MatchAt(s, j))
  }

  /** The first position at or after `i` whose attempt succeeded. */
  function FirstHit(a: seq<Option<Span>>, i: nat): (k: Option<nat>)
    requires i <= |a|
    ensures k.Some? ==> i <= k.value < |a| && a[k.value].Some?
    ensures k.Some? ==> forall j :: i <= j < k.value ==> a[j].None?
    ensures k.None? ==> forall j :: i <= j < |a| ==> a[j].None?
    decreases |a| - i
  {
    if i == |a| then None
    else if a[i].Some? then Some(i)
    else FirstHit(a, i + 1)
  }

  /** The regular expression's search: the match at the leftmost start
      where the matcher succeeds. */
  function Search(s: string): (r: Option<Span>)
    ensures r.Some? ==> r.value.start <= |s| && MatchAt(s, r.value.start) == r
    ensures r.Some? ==> forall j :: 0 <= j < r.value.start ==> MatchAt(s, j).None?
    ensures r.None? ==> forall j :: 0 <= j <= |s| ==> MatchAt(s, j).None?
  {
    var a := Attempts(s);
    match FirstHit(a, 0)
    case None => None
    case Some(k) => a[k]
  }

  /** The number a match captures, read exactly: the integer digits, then
      the fraction digits when the match has a fraction. */
  function Magnitude(s: string, m: Span): (v: real)
    requires IsMatchSpan(s, m)
    ensures DigitsToNat(s[m.start..m.intEnd]) as real <= v < DigitsToNat(s[m.start..m.intEnd]) as real + 1.0
    ensures m.fracEnd == m.intEnd ==> v == DigitsToNat(s[m.start..m.intEnd]) as real
    ensures m.fracEnd > m.intEnd ==>
      ScalesTo(v, Pow10(m.fracEnd - m.intEnd - 1), DigitsToNat(s[m.start..m.intEnd] + s[m.intEnd + 1..m.fracEnd]))
  {
    var whole := s[m.start..m.intEnd];
    assert AllDigits(whole);
    if m.fracEnd == m.intEnd then DecimalValue(whole, "")
    else
      var frac := s[m.intEnd + 1..m.fracEnd];
      assert AllDigits(frac);
      DecimalValue(whole, frac)
  }

  /** Conversion to picoseconds. */
  function ToPicoseconds(v: real, u: Unit): (ps: real)
    ensures u == Fs ==> ps * 1000.0 == v
    ensures u == Ps ==> ps == v
    ensures u == Ns ==> ps == v * 1000.0
  {
    match u
    case Fs => v / 1000.0
    case Ps => v
    case Ns => v * 1000.0
  }

  /** The time of a label in picoseconds, or `None` when it has no token. */
  function LabelTime(s: string): (r: Option<real>)
    ensures r.Some? ==> r.value >= 0.0
  {
    match Search(s)
    case None => None
    case Some(m) =>
      MatchAtSound(s, m.start);
      Some(ToPicoseconds(Magnitude(s, m), m.unit))
  }

  /** A label has no time exactly when the pattern matches nowhere in it. */
  lemma NoTimeIffNoMatch(s: string)
    ensures LabelTime(s).None? <==> forall m :: !IsMatchSpan(s, m)
  {
    if LabelTime(s).None? {
      forall m | IsMatchSpan(s, m)
        ensures false
      {
        MatchAtComplete(s, m);
      }
    } else {
      var m := Search(s).value;
      MatchAtSound(s, m.start);
    }
  }

  /** A label without a digit has no time. */
  lemma NoDigitNoTime(s: string)
    requires forall k :: 0 <= k < |s| ==> !IsDigit(s[k])
    ensures LabelTime(s) == None
  {
    forall m
      ensures !IsMatchSpan(s, m)
    {
      if IsMatchSpan(s, m) {
        MatchShape(s, m);
      }
    }
    NoTimeIffNoMatch(s);
  }

  /** The time comes from the leftmost match, whichever it is. */
  lemma TimeOfLeftmostMatch(s: string, m: Span)
    requires IsMatchSpan(s, m)
    requires forall m' :: IsMatchSpan(s, m') ==> m.start <= m'.start
    ensures LabelTime(s) == Some(ToPicoseconds(Magnitude(s, m), m.unit))
  {
    MatchAtComplete(s, m);
    var r := Search(s);
    assert MatchAt(s, m.start) == Some(m);
    assert r.Some? && r.value.start <= m.start;
    var found := r.value;
    MatchAtSound(s, found.start);
    assert IsMatchSpan(s, found);
    assert found.start == m.start;
    assert Some(found) == MatchAt(s, m.start);
  }
}

module TimeTokenExamples {
  import opened Wrappers
  import opened Decimal
  import opened TimeToken

  /** "frame_500fs" is 500 femtoseconds, that is 0.5 picoseconds. */
  lemma FemtosecondLabel()
    ensures LabelTime("frame_500fs") == Some(0.5)
  {
    var s := "frame_500fs";
    var m := Span(6, 9, 9, 9, Fs);
    assert s[6..9] == "500" && s[9..11] == "fs";
    assert IsMatchSpan(s, m);
    forall m' | IsMatchSpan(s, m')
      ensures m.start <= m'.start
    {
      assert IsDigit(s[m'.start]);
    }
    assert DigitsToNat("500") == 500 by {
      assert "500"[..2] == "50" && "50"[..1] == "5" && "5"[..0] == "";
    }
    TimeOfLeftmostMatch(s, m);
  }

  /** "t=2ns" is 2 nanoseconds, that is 2000 picoseconds. */
  lemma NanosecondLabel()
    ensures LabelTime("t=2ns") == Some(2000.0)
  {
    var s := "t=2ns";
    var m := Span(2, 3, 3, 3, Ns);
    assert s[2..3] == "2" && s[3..5] == "ns";
    assert IsMatchSpan(s, m);
    forall m' | IsMatchSpan(s, m')
      ensures m.start <= m'.start
    {
      assert IsDigit(s[m'.start]);
    }
    assert DigitsToNat("2") == 2 by {
      assert "2"[..0] == "";
    }
    TimeOfLeftmostMatch(s, m);
  }

  /** A fraction and whitespace before the unit: "t = 1.25 ps" is 1.25 ps. */
  lemma FractionLabel()
    ensures LabelTime("t = 1.25 ps") == Some(1.25)
  {
    var s := "t = 1.25 ps";
    var m := Span(4, 5, 8, 9, Ps);
    assert s[4] == '1' && s[5] == '.' && s[6] == '2';
    assert s[9..11] == "ps";
    assert IsMatchSpan(s, m);
    forall m' | IsMatchSpan(s, m')
      ensures m.start <= m'.start
    {
      assert IsDigit(s[m'.start]);
    }
    assert DigitsToNat(s[4..5]) == 1 by {
      assert s[4..5] == "1" && "1"[..0] == "";
    }
    assert DigitsToNat(s[6..8]) == 25 by {
      assert s[6..8] == "25" && "25"[..1] == "2" && "2"[..0] == "";
    }
    assert Pow10(2) == 100;
    assert Magnitude(s, m) == 1.0 + 25.0 / 100.0;
    TimeOfLeftmostMatch(s, m);
  }

  /** A zero time is a time: "0ps" yields 0, not "no time". */
  lemma ZeroIsATime()
    ensures LabelTime("0ps") == Some(0.0)
  {
    var s := "0ps";
    var m := Span(0, 1, 1, 1, Ps);
    assert s[0..1] == "0" && s[1..3] == "ps";
    assert IsMatchSpan(s, m);
    assert DigitsToNat("0") == 0 by {
      assert "0"[..0] == "";
    }
    TimeOfLeftmostMatch(s, m);
  }

  /** A unit without a number, or a number without a unit, is no time. */
  lemma NoTokenLabel()
    ensures LabelTime("run_ps_7") == None
  {
    var s := "run_ps_7";
    assert forall k :: 0 <= k < 6 ==> !IsDigit(s[k]);
    forall m
      ensures !IsMatchSpan(s, m)
    {
      if IsMatchSpan(s, m) {
        MatchShape(s, m);
      }
    }
    NoTimeIffNoMatch(s);
  }
}
