/** Reading a duration text such as "1d 2h 3m" back into its parts. The
    timelines only write these texts; the reader is the independent
    description against which both writers are checked: each text reads
    back as the parts it was written from. */
module DurationText {
  import opened Wrappers
  import opened Text
  import opened TimelineView

  /** One written component: a count and its unit letter. */
  datatype Component = Component(count: nat, unit: char)

  predicate IsUnit(c: char) {
    c == 'd' || c == 'h' || c == 'm'
  }

  /** Position of a unit in the order the texts use: days, hours, minutes. */
  function UnitRank(c: char): nat {
    if c == 'd' then 0 else if c == 'h' then 1 else 2
  }

  // ---------------------------------------------------------------------
  // Writing.

  /** A component as the template literals write it: "12h". */
  function Written(c: Component): string {
    NatToString(c.count) + [c.unit]
  }

  /** Components separated by single spaces. */
  function Joined(cs: seq<Component>): string
    decreases |cs|
  {
    if |cs| == 0 then ""
    else if |cs| == 1 then Written(cs[0])
    else Written(cs[0]) + " " + Joined(cs[1..])
  }

  /** Components each followed by a space, as in "1d 2h ". */
  function Spaced(cs: seq<Component>): string
    decreases |cs|
  {
    if |cs| == 0 then "" else Written(cs[0]) + " " + Spaced(cs[1..])
  }

  /** The component for `unit` when it is written at all. */
  function Part(present: bool, count: int, unit: char): seq<Component>
    requires present ==> count >= 0
  {
    if present then [Component(count, unit)] else []
  }

  lemma {:induction false} SpacedAppend(a: seq<Component>, b: seq<Component>)
    ensures Spaced(a + b) == Spaced(a) + Spaced(b)
    decreases |a|
  {
    if |a| == 0 {
      assert a + b == b;
    } else {
      assert (a + b)[1..] == a[1..] + b;
      SpacedAppend(a[1..], b);
    }
  }

  lemma {:induction false} SpacedIsJoinedThenSpace(cs: seq<Component>)
    requires |cs| > 0
    ensures Spaced(cs) == Joined(cs) + " "
    decreases |cs|
  {
    if |cs| > 1 {
      SpacedIsJoinedThenSpace(cs[1..]);
    }
  }

  lemma {:induction false} SpacedThenLast(a: seq<Component>, c: Component)
    ensures Spaced(a) + Written(c) == Joined(a + [c])
    decreases |a|
  {
    if |a| == 0 {
      assert a + [c] == [c];
    } else {
      assert (a + [c])[1..] == a[1..] + [c];
      SpacedThenLast(a[1..], c);
    }
  }

  /** A joined text starts with a digit and ends with the last unit. */
  lemma {:induction false} JoinedEnds(cs: seq<Component>)
    requires |cs| > 0
    ensures |Joined(cs)| > 0 && IsDigit(Joined(cs)[0])
    ensures Joined(cs)[|Joined(cs)| - 1] == cs[|cs| - 1].unit
    decreases |cs|
  {
    if |cs| > 1 {
      JoinedEnds(cs[1..]);
    }
  }

  // ---------------------------------------------------------------------
  // Reading.

  /** Length of the run of digits `s` starts with. */
  function DigitRun(s: string): (k: nat)
    ensures k <= |s|
    ensures forall i :: 0 <= i < k ==> IsDigit(s[i])
    ensures k < |s| ==> !IsDigit(s[k])
    decreases |s|
  {
    if |s| > 0 && IsDigit(s[0]) then 1 + DigitRun(s[1..]) else 0
  }

  /** The components of a text: each a run of digits and a unit letter,
      optionally followed by one space. Anything else is unreadable. */
  function ReadComponents(s: string): Option<seq<Component>>
    decreases |s|
  {
    if |s| == 0 then Some([])
    else
      var k := DigitRun(s);
      if k == 0 || k == |s| || !IsUnit(s[k]) then None
      else
        var after := s[k + 1..];
        var rest := if |after| > 0 && after[0] == ' ' then after[1..] else after;
        match ReadComponents(rest)
        case None => None
        case Some(cs) => Some([Component(DigitsValue(s[..k]), s[k])] + cs)
  }

  /** The parts with the component's unit set to its count. */
  function Fill(p: DurationParts, c: Component): DurationParts {
    if c.unit == 'd' then p.(days := c.count)
    else if c.unit == 'h' then p.(hours := c.count)
    else p.(minutes := c.count)
  }

  /** The parts named by components in unit order, each unit at most once
      and none before rank `from`; a unit not written is 0. */
  function Assemble(cs: seq<Component>, from: nat): Option<DurationParts>
    decreases |cs|
  {
    if |cs| == 0 then Some(DurationParts(0, 0, 0))
    else if UnitRank(cs[0].unit) < from then None
    else
      match Assemble(cs[1..], UnitRank(cs[0].unit) + 1)
      case None => None
      case Some(p) => Some(Fill(p, cs[0]))
  }

  /** The parts a duration text names, or `None` when it is not one. */
  function ReadDuration(s: string): Option<DurationParts> {
    match ReadComponents(s)
    case None => None
    case Some(cs) => Assemble(cs, 0)
  }

  /** A digit run stops where the numeral does. */
  lemma {:induction false} DigitRunOfNumeral(a: string, rest: string)
    requires forall i :: 0 <= i < |a| ==> IsDigit(a[i])
    requires |rest| > 0 && !IsDigit(rest[0])
    ensures DigitRun(a + rest) == |a|
    decreases |a|
  {
    if |a| == 0 {
      assert a + rest == rest;
    } else {
      assert (a + rest)[1..] == a[1..] + rest;
      DigitRunOfNumeral(a[1..], rest);
    }
  }

  /** Reading a written component, followed by a space and more text or by
      nothing, yields the component and then whatever the rest yields. */
  lemma ReadOneComponent(c: Component, sep: string, rest: string)
    requires IsUnit(c.unit)
    requires sep == " " || (sep == "" && rest == "")
    ensures ReadComponents(Written(c) + sep + rest)
         == match ReadComponents(rest)
            case None => None
            case Some(cs) => Some([c] + cs)
  {
    var n := NatToString(c.count);
    var after := sep + rest;
    var s := n + ([c.unit] + after);
    assert Written(c) + sep + rest == s;
    assert DigitRun(s) == |n| by {
      DigitRunOfNumeral(n, [c.unit] + after);
    }
    assert s[..|n|] == n;
    assert DigitsValue(n) == c.count by {
      NatToStringRoundTrip(c.count);
    }
    assert s[|n|] == c.unit;
    assert s[|n| + 1..] == after;
    assert (if |after| > 0 && after[0] == ' ' then after[1..] else after) == rest by {
      if sep == " " {
        assert after[1..] == rest;
      }
    }
  }

  /** Joined components read back as themselves. */
  lemma {:induction false} ReadJoined(cs: seq<Component>)
    requires forall i :: 0 <= i < |cs| ==> IsUnit(cs[i].unit)
    ensures ReadComponents(Joined(cs)) == Some(cs)
    decreases |cs|
  {
    if |cs| == 1 {
      ReadOneComponent(cs[0], "", "");
      assert Written(cs[0]) + "" + "" == Written(cs[0]);
      assert [cs[0]] + [] == cs;
    } else if |cs| > 1 {
      ReadJoined(cs[1..]);
      ReadOneComponent(cs[0], " ", Joined(cs[1..]));
      assert [cs[0]] + cs[1..] == cs;
    }
  }

  lemma AssembleFront(c: Component, rest: seq<Component>, from: nat)
    requires UnitRank(c.unit) >= from
    ensures Assemble([c] + rest, from)
         == match Assemble(rest, UnitRank(c.unit) + 1)
            case None => None
            case Some(p) => Some(Fill(p, c))
  {
    assert ([c] + rest)[1..] == rest;
  }

  lemma AssembleMinutes(bm: bool, m: int, from: nat)
    requires bm ==> m >= 0
    requires from <= 2
    ensures Assemble(Part(bm, m, 'm'), from) == Some(DurationParts(0, 0, if bm then m else 0))
  {
    if bm {
      AssembleFront(Component(m, 'm'), [], from);
      assert [Component(m, 'm')] + [] == Part(bm, m, 'm');
    }
  }

  lemma AssembleHours(bh: bool, h: int, bm: bool, m: int, from: nat)
    requires bh ==> h >= 0
    requires bm ==> m >= 0
    requires from <= 1
    ensures Assemble(Part(bh, h, 'h') + Part(bm, m, 'm'), from)
         == Some(DurationParts(0, if bh then h else 0, if bm then m else 0))
  {
    if bh {
      AssembleFront(Component(h, 'h'), Part(bm, m, 'm'), from);
      AssembleMinutes(bm, m, 2);
    } else {
      assert Part(bh, h, 'h') + Part(bm, m, 'm') == Part(bm, m, 'm');
      AssembleMinutes(bm, m, from);
    }
  }

  /** Components in unit order, each written at most once, assemble into
      the parts they name, with 0 for a unit left out. */
  lemma AssembleParts(bd: bool, d: int, bh: bool, h: int, bm: bool, m: int)
    requires bd ==> d >= 0
    requires bh ==> h >= 0
    requires bm ==> m >= 0
    ensures Assemble(Part(bd, d, 'd') + Part(bh, h, 'h') + Part(bm, m, 'm'), 0)
         == Some(DurationParts(if bd then d else 0, if bh then h else 0, if bm then m else 0))
  {
    var hm := Part(bh, h, 'h') + Part(bm, m, 'm');
    assert Part(bd, d, 'd') + Part(bh, h, 'h') + Part(bm, m, 'm') == Part(bd, d, 'd') + hm;
    if bd {
      AssembleFront(Component(d, 'd'), hm, 0);
      AssembleHours(bh, h, bm, m, 1);
    } else {
      assert Part(bd, d, 'd') + hm == hm;
      AssembleHours(bh, h, bm, m, 0);
    }
  }

  // ---------------------------------------------------------------------
  // The two timelines' texts read back.

  /** Components in unit order, joined, read back as the parts they name. */
  lemma ReadPartsBack(bd: bool, d: int, bh: bool, h: int, bm: bool, m: int)
    requires bd ==> d >= 0
    requires bh ==> h >= 0
    requires bm ==> m >= 0
    ensures ReadDuration(Joined(Part(bd, d, 'd') + Part(bh, h, 'h') + Part(bm, m, 'm')))
         == Some(DurationParts(if bd then d else 0, if bh then h else 0, if bm then m else 0))
  {
    var cs := Part(bd, d, 'd') + Part(bh, h, 'h') + Part(bm, m, 'm');
    forall i | 0 <= i < |cs|
      ensures IsUnit(cs[i].unit)
    {
    }
    ReadJoined(cs);
    AssembleParts(bd, d, bh, h, bm, m);
  }

  /** The toolkit label is its present components joined. */
  lemma DurationLabelIsJoined(p: DurationParts)
    requires p.days >= 0 && p.hours >= 0 && p.minutes >= 0
    ensures DurationLabel(p) == Joined(Part(p.days > 0, p.days, 'd') + Part(p.hours > 0 || p.days > 0, p.hours, 'h')
                                       + Part(true, p.minutes, 'm'))
  {
    var bd := p.days > 0;
    var bh := p.hours > 0 || p.days > 0;
    var front := Part(bd, p.days, 'd') + Part(bh, p.hours, 'h');
    var last := Component(p.minutes, 'm');
    SpacedAppend(Part(bd, p.days, 'd'), Part(bh, p.hours, 'h'));
    assert Spaced(Part(bd, p.days, 'd')) == if bd then IntToString(p.days) + "d " else "";
    assert Spaced(Part(bh, p.hours, 'h')) == if bh then IntToString(p.hours) + "h " else "";
    assert Written(last) == IntToString(p.minutes) + "m";
    SpacedThenLast(front, last);
  }

  /** The label of non-negative parts names exactly those parts: the
      numerals are the parts' decimal numerals. */
  lemma DurationLabelReadsBack(p: DurationParts)
    requires p.days >= 0 && p.hours >= 0 && p.minutes >= 0
    ensures ReadDuration(DurationLabel(p)) == Some(p)
  {
    DurationLabelIsJoined(p);
    ReadPartsBack(p.days > 0, p.days, p.hours > 0 || p.days > 0, p.hours, true, p.minutes);
  }

  /** The toolkit's text of a task of non-negative length reads back as
      the split of its length. */
  lemma FormatDurationReadsBack(ms: int)
    requires ms >= 0
    ensures ReadDuration(FormatDuration(ms)) == Some(SplitMillis(ms))
  {
    DurationLabelReadsBack(SplitMillis(ms));
  }

  /** The untrimmed positive-parts text: the days and hours pieces each
      followed by a space, then the minutes piece. */
  lemma PositiveTextIsSpaced(p: DurationParts)
    ensures PositivePartsText(p)
         == Spaced(Part(p.days > 0, p.days, 'd') + Part(p.hours > 0, p.hours, 'h'))
          + (if p.minutes > 0 then Written(Component(p.minutes, 'm')) else "")
  {
    SpacedAppend(Part(p.days > 0, p.days, 'd'), Part(p.hours > 0, p.hours, 'h'));
    SpacedPiece(p.days, 'd');
    SpacedPiece(p.hours, 'h');
    assert p.minutes > 0 ==> Piece(p.minutes, 'm', "") == Written(Component(p.minutes, 'm'));
  }

  /** A piece followed by its space is the spaced component. */
  lemma SpacedPiece(x: int, u: char)
    ensures Spaced(Part(x > 0, x, u)) == Piece(x, u, " ")
  {
    if x > 0 {
      assert Spaced([Component(x, u)]) == Written(Component(x, u)) + " " + Spaced([]);
    }
  }

  /** With positive minutes the text has no outer whitespace, so trimming
      leaves the joined components. */
  lemma PositiveLabelWithMinutes(p: DurationParts)
    requires p.minutes > 0
    ensures PositivePartsLabel(p)
         == Joined(Part(p.days > 0, p.days, 'd') + Part(p.hours > 0, p.hours, 'h') + Part(true, p.minutes, 'm'))
  {
    var front := Part(p.days > 0, p.days, 'd') + Part(p.hours > 0, p.hours, 'h');
    var last := Component(p.minutes, 'm');
    PositiveTextIsSpaced(p);
    SpacedThenLast(front, last);
    assert PositivePartsText(p) == Joined(front + [last]);
    JoinedEnds(front + [last]);
    TrimOfTrimmed(Joined(front + [last]));
  }

  /** Without positive minutes but with another positive part, trimming
      drops the one trailing space. */
  lemma PositiveLabelWithoutMinutes(p: DurationParts)
    requires p.minutes <= 0 && (p.days > 0 || p.hours > 0)
    ensures PositivePartsLabel(p) == Joined(Part(p.days > 0, p.days, 'd') + Part(p.hours > 0, p.hours, 'h'))
  {
    var front := Part(p.days > 0, p.days, 'd') + Part(p.hours > 0, p.hours, 'h');
    PositiveTextIsSpaced(p);
    SpacedIsJoinedThenSpace(front);
    assert PositivePartsText(p) == Joined(front) + " ";
    JoinedEnds(front);
    TrimDropsTrailingSpace(Joined(front));
  }

  /** The positive-parts label is its present components joined. */
  lemma PositiveLabelIsJoined(p: DurationParts)
    ensures PositivePartsLabel(p)
         == Joined(Part(p.days > 0, p.days, 'd') + Part(p.hours > 0, p.hours, 'h') + Part(p.minutes > 0, p.minutes, 'm'))
  {
    var front := Part(p.days > 0, p.days, 'd') + Part(p.hours > 0, p.hours, 'h');
    var cs := front + Part(p.minutes > 0, p.minutes, 'm');
    if p.minutes > 0 {
      PositiveLabelWithMinutes(p);
    } else if p.days > 0 || p.hours > 0 {
      assert cs == front;
      PositiveLabelWithoutMinutes(p);
    } else {
      assert cs == [];
      assert PositivePartsLabel(p) == "" by {
        assert PositivePartsText(p) == "";
        TrimOfTrimmed("");
      }
    }
  }

  /** The positive-parts label names the positive parts and nothing else:
      a part that is not positive reads as 0. */
  lemma PositivePartsLabelReadsBack(p: DurationParts)
    ensures ReadDuration(PositivePartsLabel(p))
         == Some(DurationParts(if p.days > 0 then p.days else 0,
                               if p.hours > 0 then p.hours else 0,
                               if p.minutes > 0 then p.minutes else 0))
  {
    PositiveLabelIsJoined(p);
    ReadPartsBack(p.days > 0, p.days, p.hours > 0, p.hours, p.minutes > 0, p.minutes);
  }

  /** The other timeline's text reads back as the positive parts of the
      split, for every length. */
  lemma TaskDurationTextReadsBack(ms: int)
    ensures var p := SplitMillis(ms);
      ReadDuration(TaskDurationText(ms))
        == Some(DurationParts(if p.days > 0 then p.days else 0,
                              if p.hours > 0 then p.hours else 0,
                              if p.minutes > 0 then p.minutes else 0))
  {
    PositivePartsLabelReadsBack(SplitMillis(ms));
  }
}
