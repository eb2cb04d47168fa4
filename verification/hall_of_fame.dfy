/** The hall-of-fame page (components/HallOfFamePage.tsx): the one shared
    flipped-card slot, the back face's accolades and stats, and the
    eligibility panel. */
module HallOfFame {
  import opened JsBuiltins

  /** A hall-of-fame entry as the member data supplies it. */
  datatype Member = Member(
    name: string,
    image: Option<string>,
    awards: Option<seq<string>>,
    stats: Option<string>)

  // ---------------------------------------------------------------------------
  // Flipped card

  /** Card `idx` shows its back face. */
  predicate IsFlipped(flippedMemberIdx: Option<nat>, idx: nat)
  {
    flippedMemberIdx == Some(idx)
  }

  /** The click on card `idx`: the slot is cleared when it held `idx` and set
      to `idx` otherwise. The clicked card changes face and every other card shows its front:
      the cards share one slot, so they are not independent. */
  function NextFlipped(flippedMemberIdx: Option<nat>, idx: nat): (r: Option<nat>)
    ensures IsFlipped(r, idx) <==> !IsFlipped(flippedMemberIdx, idx)
    ensures forall j: nat :: j != idx ==> !IsFlipped(r, j)
  {
    if flippedMemberIdx == Some(idx) then None else Some(idx)
  }

  /** `n` successive clicks on card `idx`. */
  function ClickTimes(flippedMemberIdx: Option<nat>, idx: nat, n: nat): Option<nat>
    decreases n
  {
    if n == 0 then flippedMemberIdx else ClickTimes(NextFlipped(flippedMemberIdx, idx), idx, n - 1)
  }

  /** Repeated clicks on one card alternate between that card and no card:
      after `n > 0` clicks card `idx` is flipped exactly when `n` is odd and it
      was not flipped before, or `n` is even and it was. */
  lemma {:induction false} ClickParity(flippedMemberIdx: Option<nat>, idx: nat, n: nat)
    requires n > 0
    ensures ClickTimes(flippedMemberIdx, idx, n) in {None, Some(idx)}
    ensures IsFlipped(ClickTimes(flippedMemberIdx, idx, n), idx) <==> (n % 2 == 1) == !IsFlipped(flippedMemberIdx, idx)
    decreases n
  {
    if n > 1 {
      ClickParity(NextFlipped(flippedMemberIdx, idx), idx, n - 1);
    }
  }

  /** Two clicks on a card that was not flipped leave no card flipped. */
  lemma DoubleClick(flippedMemberIdx: Option<nat>, idx: nat)
    requires !IsFlipped(flippedMemberIdx, idx)
    ensures ClickTimes(flippedMemberIdx, idx, 2) == None
  {
    ClickParity(flippedMemberIdx, idx, 2);
  }

  // ---------------------------------------------------------------------------
  // Accolades

  /** What the accolades block shows. */
  datatype Accolades = Badges(awards: seq<string>) | NoAwardsListed

  /** The badges, or the fallback when there are none to map: an array, even an
      empty one, is truthy, so the fallback shows only when `awards` is undefined. */
  function AccoladesOf(awards: Option<seq<string>>): (v: Accolades)
    ensures v == NoAwardsListed <==> awards.None?
    ensures v.Badges? ==> v.awards == awards.value
  {
    match awards
    case None => NoAwardsListed
    case Some(list) => Badges(list)
  }

  /** An empty award list renders no badges and no fallback. */
  lemma EmptyAwards()
    ensures AccoladesOf(Some([])) == Badges([])
  {
  }

  // ---------------------------------------------------------------------------
  // Stats

  /** The separator between the segments of a `stats` string: space, bullet, space. */
  const StatSeparator: string := " \U{2022} "

  /** One stat cell: the first two words of a segment split on single spaces
      (the component calls the second one the label). */
  datatype StatCell = StatCell(value: string, caption: Option<string>)

  /** The cell for one segment: the first two space-separated words. The
      value is the segment's leading run of non-spaces, and there is a label
      exactly when the segment has a space. */
  function ParseStat(stat: string): (cell: StatCell)
    ensures cell.value <= stat && NoSpace(cell.value)
    ensures cell.caption.None? <==> NoSpace(stat)
    ensures cell.caption.Some? ==> NoSpace(cell.caption.value)
  {
    var words := Split(stat, " ");
    NoSpaceFree(stat);
    NoSpaceFree(words[0]);
    if |words| > 1 then
      NoSpaceFree(words[1]);
      StatCell(words[0], Some(words[1]))
    else
      StatCell(words[0], None)
  }

  /** The stat cells: one per segment of `stats` split on the separator, none
      when `stats` is undefined. */
  function StatCells(stats: Option<string>): (cells: seq<StatCell>)
    ensures stats.None? ==> cells == []
    ensures stats.Some? ==> |cells| == |Split(stats.value, StatSeparator)|
  {
    match stats
    case None => []
    case Some(s) =>
      var segments := Split(s, StatSeparator);
      seq(|segments|, k requires 0 <= k < |segments| => ParseStat(segments[k]))
  }

  /** A string without spaces. */
  predicate NoSpace(w: string)
  {
    ' ' !in w
  }

  lemma NoSpaceFree(w: string)
    ensures NoSpace(w) <==> Free(w, " ")
  {
    if !NoSpace(w) {
      var i :| 0 <= i < |w| && w[i] == ' ';
      assert w[i..i + 1] == " ";
      assert OccursAt(w, " ", i);
    } else {
      forall i | 0 <= i <= |w| ensures !OccursAt(w, " ", i) {
        OccursAtChar(w, " ", i, 0);
      }
    }
  }

  /** A segment without a space is all value and has no caption. */
  lemma ParseStatNoLabel(stat: string)
    requires NoSpace(stat)
    ensures ParseStat(stat) == StatCell(stat, None)
  {
    NoSpaceFree(stat);
  }

  /** A segment `value caption rest`, where `rest` is empty or starts with a
      space, yields exactly `value` and `caption`; later words are dropped. */
  lemma ParseStatWords(value: string, caption: string, rest: string)
    requires NoSpace(value) && NoSpace(caption)
    requires rest == "" || rest[0] == ' '
    ensures ParseStat(value + " " + caption + rest) == StatCell(value, Some(caption))
  {
    var stat := value + " " + caption + rest;
    assert stat == value + " " + (caption + rest);
    SplitFirstWord(value, caption + rest);
    FirstWordIs(caption, rest);
    var words := Split(stat, " ");
    assert words == [value] + Split(caption + rest, " ");
    assert words[0] == value && words[1] == caption;
  }

  /** With no space in `w`, and `rest` empty or starting with a space, the
      first word of `w + rest` is `w`. */
  lemma FirstWordIs(w: string, rest: string)
    requires NoSpace(w)
    requires rest == "" || rest[0] == ' '
    ensures Split(w + rest, " ")[0] == w
  {
    if rest == "" {
      NoSpaceFree(w);
      assert w + rest == w;
    } else {
      assert w + rest == w + " " + rest[1..];
      SplitFirstWord(w, rest[1..]);
    }
  }

  /** Splitting `w + " " + rest` on spaces, with no space in `w`, gives `w`
      followed by the split of `rest`. */
  lemma SplitFirstWord(w: string, rest: string)
    requires NoSpace(w)
    ensures Split(w + " " + rest, " ") == [w] + Split(rest, " ")
  {
    var s := w + " " + rest;
    FirstSpaceAfter(w, rest);
    SplitAt(s, " ", |w|);
    assert s[..|w|] == w && s[|w| + 1..] == rest;
  }

  /** In `w + " " + rest`, with no space in `w`, the first space is the one after `w`. */
  lemma FirstSpaceAfter(w: string, rest: string)
    requires NoSpace(w)
    ensures IndexOf(w + " " + rest, " ") == Some(|w|)
  {
    forall j | 0 <= j < |w| ensures !OccursAt(w + " ", " ", j) {
      assert (w + " ")[j] == w[j];
    }
    FirstOccurrenceAfterPiece(w, " ", rest);
  }

  /** A word of a well-formed stats string: no space and no bullet. */
  predicate Word(w: string)
  {
    ' ' !in w && '\U{2022}' !in w
  }

  /** The segments `value caption` of a stats string. */
  function StatSegments(pairs: seq<(string, string)>): (segments: seq<string>)
    ensures |segments| == |pairs|
  {
    seq(|pairs|, k requires 0 <= k < |pairs| => pairs[k].0 + " " + pairs[k].1)
  }

  /** A stats string as the member data writes it, e.g. `"12 Rings • 3 MVPs"`. */
  function StatsString(pairs: seq<(string, string)>): string
  {
    Join(StatSegments(pairs), StatSeparator)
  }

  /** A well-formed stats string renders one cell per `value caption` pair,
      with that value and that caption, in order. */
  lemma StatsRoundTrip(pairs: seq<(string, string)>)
    requires |pairs| >= 1
    requires forall k :: 0 <= k < |pairs| ==> Word(pairs[k].0) && Word(pairs[k].1)
    ensures StatCells(Some(StatsString(pairs))) ==
            seq(|pairs|, k requires 0 <= k < |pairs| => StatCell(pairs[k].0, Some(pairs[k].1)))
  {
    var segments := StatSegments(pairs);
    forall k | 0 <= k < |segments| ensures NoBullet(segments[k]) {
      SegmentHasNoBullet(pairs[k].0, pairs[k].1);
    }
    SegmentsSeparable(segments);
    SplitJoin(segments, StatSeparator);
    CellsOfSegments(pairs);
  }

  /** The cells of the segments of well-formed pairs are the pairs themselves. */
  lemma CellsOfSegments(pairs: seq<(string, string)>)
    requires forall k :: 0 <= k < |pairs| ==> Word(pairs[k].0) && Word(pairs[k].1)
    ensures var segments := StatSegments(pairs);
            seq(|segments|, k requires 0 <= k < |segments| => ParseStat(segments[k])) ==
            seq(|pairs|, k requires 0 <= k < |pairs| => StatCell(pairs[k].0, Some(pairs[k].1)))
  {
    var segments := StatSegments(pairs);
    forall k | 0 <= k < |pairs| ensures ParseStat(segments[k]) == StatCell(pairs[k].0, Some(pairs[k].1)) {
      ParseStatWords(pairs[k].0, pairs[k].1, "");
      assert segments[k] == pairs[k].0 + " " + pairs[k].1 + "";
    }
  }

  /** No bullet in `s`. */
  predicate NoBullet(s: string)
  {
    '\U{2022}' !in s
  }

  lemma SegmentHasNoBullet(value: string, caption: string)
    requires Word(value) && Word(caption)
    ensures NoBullet(value + " " + caption)
  {
  }

  /** Segments without a bullet can be joined with the separator and split back. */
  lemma SegmentsSeparable(segments: seq<string>)
    requires |segments| >= 1
    requires forall k :: 0 <= k < |segments| ==> NoBullet(segments[k])
    ensures Separable(segments, StatSeparator)
  {
    var last := segments[|segments| - 1];
    forall j | 0 <= j <= |last| ensures !OccursAt(last, StatSeparator, j) {
      OccursAtChar(last, StatSeparator, j, 1);
    }
    forall k, j | 0 <= k < |segments| - 1 && 0 <= j < |segments[k]|
      ensures !OccursAt(segments[k] + StatSeparator, StatSeparator, j)
    {
      OccursAtChar(segments[k] + StatSeparator, StatSeparator, j, 1);
    }
  }

  /** An empty stats string still renders one empty cell, since `"".split(sep)` is `[""]`. */
  lemma EmptyStatsString()
    ensures StatCells(Some("")) == [StatCell("", None)]
  {
    NoSpaceFree("");
    assert Free("", StatSeparator);
  }

  // ---------------------------------------------------------------------------
  // Components

  /** The `HallOfFamePage` component: the member list it renders and the one
      flipped-card slot. */
  class HallOfFamePage {
    const members: seq<Member>
    var flippedMemberIdx: Option<nat>

    /** The flipped card, if any, is one of the rendered cards. */
    ghost predicate Valid()
      reads this
    {
      flippedMemberIdx.Some? ==> flippedMemberIdx.value < |members|
    }

    constructor (members: seq<Member>)
      ensures this.members == members && flippedMemberIdx == None && Valid()
    {
      this.members := members;
      flippedMemberIdx := None;
    }

    /** The click handler of card `idx`. */
    method ClickCard(idx: nat)
      requires Valid() && idx < |members|
      modifies this
      ensures Valid()
      ensures flippedMemberIdx == NextFlipped(old(flippedMemberIdx), idx)
    {
      var isFlipped := flippedMemberIdx == Some(idx);
      flippedMemberIdx := if isFlipped then None else Some(idx);
    }
  }

  /** The eligibility requirements the panel lists. */
  const EligibilityRequirements: seq<string> := [
    "1x Championship Ring",
    "2x Finals Appearances",
    "25x+ POTG // DPOTG Total",
    "4x Seasons Played",
    "5x Awards",
    "Ring Riding Excluded"
  ]

  /** The panel lists six requirements. */
  lemma SixRequirements()
    ensures |EligibilityRequirements| == 6
  {
  }

  /** The `HOFEligibility` component: a collapsible panel. */
  class HOFEligibility {
    var isOpen: bool

    constructor ()
      ensures !isOpen
    {
      isOpen := false;
    }

    /** The panel's button. */
    method Toggle()
      modifies this
      ensures isOpen == !old(isOpen)
    {
      isOpen := !isOpen;
    }
  }
}
