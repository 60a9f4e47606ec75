/** URLs across wrapped terminal rows (src/lib/terminal-url-links.ts); the regular expression and the
    URL check are parameters. */
module UrlLinks {
  import opened Common
  import Columns = CellColumns

  datatype Row = Row(text: string, isWrapped: bool)

  /** `endRow` is inclusive, `endCol` exclusive. */
  datatype UrlLink = UrlLink(url: string, startRow: nat, startCol: int, endRow: nat, endCol: int)

  /** A match of the regular expression: where it starts, and its length. */
  datatype Match = Match(at: nat, length: nat)

  datatype Finder = Finder(matches: string -> seq<Match>, valid: string -> bool)

  /** Matches are not empty, within the text, in order and without overlap. */
  ghost predicate InOrder(matches: seq<Match>, text: string) {
    && (forall i | 0 <= i < |matches| :: matches[i].length > 0 && matches[i].at + matches[i].length <= |text|)
    && (forall i, j | 0 <= i < j < |matches| :: matches[i].at + matches[i].length <= matches[j].at)
  }

  ghost predicate Lawful(finder: Finder) {
    forall text :: InOrder(finder.matches(text), text)
  }

  // ---------------------------------------------------------------- groups of rows

  predicate IsContinuation(prevText: string, curIsWrapped: bool, cols: int) {
    curIsWrapped || (cols > 0 && |prevText| >= cols)
  }

  predicate Continues(rows: seq<Row>, cols: int, r: nat) {
    0 < r < |rows| && IsContinuation(rows[r - 1].text, rows[r].isWrapped, cols)
  }

  /** The end of the group that row `r - 1` is in. */
  function GroupEnd(rows: seq<Row>, cols: int, r: nat): (end: nat)
    requires r <= |rows|
    ensures r <= end <= |rows| && !Continues(rows, cols, end)
    ensures forall k | r <= k < end :: Continues(rows, cols, k)
    decreases |rows| - r
  {
    if Continues(rows, cols, r) then GroupEnd(rows, cols, r + 1) else r
  }

  /** The first row of the group that row `r` is in. */
  function GroupStart(rows: seq<Row>, cols: int, r: nat): (start: nat)
    requires r < |rows|
    ensures start <= r && !Continues(rows, cols, start)
    ensures forall k | start < k <= r :: Continues(rows, cols, k)
  {
    if Continues(rows, cols, r) then GroupStart(rows, cols, r - 1) else r
  }

  /** The joined text of the rows from `i` up to `j`. */
  function Joined(rows: seq<Row>, i: nat, j: nat): string
    requires i <= j <= |rows|
    decreases j
  {
    if i == j then "" else Joined(rows, i, j - 1) + rows[j - 1].text
  }

  /** The offsets at which the rows from `i` up to `j` begin in their joined text. */
  function Offsets(rows: seq<Row>, i: nat, j: nat): (offsets: seq<nat>)
    requires i <= j <= |rows|
    ensures |offsets| == j - i
    decreases j
  {
    if i == j then [] else Offsets(rows, i, j - 1) + [|Joined(rows, i, j - 1)|]
  }

  lemma {:induction false} OffsetAt(rows: seq<Row>, i: nat, j: nat, k: nat)
    requires i <= j <= |rows| && k < j - i
    ensures Offsets(rows, i, j)[k] == |Joined(rows, i, i + k)|
    decreases j
  {
    if k < j - 1 - i {
      OffsetAt(rows, i, j - 1, k);
    }
  }

  /** The last of the first `n` rows that begins at or before an offset; the first one if none does. */
  function RowOf(offsets: seq<nat>, n: nat, idx: nat): (r: nat)
    requires 0 < n <= |offsets|
    ensures r < n && (offsets[0] <= idx ==> offsets[r] <= idx)
    ensures r + 1 < n ==> idx < offsets[r + 1]
  {
    if n == 1 || idx >= offsets[n - 1] then n - 1 else RowOf(offsets, n - 1, idx)
  }

  method MapOffset(offsets: seq<nat>, idx: nat) returns (row: nat, col: int)
    requires offsets != []
    ensures row == RowOf(offsets, |offsets|, idx) && col == idx - offsets[row]
  {
    row := 0;
    var r := |offsets| - 1;
    while r >= 0
      invariant -1 <= r < |offsets|
      invariant r >= 0 ==> RowOf(offsets, |offsets|, idx) == RowOf(offsets, r + 1, idx)
      invariant r < 0 ==> RowOf(offsets, |offsets|, idx) == 0
    {
      if idx >= offsets[r] {
        row := r;
        break;
      }
      r := r - 1;
    }
    col := idx - offsets[row];
  }

  lemma {:induction false} JoinedGrows(rows: seq<Row>, i: nat, r: nat, s: nat)
    requires i <= r <= s <= |rows|
    ensures Joined(rows, i, r) <= Joined(rows, i, s)
    decreases s
  {
    if r < s {
      JoinedGrows(rows, i, r, s - 1);
    }
  }

  lemma OffsetsGrow(rows: seq<Row>, i: nat, j: nat, k: nat, l: nat)
    requires i <= j <= |rows| && k <= l < j - i
    ensures Offsets(rows, i, j)[k] <= Offsets(rows, i, j)[l]
  {
    OffsetAt(rows, i, j, k);
    OffsetAt(rows, i, j, l);
    JoinedGrows(rows, i, i + k, i + l);
  }

  lemma RowLength(rows: seq<Row>, i: nat, j: nat, k: nat)
    requires i < j <= |rows| && k < j - i
    ensures Offsets(rows, i, j)[k] + |rows[i + k].text|
            == if k + 1 < j - i then Offsets(rows, i, j)[k + 1] else |Joined(rows, i, j)|
  {
    var r := i + k;
    JoinedLength(rows, i, r);
    RowStarts(rows, i, j, r);
    if r + 1 < j {
      RowStarts(rows, i, j, r + 1);
    } else {
      assert r + 1 == j;
    }
  }

  lemma JoinedLength(rows: seq<Row>, i: nat, r: nat)
    requires i <= r < |rows|
    ensures |Joined(rows, i, r + 1)| == |Joined(rows, i, r)| + |rows[r].text|
  {
  }

  /** Where the row after `k` begins, or the text ends. */
  function NextOffset(offsets: seq<nat>, total: nat, k: nat): nat
    requires k < |offsets|
  {
    if k + 1 < |offsets| then offsets[k + 1] else total
  }

  /** Offsets that begin at 0 and do not decrease, up to the length of the text. */
  ghost predicate Fence(offsets: seq<nat>, total: nat) {
    && offsets != [] && offsets[0] == 0
    && (forall k | 0 <= k < |offsets| :: offsets[k] <= total)
    && (forall k, l | 0 <= k <= l < |offsets| :: offsets[k] <= offsets[l])
  }

  lemma GroupFence(rows: seq<Row>, i: nat, j: nat)
    requires i < j <= |rows|
    ensures Fence(Offsets(rows, i, j), |Joined(rows, i, j)|)
  {
    var offsets := Offsets(rows, i, j);
    OffsetAt(rows, i, j, 0);
    forall k | 0 <= k < |offsets| ensures offsets[k] <= |Joined(rows, i, j)| {
      OffsetAt(rows, i, j, k);
      JoinedGrows(rows, i, i + k, j);
    }
    forall k, l | 0 <= k <= l < |offsets| ensures offsets[k] <= offsets[l] {
      OffsetsGrow(rows, i, j, k, l);
    }
  }

  /** An offset of the text lies within the row it is mapped to. */
  lemma OffsetInRow(offsets: seq<nat>, total: nat, idx: nat)
    requires Fence(offsets, total) && idx < total
    ensures var r := RowOf(offsets, |offsets|, idx); offsets[r] <= idx < NextOffset(offsets, total, r)
  {
  }

  /** A character of a row is mapped back to that row. */
  lemma RowOfPosition(offsets: seq<nat>, total: nat, k: nat, idx: nat)
    requires Fence(offsets, total) && k < |offsets| && offsets[k] <= idx < NextOffset(offsets, total, k)
    ensures RowOf(offsets, |offsets|, idx) == k
  {
  }

  lemma RowsInOrder(offsets: seq<nat>, total: nat, idx: nat, later: nat)
    requires Fence(offsets, total) && idx <= later
    ensures RowOf(offsets, |offsets|, idx) <= RowOf(offsets, |offsets|, later)
  {
  }

  // ---------------------------------------------------------------- the links of a group

  /** The link of a match in the text of the group that begins at row `base`. */
  function LinkOf(text: string, offsets: seq<nat>, base: nat, m: Match): UrlLink
    requires offsets != [] && m.length > 0 && m.at + m.length <= |text|
  {
    var last := m.at + m.length - 1;
    var startRow, endRow := RowOf(offsets, |offsets|, m.at), RowOf(offsets, |offsets|, last);
    UrlLink(text[m.at..m.at + m.length], base + startRow, m.at - offsets[startRow],
            base + endRow, last - offsets[endRow] + 1)
  }

  ghost predicate Within(matches: seq<Match>, length: nat) {
    forall k | 0 <= k < |matches| :: matches[k].length > 0 && matches[k].at + matches[k].length <= length
  }

  /** The links of the matches that are valid URLs, in order. */
  function Picked(finder: Finder, text: string, offsets: seq<nat>, base: nat, matches: seq<Match>): seq<UrlLink>
    requires offsets != [] && Within(matches, |text|)
    decreases |matches|
  {
    if matches == [] then []
    else
      var n := |matches| - 1;
      var link := LinkOf(text, offsets, base, matches[n]);
      Picked(finder, text, offsets, base, matches[..n]) + if finder.valid(link.url) then [link] else []
  }

  function TextLinks(finder: Finder, text: string, offsets: seq<nat>, base: nat): seq<UrlLink>
    requires offsets != [] && Lawful(finder)
  {
    Picked(finder, text, offsets, base, finder.matches(text))
  }

  function GroupLinks(finder: Finder, rows: seq<Row>, i: nat, j: nat): seq<UrlLink>
    requires i < j <= |rows| && Lawful(finder)
  {
    TextLinks(finder, Joined(rows, i, j), Offsets(rows, i, j), i)
  }

  /** The links of the groups that begin at row `i` or later. */
  function LinksFrom(finder: Finder, rows: seq<Row>, cols: int, i: nat): seq<UrlLink>
    requires i <= |rows| && Lawful(finder)
    decreases |rows| - i
  {
    if i == |rows| then []
    else
      var j := GroupEnd(rows, cols, i + 1);
      GroupLinks(finder, rows, i, j) + LinksFrom(finder, rows, cols, j)
  }

  // ---------------------------------------------------------------- a link spells its URL

  lemma {:induction false} JoinedInTwo(rows: seq<Row>, i: nat, r: nat, j: nat)
    requires i <= r <= j <= |rows|
    ensures Joined(rows, i, j) == Joined(rows, i, r) + Joined(rows, r, j)
    decreases j
  {
    if r < j {
      JoinedInTwo(rows, i, r, j - 1);
    }
  }

  /** What the rows hold over a link's range. */
  function Spelled(rows: seq<Row>, link: UrlLink): string
    requires link.startRow <= link.endRow < |rows|
    requires 0 <= link.startCol <= |rows[link.startRow].text| && 0 <= link.endCol <= |rows[link.endRow].text|
    requires link.startRow == link.endRow ==> link.startCol <= link.endCol
  {
    if link.startRow == link.endRow then rows[link.startRow].text[link.startCol..link.endCol]
    else
      rows[link.startRow].text[link.startCol..] + Joined(rows, link.startRow + 1, link.endRow)
      + rows[link.endRow].text[..link.endCol]
  }

  predicate Fits(rows: seq<Row>, link: UrlLink) {
    && link.startRow <= link.endRow < |rows|
    && 0 <= link.startCol < |rows[link.startRow].text| && 0 < link.endCol <= |rows[link.endRow].text|
    && (link.startRow == link.endRow ==> link.startCol < link.endCol)
  }

  function GroupLink(rows: seq<Row>, i: nat, j: nat, m: Match): UrlLink
    requires i < j <= |rows| && m.length > 0 && m.at + m.length <= |Joined(rows, i, j)|
  {
    LinkOf(Joined(rows, i, j), Offsets(rows, i, j), i, m)
  }

  /** The rows and columns of a link, against the offsets of its group. */
  lemma RangeOf(text: string, offsets: seq<nat>, base: nat, m: Match)
    requires Fence(offsets, |text|) && m.length > 0 && m.at + m.length <= |text|
    ensures var link := LinkOf(text, offsets, base, m);
            var s, e := link.startRow - base, link.endRow - base;
            && 0 <= s <= e < |offsets|
            && offsets[s] + link.startCol == m.at && offsets[e] + link.endCol == m.at + m.length
            && 0 <= link.startCol < NextOffset(offsets, |text|, s) - offsets[s]
            && 0 < link.endCol <= NextOffset(offsets, |text|, e) - offsets[e]
            && (s == e ==> link.startCol < link.endCol)
  {
    OffsetInRow(offsets, |text|, m.at);
    OffsetInRow(offsets, |text|, m.at + m.length - 1);
    RowsInOrder(offsets, |text|, m.at, m.at + m.length - 1);
  }

  lemma LinkFits(rows: seq<Row>, i: nat, j: nat, m: Match)
    requires i < j <= |rows| && m.length > 0 && m.at + m.length <= |Joined(rows, i, j)|
    ensures Fits(rows, GroupLink(rows, i, j, m))
    ensures i <= GroupLink(rows, i, j, m).startRow && GroupLink(rows, i, j, m).endRow < j
  {
    GroupFence(rows, i, j);
    RangeOf(Joined(rows, i, j), Offsets(rows, i, j), i, m);
    RangeFits(rows, i, j, GroupLink(rows, i, j, m));
  }

  lemma RangeFits(rows: seq<Row>, i: nat, j: nat, link: UrlLink)
    requires i < j <= |rows| && i <= link.startRow <= link.endRow < j
    requires var offsets, total := Offsets(rows, i, j), |Joined(rows, i, j)|;
             && 0 <= link.startCol < NextOffset(offsets, total, link.startRow - i) - offsets[link.startRow - i]
             && 0 < link.endCol <= NextOffset(offsets, total, link.endRow - i) - offsets[link.endRow - i]
    requires link.startRow == link.endRow ==> link.startCol < link.endCol
    ensures Fits(rows, link)
  {
    RowLength(rows, i, j, link.startRow - i);
    RowLength(rows, i, j, link.endRow - i);
  }

  lemma WithinRow(before: string, row: string, after: string, x: nat, y: nat)
    requires x <= y <= |row|
    ensures (before + row + after)[|before| + x..|before| + y] == row[x..y]
  {
  }

  lemma AcrossRows(before: string, first: string, middle: string, last: string, after: string, x: nat, y: nat)
    requires x <= |first| && y <= |last|
    ensures var end := |before| + |first| + |middle| + y;
            (before + first + middle + last + after)[|before| + x..end] == first[x..] + middle + last[..y]
  {
    var whole := before + first + middle + last + after;
    var end := |before| + |first| + |middle| + y;
    assert whole[..end] == before + (first + (middle + last[..y]));
    assert whole[..end][|before|..] == first + (middle + last[..y]);
    assert whole[|before| + x..end] == whole[..end][|before|..][x..];
  }

  lemma LinkRange(rows: seq<Row>, i: nat, j: nat, m: Match)
    requires i < j <= |rows| && m.length > 0 && m.at + m.length <= |Joined(rows, i, j)|
    ensures var link := GroupLink(rows, i, j, m);
            && i <= link.startRow < j && i <= link.endRow < j
            && |Joined(rows, i, link.startRow)| + link.startCol == m.at
            && |Joined(rows, i, link.endRow)| + link.endCol == m.at + m.length
  {
    GroupFence(rows, i, j);
    RangeOf(Joined(rows, i, j), Offsets(rows, i, j), i, m);
    RowStarts(rows, i, j, GroupLink(rows, i, j, m).startRow);
    RowStarts(rows, i, j, GroupLink(rows, i, j, m).endRow);
  }

  lemma RowStarts(rows: seq<Row>, i: nat, j: nat, r: nat)
    requires i <= r < j <= |rows|
    ensures Offsets(rows, i, j)[r - i] == |Joined(rows, i, r)|
  {
    OffsetAt(rows, i, j, r - i);
  }

  /** Reading the rows over a link's range spells its URL. */
  lemma LinkSpellsUrl(rows: seq<Row>, i: nat, j: nat, m: Match)
    requires i < j <= |rows| && m.length > 0 && m.at + m.length <= |Joined(rows, i, j)|
    ensures Fits(rows, GroupLink(rows, i, j, m))
    ensures Spelled(rows, GroupLink(rows, i, j, m)) == GroupLink(rows, i, j, m).url
  {
    var link := GroupLink(rows, i, j, m);
    LinkFits(rows, i, j, m);
    LinkRange(rows, i, j, m);
    UrlOfLink(rows, i, j, m, link);
    RangeSpells(rows, i, j, link);
  }

  lemma UrlOfLink(rows: seq<Row>, i: nat, j: nat, m: Match, link: UrlLink)
    requires i < j <= |rows| && m.length > 0 && m.at + m.length <= |Joined(rows, i, j)|
    requires link == GroupLink(rows, i, j, m)
    ensures link.url == Joined(rows, i, j)[m.at..m.at + m.length]
  {
  }

  lemma RangeSpells(rows: seq<Row>, i: nat, j: nat, link: UrlLink)
    requires i <= link.startRow && link.endRow < j <= |rows| && Fits(rows, link)
    ensures var start := |Joined(rows, i, link.startRow)| + link.startCol;
            var end := |Joined(rows, i, link.endRow)| + link.endCol;
            && start <= end <= |Joined(rows, i, j)|
            && Joined(rows, i, j)[start..end] == Spelled(rows, link)
  {
    if link.startRow == link.endRow {
      OneRowSpells(rows, i, j, link);
    } else {
      RowsSpell(rows, i, j, link);
    }
  }

  lemma RowInJoined(rows: seq<Row>, i: nat, r: nat, j: nat)
    requires i <= r < j <= |rows|
    ensures Joined(rows, i, j) == Joined(rows, i, r) + rows[r].text + Joined(rows, r + 1, j)
  {
    JoinedInTwo(rows, i, r + 1, j);
  }

  lemma OneRowSpells(rows: seq<Row>, i: nat, j: nat, link: UrlLink)
    requires i <= link.startRow == link.endRow < j <= |rows| && Fits(rows, link)
    ensures var begins := |Joined(rows, i, link.startRow)|;
            && begins + link.endCol <= |Joined(rows, i, j)|
            && Joined(rows, i, j)[begins + link.startCol..begins + link.endCol] == Spelled(rows, link)
  {
    var r := link.startRow;
    RowInJoined(rows, i, r, j);
    WithinRow(Joined(rows, i, r), rows[r].text, Joined(rows, r + 1, j), link.startCol, link.endCol);
  }

  lemma RowsSpell(rows: seq<Row>, i: nat, j: nat, link: UrlLink)
    requires i <= link.startRow < link.endRow < j <= |rows| && Fits(rows, link)
    ensures var start := |Joined(rows, i, link.startRow)| + link.startCol;
            var end := |Joined(rows, i, link.endRow)| + link.endCol;
            && start <= end <= |Joined(rows, i, j)|
            && Joined(rows, i, j)[start..end] == Spelled(rows, link)
  {
    var r, t := link.startRow, link.endRow;
    FiveParts(rows, i, r, t, j);
    AcrossRows(Joined(rows, i, r), rows[r].text, Joined(rows, r + 1, t), rows[t].text, Joined(rows, t + 1, j),
               link.startCol, link.endCol);
  }

  lemma FiveParts(rows: seq<Row>, i: nat, r: nat, t: nat, j: nat)
    requires i <= r < t < j <= |rows|
    ensures Joined(rows, i, t) == Joined(rows, i, r) + rows[r].text + Joined(rows, r + 1, t)
    ensures Joined(rows, i, j)
            == Joined(rows, i, r) + rows[r].text + Joined(rows, r + 1, t) + rows[t].text + Joined(rows, t + 1, j)
  {
    RowInJoined(rows, i, r, t);
    RowInJoined(rows, i, t, j);
  }

  // ---------------------------------------------------------------- what a link covers

  predicate Contains(link: UrlLink, row: nat, col: nat) {
    && link.startRow <= row <= link.endRow
    && (row == link.startRow ==> link.startCol <= col)
    && (row == link.endRow ==> col < link.endCol)
  }

  /** A character of the group's rows is inside a link exactly when it is one of the match's. */
  lemma ContainsIffMatched(rows: seq<Row>, i: nat, j: nat, m: Match, k: nat, col: nat)
    requires i < j <= |rows| && k < j - i && col < |rows[i + k].text|
    requires m.length > 0 && m.at + m.length <= |Joined(rows, i, j)|
    ensures Contains(GroupLink(rows, i, j, m), i + k, col) <==>
            m.at <= Offsets(rows, i, j)[k] + col < m.at + m.length
  {
    GroupFence(rows, i, j);
    RowLength(rows, i, j, k);
    ContainsIffBetween(Joined(rows, i, j), Offsets(rows, i, j), i, m, k, col);
  }

  lemma ContainsIffBetween(text: string, offsets: seq<nat>, base: nat, m: Match, k: nat, col: nat)
    requires Fence(offsets, |text|) && m.length > 0 && m.at + m.length <= |text|
    requires k < |offsets| && offsets[k] + col < NextOffset(offsets, |text|, k)
    ensures Contains(LinkOf(text, offsets, base, m), base + k, col) <==> m.at <= offsets[k] + col < m.at + m.length
  {
    var idx, last := offsets[k] + col, m.at + m.length - 1;
    RowOfPosition(offsets, |text|, k, idx);
    if m.at <= idx {
      RowsInOrder(offsets, |text|, m.at, idx);
    } else {
      RowsInOrder(offsets, |text|, idx, m.at);
    }
    if idx <= last {
      RowsInOrder(offsets, |text|, idx, last);
    } else {
      RowsInOrder(offsets, |text|, last, idx);
    }
  }

  /** The first link that contains a position. */
  method UrlLinkAtPosition(links: seq<UrlLink>, row: nat, col: nat) returns (found: Option<UrlLink>)
    ensures found.None? ==> forall k | 0 <= k < |links| :: !Contains(links[k], row, col)
    ensures found.Some? ==> exists k :: 0 <= k < |links| && links[k] == found.value && Contains(links[k], row, col)
                                        && forall l | 0 <= l < k :: !Contains(links[l], row, col)
  {
    var k := 0;
    while k < |links|
      invariant k <= |links|
      invariant forall l | 0 <= l < k :: !Contains(links[l], row, col)
    {
      var link := links[k];
      if link.startRow <= row <= link.endRow {
        if link.startRow == link.endRow {
          if link.startCol <= col < link.endCol {
            return Some(link);
          }
        } else if row == link.startRow {
          if link.startCol <= col {
            return Some(link);
          }
        } else if row == link.endRow {
          if col < link.endCol {
            return Some(link);
          }
        } else {
          return Some(link);
        }
      }
      k := k + 1;
    }
    return None;
  }

  lemma {:induction false} ValidMatchIsPicked(finder: Finder, text: string, offsets: seq<nat>, base: nat,
                                               matches: seq<Match>, k: nat)
    requires offsets != [] && Within(matches, |text|) && k < |matches|
    requires finder.valid(LinkOf(text, offsets, base, matches[k]).url)
    ensures LinkOf(text, offsets, base, matches[k]) in Picked(finder, text, offsets, base, matches)
    decreases |matches|
  {
    if k < |matches| - 1 {
      ValidMatchIsPicked(finder, text, offsets, base, matches[..|matches| - 1], k);
    }
  }

  lemma {:induction false} PickedIsMatch(finder: Finder, text: string, offsets: seq<nat>, base: nat,
                                         matches: seq<Match>,
                                          link: UrlLink)
    returns (k: nat)
    requires offsets != [] && Within(matches, |text|)
    requires link in Picked(finder, text, offsets, base, matches)
    ensures k < |matches| && LinkOf(text, offsets, base, matches[k]) == link && finder.valid(link.url)
    decreases |matches|
  {
    var n := |matches| - 1;
    if link in Picked(finder, text, offsets, base, matches[..n]) {
      k := PickedIsMatch(finder, text, offsets, base, matches[..n], link);
    } else {
      k := n;
    }
  }

  lemma GroupLinkStays(finder: Finder, rows: seq<Row>, i: nat, j: nat, link: UrlLink)
    requires i < j <= |rows| && Lawful(finder) && link in GroupLinks(finder, rows, i, j)
    ensures i <= link.startRow <= link.endRow < j && Fits(rows, link)
  {
    var text := Joined(rows, i, j);
    var k := PickedIsMatch(finder, text, Offsets(rows, i, j), i, finder.matches(text), link);
    LinkFits(rows, i, j, finder.matches(text)[k]);
  }

  lemma {:induction false} LinksFromStay(finder: Finder, rows: seq<Row>, cols: int, i: nat, link: UrlLink)
    requires i <= |rows| && Lawful(finder) && link in LinksFrom(finder, rows, cols, i)
    ensures i <= link.startRow <= link.endRow < |rows| && Fits(rows, link)
    decreases |rows| - i
  {
    var j := GroupEnd(rows, cols, i + 1);
    if link in GroupLinks(finder, rows, i, j) {
      GroupLinkStays(finder, rows, i, j, link);
    } else {
      LinksFromStay(finder, rows, cols, j, link);
    }
  }

  // ---------------------------------------------------------------- the links of one line

  predicate Touches(link: UrlLink, row: nat) {
    link.startRow <= row <= link.endRow
  }

  function Touching(links: seq<UrlLink>, row: nat): seq<UrlLink> {
    if links == [] then []
    else
      var n := |links| - 1;
      Touching(links[..n], row) + if Touches(links[n], row) then [links[n]] else []
  }

  lemma {:induction false} TouchingJoins(a: seq<UrlLink>, b: seq<UrlLink>, row: nat)
    ensures Touching(a + b, row) == Touching(a, row) + Touching(b, row)
    decreases |b|
  {
    if b == [] {
      assert a + b == a;
    } else {
      var n := |b| - 1;
      assert (a + b)[..|a| + n] == a + b[..n] && (a + b)[|a| + n] == b[n];
      TouchingJoins(a, b[..n], row);
    }
  }

  lemma {:induction false} NoneTouch(links: seq<UrlLink>, row: nat)
    requires forall link | link in links :: !Touches(link, row)
    ensures Touching(links, row) == []
    decreases |links|
  {
    if links != [] {
      NoneTouch(links[..|links| - 1], row);
      assert links[|links| - 1] in links;
    }
  }

  lemma {:induction false} AllTouchOrNot(links: seq<UrlLink>, row: nat, link: UrlLink)
    ensures link in Touching(links, row) <==> link in links && Touches(link, row)
    decreases |links|
  {
    if links != [] {
      AllTouchOrNot(links[..|links| - 1], row, link);
    }
  }

  lemma LaterGroupsDoNotTouch(finder: Finder, rows: seq<Row>, cols: int, j: nat, row: nat)
    requires row < j <= |rows| && Lawful(finder)
    ensures Touching(LinksFrom(finder, rows, cols, j), row) == []
  {
    forall link | link in LinksFrom(finder, rows, cols, j) ensures !Touches(link, row) {
      LinksFromStay(finder, rows, cols, j, link);
    }
    NoneTouch(LinksFrom(finder, rows, cols, j), row);
  }

  lemma EarlierGroupsDoNotTouch(finder: Finder, rows: seq<Row>, i: nat, j: nat, row: nat)
    requires i < j <= row < |rows| && Lawful(finder)
    ensures Touching(GroupLinks(finder, rows, i, j), row) == []
  {
    forall link | link in GroupLinks(finder, rows, i, j) ensures !Touches(link, row) {
      GroupLinkStays(finder, rows, i, j, link);
    }
    NoneTouch(GroupLinks(finder, rows, i, j), row);
  }

  /** The links that touch a row all come from the row's own group. */
  lemma TouchingIsFromGroup(finder: Finder, rows: seq<Row>, cols: int, row: nat)
    requires row < |rows| && Lawful(finder)
    ensures Touching(LinksFrom(finder, rows, cols, 0), row)
            == Touching(GroupLinks(finder, rows, GroupStart(rows, cols, row), GroupEnd(rows, cols, row + 1)), row)
  {
    var start := GroupStart(rows, cols, row);
    SameEnd(rows, cols, start, row);
    OwnGroup(finder, rows, cols, start, GroupEnd(rows, cols, row + 1), row);
    SkipGroups(finder, rows, cols, 0, start, row);
  }

  /** Groups before a row do not matter for the links that touch it. */
  lemma {:induction false} SkipGroups(finder: Finder, rows: seq<Row>, cols: int, i: nat, start: nat, row: nat)
    requires i <= start <= row < |rows| && Lawful(finder) && !Continues(rows, cols, start)
    ensures Touching(LinksFrom(finder, rows, cols, i), row) == Touching(LinksFrom(finder, rows, cols, start), row)
    decreases start - i
  {
    if i < start {
      var j := SkipGroup(finder, rows, cols, i, start, row);
      SkipGroups(finder, rows, cols, j, start, row);
    }
  }

  lemma SkipGroup(finder: Finder, rows: seq<Row>, cols: int, i: nat, start: nat, row: nat) returns (j: nat)
    requires i < start <= row < |rows| && Lawful(finder) && !Continues(rows, cols, start)
    ensures i < j <= start
    ensures Touching(LinksFrom(finder, rows, cols, i), row) == Touching(LinksFrom(finder, rows, cols, j), row)
  {
    j := GroupEnd(rows, cols, i + 1);
    EndsBefore(rows, cols, i, start);
    EarlierGroup(finder, rows, cols, i, j, row);
  }

  lemma OwnGroup(finder: Finder, rows: seq<Row>, cols: int, i: nat, j: nat, row: nat)
    requires i <= row < j <= |rows| && j == GroupEnd(rows, cols, i + 1) && Lawful(finder)
    ensures Touching(LinksFrom(finder, rows, cols, i), row) == Touching(GroupLinks(finder, rows, i, j), row)
  {
    FirstGroup(finder, rows, cols, i, j, row);
    LaterGroupsDoNotTouch(finder, rows, cols, j, row);
  }

  lemma EarlierGroup(finder: Finder, rows: seq<Row>, cols: int, i: nat, j: nat, row: nat)
    requires i < j <= row < |rows| && j == GroupEnd(rows, cols, i + 1) && Lawful(finder)
    ensures Touching(LinksFrom(finder, rows, cols, i), row) == Touching(LinksFrom(finder, rows, cols, j), row)
  {
    FirstGroup(finder, rows, cols, i, j, row);
    EarlierGroupsDoNotTouch(finder, rows, i, j, row);
  }

  lemma FirstGroup(finder: Finder, rows: seq<Row>, cols: int, i: nat, j: nat, row: nat)
    requires i < |rows| && j == GroupEnd(rows, cols, i + 1) && Lawful(finder)
    ensures Touching(LinksFrom(finder, rows, cols, i), row)
            == Touching(GroupLinks(finder, rows, i, j), row) + Touching(LinksFrom(finder, rows, cols, j), row)
  {
    TouchingJoins(GroupLinks(finder, rows, i, j), LinksFrom(finder, rows, cols, j), row);
  }

  lemma {:induction false} SameEnd(rows: seq<Row>, cols: int, i: nat, row: nat)
    requires i <= row < |rows| && forall k | i < k <= row :: Continues(rows, cols, k)
    ensures GroupEnd(rows, cols, i + 1) == GroupEnd(rows, cols, row + 1)
    decreases row - i
  {
    if i < row {
      SameEnd(rows, cols, i + 1, row);
    }
  }

  lemma {:induction false} EndsBefore(rows: seq<Row>, cols: int, i: nat, start: nat)
    requires i < start < |rows| && !Continues(rows, cols, start)
    ensures GroupEnd(rows, cols, i + 1) <= start
    decreases start - i
  {
    if i + 1 < start {
      EndsBefore(rows, cols, i + 1, start);
    }
  }

  // ---------------------------------------------------------------- a group on its own

  /** The rows of one group, as they are handed on: the first is not a continuation there. */
  ghost predicate IsSlice(slice: seq<Row>, rows: seq<Row>, first: nat) {
    && 0 < |slice| && first + |slice| <= |rows|
    && forall k | 0 <= k < |slice| ::
         slice[k] == if k == 0 then rows[first].(isWrapped := false) else rows[first + k]
  }

  lemma {:induction false} SliceJoined(slice: seq<Row>, rows: seq<Row>, first: nat, i: nat, j: nat)
    requires IsSlice(slice, rows, first) && i <= j <= |slice|
    ensures Joined(slice, i, j) == Joined(rows, first + i, first + j)
    decreases j
  {
    if i < j {
      SliceJoined(slice, rows, first, i, j - 1);
    }
  }

  lemma {:induction false} SliceOffsets(slice: seq<Row>, rows: seq<Row>, first: nat, j: nat)
    requires IsSlice(slice, rows, first) && j <= |slice|
    ensures Offsets(slice, 0, j) == Offsets(rows, first, first + j)
    decreases j
  {
    if j > 0 {
      SliceOffsets(slice, rows, first, j - 1);
      SliceJoined(slice, rows, first, 0, j - 1);
    }
  }

  function Lowered(link: UrlLink, first: nat): UrlLink {
    link.(startRow := link.startRow + first, endRow := link.endRow + first)
  }

  function LoweredAll(links: seq<UrlLink>, first: nat): seq<UrlLink> {
    if links == [] then []
    else LoweredAll(links[..|links| - 1], first) + [Lowered(links[|links| - 1], first)]
  }

  lemma {:induction false} PickedAtBase(finder: Finder, text: string, offsets: seq<nat>, base: nat, matches: seq<Match>)
    requires offsets != [] && Within(matches, |text|)
    ensures Picked(finder, text, offsets, base, matches) == LoweredAll(Picked(finder, text, offsets, 0, matches), base)
    decreases |matches|
  {
    if matches != [] {
      var n := |matches| - 1;
      PickedAtBase(finder, text, offsets, base, matches[..n]);
      var before, link := Picked(finder, text, offsets, 0, matches[..n]), LinkOf(text, offsets, 0, matches[n]);
      assert LinkOf(text, offsets, base, matches[n]) == Lowered(link, base);
      LoweredOneMore(before, link, base);
      assert before + [] == before;
    }
  }

  lemma LoweredOneMore(links: seq<UrlLink>, link: UrlLink, first: nat)
    ensures LoweredAll(links + [link], first) == LoweredAll(links, first) + [Lowered(link, first)]
  {
    assert (links + [link])[..|links|] == links;
  }

  /** Scanning one group's rows alone finds the group's links, with rows counted from its first. */
  lemma SliceLinks(finder: Finder, slice: seq<Row>, rows: seq<Row>, cols: int, first: nat, end: nat)
    requires Lawful(finder) && IsSlice(slice, rows, first) && end == first + |slice|
    requires forall r | first < r < end :: Continues(rows, cols, r)
    ensures LoweredAll(LinksFrom(finder, slice, cols, 0), first) == GroupLinks(finder, rows, first, end)
  {
    SliceIsOneGroup(slice, rows, cols, first, 1);
    OneGroup(finder, slice, cols);
    SliceGroupLinks(finder, slice, rows, first, end);
    AtBase(finder, Joined(rows, first, end), Offsets(rows, first, end), first);
  }

  lemma SliceGroupLinks(finder: Finder, slice: seq<Row>, rows: seq<Row>, first: nat, end: nat)
    requires Lawful(finder) && IsSlice(slice, rows, first) && end == first + |slice|
    ensures GroupLinks(finder, slice, 0, |slice|)
            == TextLinks(finder, Joined(rows, first, end), Offsets(rows, first, end), 0)
  {
    SliceJoined(slice, rows, first, 0, |slice|);
    SliceOffsets(slice, rows, first, |slice|);
  }

  lemma AtBase(finder: Finder, text: string, offsets: seq<nat>, base: nat)
    requires offsets != [] && Lawful(finder)
    ensures TextLinks(finder, text, offsets, base) == LoweredAll(TextLinks(finder, text, offsets, 0), base)
  {
    PickedAtBase(finder, text, offsets, base, finder.matches(text));
  }

  lemma OneGroup(finder: Finder, slice: seq<Row>, cols: int)
    requires Lawful(finder) && slice != [] && GroupEnd(slice, cols, 1) == |slice|
    ensures LinksFrom(finder, slice, cols, 0) == GroupLinks(finder, slice, 0, |slice|)
  {
    assert LinksFrom(finder, slice, cols, |slice|) == [];
    assert GroupLinks(finder, slice, 0, |slice|) + [] == GroupLinks(finder, slice, 0, |slice|);
  }

  lemma {:induction false} SliceIsOneGroup(slice: seq<Row>, rows: seq<Row>, cols: int, first: nat, k: nat)
    requires IsSlice(slice, rows, first) && 0 < k <= |slice|
    requires forall r | first < r < first + |slice| :: Continues(rows, cols, r)
    ensures GroupEnd(slice, cols, k) == |slice|
    decreases |slice| - k
  {
    if k < |slice| {
      assert Continues(rows, cols, first + k);
      SliceIsOneGroup(slice, rows, cols, first, k + 1);
    }
  }

  /** For any row: scanning its group alone and keeping what touches the row gives what a scan of the
      whole buffer has touching it. */
  lemma LineLinksAreTheBuffers(finder: Finder, slice: seq<Row>, rows: seq<Row>, cols: int, row: nat, first: nat)
    requires Lawful(finder) && row < |rows| && first == GroupStart(rows, cols, row)
    requires IsSlice(slice, rows, first) && first + |slice| == GroupEnd(rows, cols, row + 1)
    ensures Touching(LoweredAll(LinksFrom(finder, slice, cols, 0), first), row)
            == Touching(LinksFrom(finder, rows, cols, 0), row)
  {
    StartAndEnd(rows, cols, row);
    SliceLinks(finder, slice, rows, cols, first, GroupEnd(rows, cols, row + 1));
    TouchingIsFromGroup(finder, rows, cols, row);
  }

  lemma StartAndEnd(rows: seq<Row>, cols: int, row: nat)
    requires row < |rows|
    ensures var first, end := GroupStart(rows, cols, row), GroupEnd(rows, cols, row + 1);
            forall r | first < r < end :: Continues(rows, cols, r)
  {
  }

  // ---------------------------------------------------------------- the whole scan

  /** A position holds a character of a valid URL of its group. */
  ghost predicate HoldsUrl(finder: Finder, rows: seq<Row>, cols: int, row: nat, col: nat)
    requires row < |rows| && Lawful(finder)
  {
    var i, j := GroupStart(rows, cols, row), GroupEnd(rows, cols, row + 1);
    var text := Joined(rows, i, j);
    exists k :: 0 <= k < |finder.matches(text)| && MatchHolds(finder, text, finder.matches(text)[k],
                                                              Offsets(rows, i, j)[row - i] + col)
  }

  predicate MatchHolds(finder: Finder, text: string, m: Match, idx: nat) {
    m.at <= idx < m.at + m.length <= |text| && finder.valid(text[m.at..m.at + m.length])
  }

  /** A character of the buffer is inside some link exactly when it is part of a valid URL in the text of
      the rows joined with its own. */
  lemma LinkedIffUrl(finder: Finder, rows: seq<Row>, cols: int, row: nat, col: nat)
    requires Lawful(finder) && row < |rows| && col < |rows[row].text|
    ensures (exists link :: link in LinksFrom(finder, rows, cols, 0) && Contains(link, row, col))
            <==> HoldsUrl(finder, rows, cols, row, col)
  {
    var i, j := GroupStart(rows, cols, row), GroupEnd(rows, cols, row + 1);
    TouchingIsFromGroup(finder, rows, cols, row);
    if link :| link in LinksFrom(finder, rows, cols, 0) && Contains(link, row, col) {
      AllTouchOrNot(LinksFrom(finder, rows, cols, 0), row, link);
      AllTouchOrNot(GroupLinks(finder, rows, i, j), row, link);
      LinkHoldsUrl(finder, rows, cols, row, col, link);
    }
    if HoldsUrl(finder, rows, cols, row, col) {
      var link := UrlGivesLink(finder, rows, cols, row, col);
      AllTouchOrNot(GroupLinks(finder, rows, i, j), row, link);
      AllTouchOrNot(LinksFrom(finder, rows, cols, 0), row, link);
    }
  }

  // ---------------------------------------------------------------- text printed over several rows

  function Flat(pieces: seq<string>): string {
    if pieces == [] then "" else Flat(pieces[..|pieces| - 1]) + pieces[|pieces| - 1]
  }

  /** From row `i` on, one piece a row; either each row after the first is wrapped by the terminal, or each
      but the last fills the width.  The rows around belong to other texts. */
  ghost predicate Printed(rows: seq<Row>, cols: int, i: nat, pieces: seq<string>) {
    var j := i + |pieces|;
    && pieces != [] && j <= |rows|
    && (forall k | 0 <= k < |pieces| :: rows[i + k].text == pieces[k])
    && ((forall r | i < r < j :: rows[r].isWrapped)
        || (cols > 0 && forall k | 0 <= k < |pieces| - 1 :: |pieces[k]| >= cols))
    && !rows[i].isWrapped && (i > 0 && cols > 0 ==> |rows[i - 1].text| < cols)
    && (j < |rows| ==> !rows[j].isWrapped && (cols > 0 ==> |rows[j - 1].text| < cols))
  }

  lemma {:induction false} JoinedIsFlat(rows: seq<Row>, i: nat, pieces: seq<string>)
    requires i + |pieces| <= |rows| && forall k | 0 <= k < |pieces| :: rows[i + k].text == pieces[k]
    ensures Joined(rows, i, i + |pieces|) == Flat(pieces)
    decreases |pieces|
  {
    if pieces != [] {
      JoinedIsFlat(rows, i, pieces[..|pieces| - 1]);
    }
  }

  lemma PrintedContinues(rows: seq<Row>, cols: int, i: nat, pieces: seq<string>)
    requires Printed(rows, cols, i, pieces)
    ensures forall r | i < r < i + |pieces| :: Continues(rows, cols, r)
    ensures !Continues(rows, cols, i) && !Continues(rows, cols, i + |pieces|)
  {
    forall r | i < r < i + |pieces| ensures Continues(rows, cols, r) {
      assert rows[i + (r - 1 - i)].text == pieces[r - 1 - i];
    }
  }

  lemma GroupIs(rows: seq<Row>, cols: int, i: nat, j: nat, r: nat)
    requires i <= r < j <= |rows| && forall k | i < k < j :: Continues(rows, cols, k)
    requires !Continues(rows, cols, i) && !Continues(rows, cols, j)
    ensures GroupStart(rows, cols, r) == i && GroupEnd(rows, cols, r + 1) == j
  {
  }

  /** The rows of a printed text are one group, and joined they are that text again. */
  lemma PrintedIsOneGroup(rows: seq<Row>, cols: int, i: nat, pieces: seq<string>, r: nat)
    requires Printed(rows, cols, i, pieces) && i <= r < i + |pieces|
    ensures GroupStart(rows, cols, r) == i && GroupEnd(rows, cols, r + 1) == i + |pieces|
    ensures Joined(rows, i, i + |pieces|) == Flat(pieces)
    ensures Offsets(rows, i, i + |pieces|)[r - i] == |Flat(pieces[..r - i])|
  {
    PrintedContinues(rows, cols, i, pieces);
    GroupIs(rows, cols, i, i + |pieces|, r);
    PrintedIsJoined(rows, cols, i, pieces, r);
  }

  lemma PrintedIsJoined(rows: seq<Row>, cols: int, i: nat, pieces: seq<string>, r: nat)
    requires Printed(rows, cols, i, pieces) && i <= r < i + |pieces|
    ensures Joined(rows, i, i + |pieces|) == Flat(pieces)
    ensures Offsets(rows, i, i + |pieces|)[r - i] == |Flat(pieces[..r - i])|
  {
    JoinedIsFlat(rows, i, pieces);
    OffsetAt(rows, i, i + |pieces|, r - i);
    JoinedIsFlat(rows, i, pieces[..r - i]);
  }

  /** A character of a text is part of a valid URL. */
  predicate InUrl(finder: Finder, text: string, idx: nat) {
    exists k | 0 <= k < |finder.matches(text)| :: MatchHolds(finder, text, finder.matches(text)[k], idx)
  }

  /** A character of a printed text is inside some link exactly when it is part of a valid URL of the text. */
  lemma PrintedTextLinkedIff(finder: Finder, rows: seq<Row>, cols: int, i: nat, pieces: seq<string>, r: nat, col: nat)
    requires Lawful(finder) && Printed(rows, cols, i, pieces) && i <= r < i + |pieces| && col < |pieces[r - i]|
    ensures (exists link :: link in LinksFrom(finder, rows, cols, 0) && Contains(link, r, col))
            <==> InUrl(finder, Flat(pieces), |Flat(pieces[..r - i])| + col)
  {
    PrintedIsOneGroup(rows, cols, i, pieces, r);
    assert rows[i + (r - i)].text == pieces[r - i];
    LinkedIffUrl(finder, rows, cols, r, col);
    HoldsUrlIffInUrl(finder, rows, cols, r, col);
  }

  lemma HoldsUrlIffInUrl(finder: Finder, rows: seq<Row>, cols: int, row: nat, col: nat)
    requires Lawful(finder) && row < |rows|
    ensures var i, j := GroupStart(rows, cols, row), GroupEnd(rows, cols, row + 1);
            HoldsUrl(finder, rows, cols, row, col)
            <==> InUrl(finder, Joined(rows, i, j), Offsets(rows, i, j)[row - i] + col)
  {
  }

  /** A text cut at the width. */
  function Cut(text: string, cols: nat): (pieces: seq<string>)
    requires cols > 0
    ensures pieces != [] && forall k | 0 <= k < |pieces| - 1 :: |pieces[k]| == cols
    decreases |text|
  {
    if |text| <= cols then [text] else [text[..cols]] + Cut(text[cols..], cols)
  }

  lemma {:induction false} FlatPrepend(first: string, rest: seq<string>)
    ensures Flat([first] + rest) == first + Flat(rest)
    decreases |rest|
  {
    if rest == [] {
      assert [first] + rest == [first] && [first][..0] == [];
    } else {
      var n := |rest| - 1;
      FlatPrepend(first, rest[..n]);
      assert ([first] + rest)[..|rest|] == [first] + rest[..n];
    }
  }

  /** Cutting loses nothing, so a text printed at the width joins back to itself. */
  lemma {:induction false} CutJoinsBack(text: string, cols: nat)
    requires cols > 0
    ensures Flat(Cut(text, cols)) == text
    decreases |text|
  {
    if |text| <= cols {
      assert [text][..0] == [];
    } else {
      CutJoinsBack(text[cols..], cols);
      FlatPrepend(text[..cols], Cut(text[cols..], cols));
    }
  }

  lemma LinkHoldsUrl(finder: Finder, rows: seq<Row>, cols: int, row: nat, col: nat, link: UrlLink)
    requires Lawful(finder) && row < |rows| && col < |rows[row].text| && Contains(link, row, col)
    requires link in GroupLinks(finder, rows, GroupStart(rows, cols, row), GroupEnd(rows, cols, row + 1))
    ensures HoldsUrl(finder, rows, cols, row, col)
  {
    var i, j := GroupStart(rows, cols, row), GroupEnd(rows, cols, row + 1);
    var text := Joined(rows, i, j);
    var k := LinkOfMatch(finder, rows, i, j, row, col, link);
    assert MatchHolds(finder, text, finder.matches(text)[k], Offsets(rows, i, j)[row - i] + col);
  }

  lemma LinkOfMatch(finder: Finder, rows: seq<Row>, i: nat, j: nat, row: nat, col: nat, link: UrlLink) returns (k: nat)
    requires Lawful(finder) && i <= row < j <= |rows| && col < |rows[row].text| && Contains(link, row, col)
    requires link in GroupLinks(finder, rows, i, j)
    ensures var text := Joined(rows, i, j);
            && k < |finder.matches(text)|
            && MatchHolds(finder, text, finder.matches(text)[k], Offsets(rows, i, j)[row - i] + col)
  {
    var text := Joined(rows, i, j);
    k := PickedIsMatch(finder, text, Offsets(rows, i, j), i, finder.matches(text), link);
    ContainsIffMatched(rows, i, j, finder.matches(text)[k], row - i, col);
  }

  lemma UrlGivesLink(finder: Finder, rows: seq<Row>, cols: int, row: nat, col: nat) returns (link: UrlLink)
    requires Lawful(finder) && row < |rows| && col < |rows[row].text| && HoldsUrl(finder, rows, cols, row, col)
    ensures link in GroupLinks(finder, rows, GroupStart(rows, cols, row), GroupEnd(rows, cols, row + 1))
    ensures Contains(link, row, col)
  {
    var i, j := GroupStart(rows, cols, row), GroupEnd(rows, cols, row + 1);
    var text := Joined(rows, i, j);
    var idx := Offsets(rows, i, j)[row - i] + col;
    var k: nat :| k < |finder.matches(text)| && MatchHolds(finder, text, finder.matches(text)[k], idx);
    link := GroupLink(rows, i, j, finder.matches(text)[k]);
    MatchGivesLink(finder, rows, i, j, k, row, col);
  }

  lemma MatchGivesLink(finder: Finder, rows: seq<Row>, i: nat, j: nat, k: nat, row: nat, col: nat)
    requires Lawful(finder) && i <= row < j <= |rows| && col < |rows[row].text|
    requires k < |finder.matches(Joined(rows, i, j))|
    requires var text := Joined(rows, i, j);
             MatchHolds(finder, text, finder.matches(text)[k], Offsets(rows, i, j)[row - i] + col)
    ensures var link := GroupLink(rows, i, j, finder.matches(Joined(rows, i, j))[k]);
            link in GroupLinks(finder, rows, i, j) && Contains(link, row, col)
  {
    ValidMatchLinks(finder, rows, i, j, k);
    ContainsIffMatched(rows, i, j, finder.matches(Joined(rows, i, j))[k], row - i, col);
  }

  lemma ValidMatchLinks(finder: Finder, rows: seq<Row>, i: nat, j: nat, k: nat)
    requires Lawful(finder) && i < j <= |rows| && k < |finder.matches(Joined(rows, i, j))|
    requires finder.valid(GroupLink(rows, i, j, finder.matches(Joined(rows, i, j))[k]).url)
    ensures GroupLink(rows, i, j, finder.matches(Joined(rows, i, j))[k]) in GroupLinks(finder, rows, i, j)
  {
    var text := Joined(rows, i, j);
    ValidMatchIsPicked(finder, text, Offsets(rows, i, j), i, finder.matches(text), k);
  }

  // ---------------------------------------------------------------- the loops

  method ComputeUrlLinks(finder: Finder, rows: seq<Row>, cols: int) returns (links: seq<UrlLink>)
    requires Lawful(finder)
    ensures links == LinksFrom(finder, rows, cols, 0)
  {
    links := [];
    var i := 0;
    while i < |rows|
      invariant i <= |rows|
      invariant LinksFrom(finder, rows, cols, 0) == links + LinksFrom(finder, rows, cols, i)
    {
      var group, offsets, j := GrowGroup(rows, cols, i);
      var found := ScanGroup(finder, group, offsets, i);
      LinksOfGroup(finder, rows, cols, i, links);
      links := links + found;
      i := j;
    }
  }

  lemma LinksOfGroup(finder: Finder, rows: seq<Row>, cols: int, i: nat, before: seq<UrlLink>)
    requires i < |rows| && Lawful(finder)
    ensures var j := GroupEnd(rows, cols, i + 1);
            before + LinksFrom(finder, rows, cols, i)
            == before + GroupLinks(finder, rows, i, j) + LinksFrom(finder, rows, cols, j)
  {
    var j := GroupEnd(rows, cols, i + 1);
    Associative(before, GroupLinks(finder, rows, i, j), LinksFrom(finder, rows, cols, j));
  }

  /** Joins the rows of the group that begins at `i`. */
  method GrowGroup(rows: seq<Row>, cols: int, i: nat) returns (group: string, offsets: seq<nat>, j: nat)
    requires i < |rows|
    ensures j == GroupEnd(rows, cols, i + 1)
    ensures group == Joined(rows, i, j) && offsets == Offsets(rows, i, j)
  {
    group := rows[i].text;
    offsets := [0];
    j := i + 1;
    assert Joined(rows, i, i) == "" && Offsets(rows, i, i) == [];
    while j < |rows| && IsContinuation(rows[j - 1].text, rows[j].isWrapped, cols)
      invariant i < j <= |rows| && GroupEnd(rows, cols, i + 1) == GroupEnd(rows, cols, j)
      invariant group == Joined(rows, i, j) && offsets == Offsets(rows, i, j)
    {
      offsets := offsets + [|group|];
      group := group + rows[j].text;
      j := j + 1;
    }
  }

  method MapMatch(group: string, offsets: seq<nat>, base: nat, m: Match) returns (link: UrlLink)
    requires offsets != [] && m.length > 0 && m.at + m.length <= |group|
    ensures link == LinkOf(group, offsets, base, m)
  {
    var startRow, startCol := MapOffset(offsets, m.at);
    var endRow, endCol := MapOffset(offsets, m.at + m.length - 1);
    link := UrlLink(group[m.at..m.at + m.length], base + startRow, startCol, base + endRow, endCol + 1);
  }

  method ScanGroup(finder: Finder, group: string, offsets: seq<nat>, base: nat) returns (links: seq<UrlLink>)
    requires Lawful(finder) && offsets != []
    ensures links == TextLinks(finder, group, offsets, base)
  {
    links := [];
    var matches := finder.matches(group);
    assert InOrder(matches, group);
    assert Within(matches, |group|);
    for k := 0 to |matches|
      invariant links == Picked(finder, group, offsets, base, matches[..k])
    {
      var m := matches[k];
      assert m.length > 0 && m.at + m.length <= |group|;
      PickedOneMore(finder, group, offsets, base, matches, k);
      if finder.valid(group[m.at..m.at + m.length]) {
        var link := MapMatch(group, offsets, base, m);
        links := links + [link];
      }
    }
    assert matches[..|matches|] == matches;
  }

  lemma PickedOneMore(finder: Finder, text: string, offsets: seq<nat>, base: nat, matches: seq<Match>, k: nat)
    requires offsets != [] && Within(matches, |text|) && k < |matches|
    ensures var link := LinkOf(text, offsets, base, matches[k]);
            Picked(finder, text, offsets, base, matches[..k + 1])
            == Picked(finder, text, offsets, base, matches[..k]) + if finder.valid(link.url) then [link] else []
  {
    assert matches[..k + 1][..k] == matches[..k];
  }

  // ---------------------------------------------------------------- one line, in terminal cells

  /** A link with its columns in terminal cells instead of characters. */
  function InCells(link: UrlLink, maps: seq<Columns.ColumnMap>): UrlLink {
    if link.startRow >= |maps| || link.endRow >= |maps| then link
    else
      link.(startCol := Columns.OffsetToColumn(maps[link.startRow], link.startCol),
            endCol := Columns.OffsetToColumnExclusive(maps[link.endRow], link.endCol))
  }

  function InCellsAll(links: seq<UrlLink>, maps: seq<Columns.ColumnMap>): seq<UrlLink> {
    if links == [] then [] else InCellsAll(links[..|links| - 1], maps) + [InCells(links[|links| - 1], maps)]
  }

  lemma {:induction false} CellsOfSlice(links: seq<UrlLink>, maps: seq<Columns.ColumnMap>, first: nat, end: nat)
    requires first <= end <= |maps|
    requires forall link | link in links :: link.startRow <= link.endRow < end - first
    ensures LoweredAll(InCellsAll(links, maps[first..end]), first) == InCellsAll(LoweredAll(links, first), maps)
    decreases |links|
  {
    if links != [] {
      var n := |links| - 1;
      CellsOfSlice(links[..n], maps, first, end);
      LoweredOneMore(InCellsAll(links[..n], maps[first..end]), InCells(links[n], maps[first..end]), first);
      CellsOneMore(LoweredAll(links[..n], first), Lowered(links[n], first), maps);
      CellsOfLink(links[n], maps, first, end);
    }
  }

  lemma CellsOfLink(link: UrlLink, maps: seq<Columns.ColumnMap>, first: nat, end: nat)
    requires first <= end <= |maps| && link.startRow <= link.endRow < end - first
    ensures Lowered(InCells(link, maps[first..end]), first) == InCells(Lowered(link, first), maps)
  {
  }

  lemma {:induction false} CellsTouchAlike(links: seq<UrlLink>, maps: seq<Columns.ColumnMap>, row: nat)
    ensures Touching(InCellsAll(links, maps), row) == InCellsAll(Touching(links, row), maps)
    decreases |links|
  {
    if links != [] {
      var n := |links| - 1;
      CellsTouchAlike(links[..n], maps, row);
      TouchingOneMore(InCellsAll(links[..n], maps), InCells(links[n], maps), row);
      CellsOneMore(Touching(links[..n], row), links[n], maps);
    }
  }

  lemma TouchingOneMore(links: seq<UrlLink>, link: UrlLink, row: nat)
    ensures Touching(links + [link], row) == Touching(links, row) + if Touches(link, row) then [link] else []
  {
    assert (links + [link])[..|links|] == links;
  }

  lemma CellsOneMore(links: seq<UrlLink>, link: UrlLink, maps: seq<Columns.ColumnMap>)
    ensures InCellsAll(links + [link], maps) == InCellsAll(links, maps) + [InCells(link, maps)]
    ensures InCellsAll(links + [], maps) == InCellsAll(links, maps)
  {
    assert (links + [link])[..|links|] == links;
    assert links + [] == links;
  }

  /** The links of one buffer line: those of a scan of the whole buffer that touch it, in cells. */
  method ComputeTerminalUrlLinks(finder: Finder, rows: seq<Row>, maps: seq<Columns.ColumnMap>, cols: int, queried: int)
    returns (links: seq<UrlLink>)
    requires Lawful(finder) && |maps| == |rows|
    ensures queried < 0 || queried >= |rows| ==> links == []
    ensures 0 <= queried < |rows| ==> links == InCellsAll(Touching(LinksFrom(finder, rows, cols, 0), queried), maps)
  {
    if queried < 0 || queried >= |rows| {
      return [];
    }
    var first := queried;
    while first > 0
      invariant 0 <= first <= queried && GroupStart(rows, cols, queried) == GroupStart(rows, cols, first)
    {
      if !IsContinuation(rows[first - 1].text, rows[first].isWrapped, cols) {
        break;
      }
      first := first - 1;
    }
    var slice, end := CollectGroup(rows, cols, first);
    SameEnd(rows, cols, first, queried);
    var found := ComputeUrlLinks(finder, slice, cols);
    forall link | link in found ensures link.startRow <= link.endRow < end - first {
      LinksFromStay(finder, slice, cols, 0, link);
    }
    links := Report(found, maps[first..end], first, queried);
    CellsOfSlice(found, maps, first, end);
    CellsTouchAlike(LoweredAll(found, first), maps, queried);
    LineLinksAreTheBuffers(finder, slice, rows, cols, queried, first);
  }

  method CollectGroup(rows: seq<Row>, cols: int, first: nat) returns (slice: seq<Row>, r: nat)
    requires first < |rows|
    ensures r == GroupEnd(rows, cols, first + 1) == first + |slice| && IsSlice(slice, rows, first)
  {
    slice := [rows[first].(isWrapped := false)];
    r := first + 1;
    while r < |rows|
      invariant first < r <= |rows| && r == first + |slice| && IsSlice(slice, rows, first)
      invariant GroupEnd(rows, cols, first + 1) == GroupEnd(rows, cols, r)
    {
      if !IsContinuation(slice[|slice| - 1].text, rows[r].isWrapped, cols) {
        break;
      }
      slice := slice + [rows[r]];
      r := r + 1;
    }
  }

  /** Converts the columns, counts rows from the buffer's first, and keeps what touches the line. */
  method Report(found: seq<UrlLink>, maps: seq<Columns.ColumnMap>, first: nat,
                queried: nat) returns (links: seq<UrlLink>)
    ensures links == Touching(LoweredAll(InCellsAll(found, maps), first), queried)
  {
    links := [];
    ghost var done: seq<UrlLink> := [];
    for k := 0 to |found|
      invariant done == LoweredAll(InCellsAll(found[..k], maps), first)
      invariant links == Touching(done, queried)
    {
      assert found[..k + 1] == found[..k] + [found[k]];
      CellsOneMore(found[..k], found[k], maps);
      LoweredOneMore(InCellsAll(found[..k], maps), InCells(found[k], maps), first);
      var link := Lowered(InCells(found[k], maps), first);
      TouchingOneMore(done, link, queried);
      done := done + [link];
      if link.startRow <= queried <= link.endRow {
        links := links + [link];
      }
    }
    assert found[..|found|] == found;
  }

  // ---------------------------------------------------------------- what the cells of a link mean

  /** The maps describe the cells of the rows, which hold exactly the rows' texts. */
  ghost predicate Drawn(rows: seq<Row>, lines: seq<seq<Columns.Cell>>, maps: seq<Columns.ColumnMap>) {
    && |lines| == |maps| == |rows|
    && (forall k | 0 <= k < |rows| ::
          Columns.Describes(maps[k], lines[k], |lines[k]|) && maps[k].totalOffsets == |rows[k].text|)
  }

  predicate InCell(cells: seq<Columns.Cell>, k: nat, offset: nat)
    requires k < |cells|
  {
    Columns.Offset(cells, k) <= offset < Columns.Offset(cells, k + 1)
  }

  /** Cell `k` of the row holds a character of the link. */
  ghost predicate CellTouches(link: UrlLink, cells: seq<Columns.Cell>, row: nat, k: nat)
    requires k < |cells|
  {
    exists offset: nat :: InCell(cells, k, offset) && Contains(link, row, offset)
  }

  lemma HoldsSomeCharacter(cells: seq<Columns.Cell>, k: nat, start: nat, endExclusive: nat)
    requires k < |cells| && start < endExclusive
    ensures Columns.HoldsSome(cells, k, start, endExclusive)
            <==> exists offset: nat :: InCell(cells, k, offset) && start <= offset < endExclusive
  {
    var first := Columns.Offset(cells, k);
    assert first < Columns.Offset(cells, k + 1);
    if Columns.HoldsSome(cells, k, start, endExclusive) {
      var offset := if first < start then start else first;
      assert InCell(cells, k, offset) && start <= offset < endExclusive;
    }
  }

  /** The part of a link on one of its rows. */
  function RowStart(link: UrlLink, row: nat): int {
    if row == link.startRow then link.startCol else 0
  }

  function RowEnd(link: UrlLink, row: nat, length: nat): int {
    if row == link.endRow then link.endCol else length
  }

  lemma WholeRowColumns(m: Columns.ColumnMap, cells: seq<Columns.Cell>)
    requires Columns.Describes(m, cells, |cells|) && cells != []
    ensures Columns.OffsetToColumn(m, 0) == 0
    ensures Columns.OffsetToColumnExclusive(m, m.totalOffsets) == m.totalColumns
  {
    Columns.FirstColumnOfCell(cells, 0);
    Columns.LastCell(cells);
    Columns.EndColumn(m, cells, m.totalOffsets);
  }

  /** On a row that a link touches, in characters. */
  lemma RowTouches(link: UrlLink, cells: seq<Columns.Cell>, row: nat, k: nat, length: nat)
    requires k < |cells| && Touches(link, row) && Columns.Offset(cells, |cells|) == length
    requires 0 <= RowStart(link, row) < RowEnd(link, row, length)
    ensures CellTouches(link, cells, row, k)
            <==> Columns.HoldsSome(cells, k, RowStart(link, row), RowEnd(link, row, length))
  {
    HoldsSomeCharacter(cells, k, RowStart(link, row), RowEnd(link, row, length));
    if k + 1 < |cells| {
      Columns.ColumnsGrow(cells, k + 1, |cells|);
    }
  }

  /** What decides whether a column of cell `k` is in a link: for the first column, that the cell holds one
      of its characters; for any further one, that the cell's last character is one. */
  ghost predicate Covers(link: UrlLink, cells: seq<Columns.Cell>, row: nat, k: nat, column: nat)
    requires k < |cells|
  {
    if column == Columns.Column(cells, k) then CellTouches(link, cells, row, k)
    else Contains(link, row, Columns.Offset(cells, k + 1) - 1)
  }

  lemma InCellsIffCovers(link: UrlLink, rows: seq<Row>, lines: seq<seq<Columns.Cell>>, maps: seq<Columns.ColumnMap>,
                         row: nat, column: nat)
    requires Drawn(rows, lines, maps) && Fits(rows, link) && row < |rows| && column < maps[row].totalColumns
    ensures Contains(InCells(link, maps), row, column)
            <==> Covers(link, lines[row], row, Columns.CellOfColumn(lines[row], |lines[row]|, column), column)
  {
    if Touches(link, row) {
      var m, cells := maps[row], lines[row];
      var start, end := RowStart(link, row), RowEnd(link, row, m.totalOffsets);
      InCellsOnRow(link, maps, cells, row, column);
      Columns.ColumnInRangeIff(m, cells, start, end, column);
      CoversIff(link, cells, row, Columns.CellOfColumn(cells, |cells|, column), column, m.totalOffsets);
    }
  }

  lemma InCellsOnRow(link: UrlLink, maps: seq<Columns.ColumnMap>, cells: seq<Columns.Cell>, row: nat, column: nat)
    requires row < |maps| && Columns.Describes(maps[row], cells, |cells|) && column < maps[row].totalColumns
    requires Touches(link, row)
    requires link.endRow < |maps|
    ensures Contains(InCells(link, maps), row, column)
            <==> Columns.OffsetToColumn(maps[row], RowStart(link, row)) <= column
                 < Columns.OffsetToColumnExclusive(maps[row], RowEnd(link, row, maps[row].totalOffsets))
  {
    WholeRowColumns(maps[row], cells);
  }

  lemma CoversIff(link: UrlLink, cells: seq<Columns.Cell>, row: nat, k: nat, column: nat, length: nat)
    requires k < |cells| && Touches(link, row) && Columns.Offset(cells, |cells|) == length
    requires 0 <= RowStart(link, row) < RowEnd(link, row, length) <= length
    ensures Covers(link, cells, row, k, column)
            <==> if column == Columns.Column(cells, k)
                 then Columns.HoldsSome(cells, k, RowStart(link, row), RowEnd(link, row, length))
                 else RowStart(link, row) < Columns.Offset(cells, k + 1) <= RowEnd(link, row, length)
  {
    RowTouches(link, cells, row, k, length);
    LastCharacter(cells, k);
  }

  lemma LastCharacter(cells: seq<Columns.Cell>, k: nat)
    requires k < |cells|
    ensures Columns.Offset(cells, k) < Columns.Offset(cells, k + 1) <= Columns.Offset(cells, |cells|)
    ensures InCell(cells, k, Columns.Offset(cells, k + 1) - 1)
  {
    if k + 1 < |cells| {
      Columns.ColumnsGrow(cells, k + 1, |cells|);
    }
  }

  lemma {:induction false} CellsAreOfLinks(links: seq<UrlLink>, maps: seq<Columns.ColumnMap>, shown: UrlLink)
    ensures shown in InCellsAll(links, maps) <==> exists link :: link in links && InCells(link, maps) == shown
    decreases |links|
  {
    if links != [] {
      var n := |links| - 1;
      CellsAreOfLinks(links[..n], maps, shown);
      if link :| link in links && InCells(link, maps) == shown {
        assert link in links[..n] || link == links[n];
      }
      assert links[n] in links && forall link | link in links[..n] :: link in links;
    }
  }

  /** A terminal position of a line lies in a link reported for that line. */
  ghost predicate Reported(finder: Finder, rows: seq<Row>, maps: seq<Columns.ColumnMap>, cols: int, row: nat,
                           column: nat)
    requires Lawful(finder)
  {
    exists shown :: shown in InCellsAll(Touching(LinksFrom(finder, rows, cols, 0), row), maps)
                    && Contains(shown, row, column)
  }

  /** Cell `k` of a row holds a character of a valid URL. */
  ghost predicate CellHoldsUrl(finder: Finder, rows: seq<Row>, cells: seq<Columns.Cell>, cols: int, row: nat, k: nat)
    requires Lawful(finder) && row < |rows| && k < |cells|
  {
    exists offset: nat :: InCell(cells, k, offset) && HoldsUrl(finder, rows, cols, row, offset)
  }

  /** What the links of a line show at a column of cell `k`, in terms of the URLs. */
  ghost predicate ShowsUrl(finder: Finder, rows: seq<Row>, cells: seq<Columns.Cell>, cols: int, row: nat, k: nat,
                           column: nat)
    requires Lawful(finder) && row < |rows| && k < |cells|
  {
    if column == Columns.Column(cells, k) then CellHoldsUrl(finder, rows, cells, cols, row, k)
    else HoldsUrl(finder, rows, cols, row, Columns.Offset(cells, k + 1) - 1)
  }

  /** A terminal position lies in a reported link if and only if: for the first column of its cell, the cell
      holds a character of a valid URL; for any further column, the cell's last character is one. */
  lemma LinkedColumnIffUrl(finder: Finder, rows: seq<Row>, lines: seq<seq<Columns.Cell>>, maps: seq<Columns.ColumnMap>,
                           cols: int, row: nat, column: nat)
    requires Lawful(finder) && Drawn(rows, lines, maps) && row < |rows| && column < maps[row].totalColumns
    ensures Reported(finder, rows, maps, cols, row, column)
            <==> ShowsUrl(finder, rows, lines[row], cols, row,
                          Columns.CellOfColumn(lines[row], |lines[row]|, column), column)
  {
    var k := Columns.CellOfColumn(lines[row], |lines[row]|, column);
    ReportedIffCovered(finder, rows, lines, maps, cols, row, column);
    CoveredIffShowsUrl(finder, rows, lines[row], cols, row, k, column);
  }

  ghost predicate Covered(links: seq<UrlLink>, cells: seq<Columns.Cell>, row: nat, k: nat, column: nat)
    requires k < |cells|
  {
    exists link :: link in links && Covers(link, cells, row, k, column)
  }

  lemma ReportedIffCovered(finder: Finder, rows: seq<Row>, lines: seq<seq<Columns.Cell>>, maps: seq<Columns.ColumnMap>,
                           cols: int, row: nat, column: nat)
    requires Lawful(finder) && Drawn(rows, lines, maps) && row < |rows| && column < maps[row].totalColumns
    ensures Reported(finder, rows, maps, cols, row, column)
            <==> Covered(LinksFrom(finder, rows, cols, 0), lines[row], row,
                         Columns.CellOfColumn(lines[row], |lines[row]|, column), column)
  {
    var links := LinksFrom(finder, rows, cols, 0);
    var k := Columns.CellOfColumn(lines[row], |lines[row]|, column);
    forall link | link in links
      ensures Contains(InCells(link, maps), row, column) <==> Covers(link, lines[row], row, k, column)
      ensures link in Touching(links, row) <==> Touches(link, row)
    {
      LinksFromStay(finder, rows, cols, 0, link);
      InCellsIffCovers(link, rows, lines, maps, row, column);
      AllTouchOrNot(links, row, link);
    }
    ReportedIffSomeTouches(links, maps, row, column);
  }

  /** Some link of the row, in cells, contains the position exactly when some link of all does. */
  lemma ReportedIffSomeTouches(links: seq<UrlLink>, maps: seq<Columns.ColumnMap>, row: nat, column: nat)
    ensures (exists shown :: shown in InCellsAll(Touching(links, row), maps) && Contains(shown, row, column))
            <==> exists link :: link in links && Contains(InCells(link, maps), row, column)
  {
    if shown :| shown in InCellsAll(Touching(links, row), maps) && Contains(shown, row, column) {
      CellsAreOfLinks(Touching(links, row), maps, shown);
      var link :| link in Touching(links, row) && InCells(link, maps) == shown;
      AllTouchOrNot(links, row, link);
    }
    if link :| link in links && Contains(InCells(link, maps), row, column) {
      AllTouchOrNot(links, row, link);
      CellsAreOfLinks(Touching(links, row), maps, InCells(link, maps));
    }
  }

  lemma CoveredIffShowsUrl(finder: Finder, rows: seq<Row>, cells: seq<Columns.Cell>, cols: int, row: nat, k: nat,
                           column: nat)
    requires Lawful(finder) && row < |rows| && k < |cells| && Columns.Offset(cells, |cells|) == |rows[row].text|
    ensures Covered(LinksFrom(finder, rows, cols, 0), cells, row, k, column)
            <==> ShowsUrl(finder, rows, cells, cols, row, k, column)
  {
    var links := LinksFrom(finder, rows, cols, 0);
    LastCharacter(cells, k);
    forall offset: nat | InCell(cells, k, offset)
      ensures (exists link :: link in links && Contains(link, row, offset))
              <==> HoldsUrl(finder, rows, cols, row, offset)
    {
      LinkedIffUrl(finder, rows, cols, row, offset);
    }
    CoveredIffOffset(links, cells, row, k, column);
  }

  lemma CoveredIffOffset(links: seq<UrlLink>, cells: seq<Columns.Cell>, row: nat, k: nat, column: nat)
    requires k < |cells|
    ensures Covered(links, cells, row, k, column) <==>
            if column == Columns.Column(cells, k)
            then exists offset: nat, link :: InCell(cells, k, offset) && link in links && Contains(link, row, offset)
            else exists link :: link in links && Contains(link, row, Columns.Offset(cells, k + 1) - 1)
  {
    if column == Columns.Column(cells, k) {
      if link :| link in links && CellTouches(link, cells, row, k) {
        var offset: nat :| InCell(cells, k, offset) && Contains(link, row, offset);
      }
      if offset: nat, link :| InCell(cells, k, offset) && link in links && Contains(link, row, offset) {
        assert CellTouches(link, cells, row, k);
      }
    }
  }

  /** No cell of a line that holds a character of a URL ends, being wide, with a character of none. */
  ghost predicate WideCellsEndInUrls(finder: Finder, rows: seq<Row>, cells: seq<Columns.Cell>, cols: int, row: nat)
    requires Lawful(finder) && row < |rows|
  {
    forall k | 0 <= k < |cells| && Columns.Width(cells[k]) > 1 && CellHoldsUrl(finder, rows, cells, cols, row, k) ::
      HoldsUrl(finder, rows, cols, row, Columns.Offset(cells, k + 1) - 1)
  }

  /** A position of a line lies in a reported link exactly when its cell holds a character of a valid URL. */
  ghost predicate CellIsShown(finder: Finder, rows: seq<Row>, lines: seq<seq<Columns.Cell>>,
                              maps: seq<Columns.ColumnMap>, cols: int, row: nat, column: nat)
    requires Lawful(finder) && Drawn(rows, lines, maps) && row < |rows| && column < maps[row].totalColumns
  {
    Reported(finder, rows, maps, cols, row, column)
    <==> CellHoldsUrl(finder, rows, lines[row], cols, row,
                      Columns.CellOfColumn(lines[row], |lines[row]|, column))
  }

  /** All cells of a line are shown right if and only if every wide one that holds a character of a URL ends
      with one. */
  lemma LinkedCellsIffUrl(finder: Finder, rows: seq<Row>, lines: seq<seq<Columns.Cell>>, maps: seq<Columns.ColumnMap>,
                          cols: int, row: nat)
    requires Lawful(finder) && Drawn(rows, lines, maps) && row < |rows|
    ensures (forall column | 0 <= column < maps[row].totalColumns ::
               CellIsShown(finder, rows, lines, maps, cols, row, column))
            <==> WideCellsEndInUrls(finder, rows, lines[row], cols, row)
  {
    if WideCellsEndInUrls(finder, rows, lines[row], cols, row) {
      forall column | 0 <= column < maps[row].totalColumns
        ensures CellIsShown(finder, rows, lines, maps, cols, row, column)
      {
        CellIsShownIf(finder, rows, lines, maps, cols, row, column);
      }
    } else {
      var k :| 0 <= k < |lines[row]| && Columns.Width(lines[row][k]) > 1
               && CellHoldsUrl(finder, rows, lines[row], cols, row, k)
               && !HoldsUrl(finder, rows, cols, row, Columns.Offset(lines[row], k + 1) - 1);
      var column := CutCellIsNotShown(finder, rows, lines, maps, cols, row, k);
    }
  }

  /** Of a wide cell that holds a character of a URL but ends with a character of none, the last column is lost. */
  lemma CutCellIsNotShown(finder: Finder, rows: seq<Row>, lines: seq<seq<Columns.Cell>>,
                          maps: seq<Columns.ColumnMap>, cols: int, row: nat, k: nat) returns (column: nat)
    requires Lawful(finder) && Drawn(rows, lines, maps) && row < |rows|
    requires k < |lines[row]| && Columns.Width(lines[row][k]) > 1
    requires CellHoldsUrl(finder, rows, lines[row], cols, row, k)
    requires !HoldsUrl(finder, rows, cols, row, Columns.Offset(lines[row], k + 1) - 1)
    ensures column == Columns.Column(lines[row], k + 1) - 1 < maps[row].totalColumns
    ensures !CellIsShown(finder, rows, lines, maps, cols, row, column)
  {
    column := Columns.Column(lines[row], k + 1) - 1;
    Columns.LastColumnOfCell(lines[row], k);
    assert column != Columns.Column(lines[row], k);
    LinkedColumnIffUrl(finder, rows, lines, maps, cols, row, column);
  }

  lemma CellIsShownIf(finder: Finder, rows: seq<Row>, lines: seq<seq<Columns.Cell>>, maps: seq<Columns.ColumnMap>,
                      cols: int, row: nat, column: nat)
    requires Lawful(finder) && Drawn(rows, lines, maps) && row < |rows| && column < maps[row].totalColumns
    requires WideCellsEndInUrls(finder, rows, lines[row], cols, row)
    ensures CellIsShown(finder, rows, lines, maps, cols, row, column)
  {
    var cells := lines[row];
    var k := Columns.CellOfColumn(cells, |cells|, column);
    LinkedColumnIffUrl(finder, rows, lines, maps, cols, row, column);
    LastCharacter(cells, k);
    if column != Columns.Column(cells, k) {
      assert Columns.Width(cells[k]) > 1;
      if HoldsUrl(finder, rows, cols, row, Columns.Offset(cells, k + 1) - 1) {
        assert CellHoldsUrl(finder, rows, cells, cols, row, k);
      }
    }
  }
}
