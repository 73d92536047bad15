/**
 * The home list's "more" link and its window (components/home/browse-state.ts, components/home/ProjectGrid.tsx), and
 * the counts on its filter chips.
 */
module BrowseWindow {
  import opened Basics

  const HOME_FIRST_PAGE: nat := 9
  const HOME_PAGE_SIZE: nat := 9
  const HOME_MAX_SHOWN: nat := 198
  const MAX_SAFE_INTEGER: nat := 9_007_199_254_740_991

  /** The slice of the list one page draws: `count` items from `start`. */
  datatype Window = Window(start: nat, count: nat)

  function Min(a: int, b: int): int { if a <= b then a else b }

  /** `shown` in the address; `None` when it is missing or not an integer. */
  function ParseShown(value: Option<int>): (r: nat)
    ensures HOME_FIRST_PAGE <= r
    ensures value.Some? && HOME_FIRST_PAGE <= value.value <= MAX_SAFE_INTEGER ==> r == value.value
    ensures value.None? || value.value < HOME_FIRST_PAGE || value.value > MAX_SAFE_INTEGER ==> r == HOME_FIRST_PAGE
  {
    if value.None? || value.value > MAX_SAFE_INTEGER || value.value <= HOME_FIRST_PAGE then HOME_FIRST_PAGE
    else value.value
  }

  function ShownWindow(shown: int, total: int): Window {
    var least := Min(shown, total);
    var end := if least < 0 then 0 else least;
    var start := if end < HOME_MAX_SHOWN then 0 else end - HOME_MAX_SHOWN;
    Window(start, end - start)
  }

  /** The `shown` parameter of an address: left out for the first page. */
  function ShownParam(shown: Option<int>): Option<int> {
    if shown.Some? && shown.value > HOME_FIRST_PAGE then shown else None
  }

  predicate HasMore(limit: nat, total: nat) {
    limit < total
  }

  /** Following the "more" link: into the address and out of it again. */
  function More(limit: nat, total: nat): nat {
    ParseShown(ShownParam(Some(Min(limit + HOME_PAGE_SIZE, total))))
  }

  /** The items the grid draws: the page's slice, cut at the limit once more. */
  function Drawn(limit: nat, total: nat): Window {
    var w := ShownWindow(limit, total);
    Window(w.start, if limit < w.start then 0 else Min(w.count, limit - w.start))
  }

  predicate Draws(limit: nat, total: nat, index: nat) {
    var w := Drawn(limit, total);
    w.start <= index < w.start + w.count
  }

  /** The limit after following "more" `steps` times, from the limit of an address. */
  function Followed(limit: nat, total: nat, steps: nat): nat {
    if steps == 0 then limit
    else
      var before := Followed(limit, total, steps - 1);
      if HasMore(before, total) then More(before, total) else before
  }

  /** No page draws more than 198 items, whatever the address says; it ends at the limit or the list's end. */
  lemma WindowIsBounded(shown: int, total: nat)
    ensures var w := ShownWindow(shown, total);
            && w.count <= HOME_MAX_SHOWN
            && w.start + w.count == (if shown < 0 then 0 else Min(shown, total))
            && (w.start > 0 ==> w.count == HOME_MAX_SHOWN)
    ensures shown >= 0 ==> Drawn(shown, total) == ShownWindow(shown, total)
  {
  }

  lemma MoreAdvances(limit: nat, total: nat)
    requires HOME_FIRST_PAGE <= limit < total <= MAX_SAFE_INTEGER
    ensures limit < More(limit, total) == Min(limit + HOME_PAGE_SIZE, total)
  {
  }

  /** The address of the first page names no limit, and every other is read back as it was. */
  lemma FirstPageIsUnnamed(limit: nat)
    requires HOME_FIRST_PAGE <= limit <= MAX_SAFE_INTEGER
    ensures ShownParam(Some(limit)).None? <==> limit == HOME_FIRST_PAGE
    ensures ParseShown(ShownParam(Some(limit))) == limit
  {
  }

  lemma {:induction false} FollowedLimit(limit: nat, total: nat, steps: nat)
    requires HOME_FIRST_PAGE <= limit && total <= MAX_SAFE_INTEGER
    ensures Followed(limit, total, steps) == if limit < total then Min(limit + steps * HOME_PAGE_SIZE, total) else limit
  {
    if steps > 0 {
      FollowedLimit(limit, total, steps - 1);
      var before := Followed(limit, total, steps - 1);
      if before < total {
        MoreAdvances(before, total);
      }
    }
  }

  /** How often "more" can be followed from an address. */
  function StepsToEnd(limit: nat, total: nat): nat {
    if limit >= total then 0 else (total - limit + HOME_PAGE_SIZE - 1) / HOME_PAGE_SIZE
  }

  /** From any address the limit grows with every step, and the link disappears after exactly `StepsToEnd` of them. */
  lemma MoreEnds(value: Option<int>, total: nat, steps: nat)
    requires total <= MAX_SAFE_INTEGER
    ensures var limit := ParseShown(value);
            && (HasMore(Followed(limit, total, steps), total) <==> steps < StepsToEnd(limit, total))
            && (steps < StepsToEnd(limit, total) ==> Followed(limit, total, steps) < Followed(limit, total, steps + 1))
  {
    var limit := ParseShown(value);
    FollowedLimit(limit, total, steps);
    if HasMore(Followed(limit, total, steps), total) {
      MoreAdvances(Followed(limit, total, steps), total);
    }
  }

  /** From the first page every item of the list is drawn at some step, right when the limit first passes it. */
  lemma EveryItemIsDrawn(total: nat, index: nat) returns (steps: nat)
    requires index < total <= MAX_SAFE_INTEGER
    ensures steps <= StepsToEnd(HOME_FIRST_PAGE, total)
    ensures Draws(Followed(ParseShown(None), total, steps), total, index)
    ensures steps > 0 ==> Followed(ParseShown(None), total, steps - 1) <= index
  {
    steps := index / HOME_PAGE_SIZE;
    FollowedLimit(HOME_FIRST_PAGE, total, steps);
    if steps > 0 {
      FollowedLimit(HOME_FIRST_PAGE, total, steps - 1);
    }
  }

  /** Nothing new slips past between two steps: what the next limit adds is drawn with it. */
  lemma StepsOverlap(limit: nat, total: nat, index: nat)
    requires HOME_FIRST_PAGE <= limit < total <= MAX_SAFE_INTEGER
    ensures limit <= index < More(limit, total) ==> Draws(More(limit, total), total, index)
    ensures Draws(limit, total, index) && !Draws(More(limit, total), total, index) ==>
              index < More(limit, total) - HOME_MAX_SHOWN
  {
    MoreAdvances(limit, total);
  }

  // ---------- the counts on the chips ----------

  datatype Category = Category(name: string)

  type Level = nat

  datatype LevelCount = LevelCount(category: Category, level: Level, count: nat)

  /** `categoryCountsForAi`: one pass filling a record. */
  method CategoryCountsForAi(rows: seq<LevelCount>, levels: set<Level>) returns (counts: map<Category, nat>)
    ensures forall category :: category in counts <==>
              exists i :: 0 <= i < |rows| && rows[i].category == category && rows[i].level in levels
    ensures forall category :: category in counts ==> counts[category] == AiFilterCount(rows, levels, Some(category))
  {
    counts := map[];
    for i := 0 to |rows|
      invariant forall category :: category in counts <==>
                  exists j :: 0 <= j < i && rows[j].category == category && rows[j].level in levels
      invariant forall category :: AiFilterCount(rows[..i], levels, Some(category)) == CountOf(counts, category)
    {
      var row := rows[i];
      assert rows[..i + 1][..i] == rows[..i];
      if row.level in levels {
        counts := counts[row.category := CountOf(counts, row.category) + row.count];
      }
    }
    assert rows[..|rows|] == rows;
  }

  function CountOf(counts: map<Category, nat>, category: Category): nat {
    if category in counts then counts[category] else 0
  }

  /** `aiFilterCounts` for one filter: the rows of the chosen category, or all rows. */
  function AiFilterCount(rows: seq<LevelCount>, levels: set<Level>, category: Option<Category>): nat {
    if rows == [] then 0
    else
      var row := rows[|rows| - 1];
      AiFilterCount(rows[..|rows| - 1], levels, category)
      + if (category.None? || row.category == category.value) && row.level in levels then row.count else 0
  }

  function Summed(rows: seq<LevelCount>, levels: set<Level>, categories: seq<Category>): nat {
    if categories == [] then 0
    else Summed(rows, levels, categories[..|categories| - 1])
         + AiFilterCount(rows, levels, Some(categories[|categories| - 1]))
  }

  /** The category chips add up to the filter's chip, when each category has one chip. */
  lemma {:induction false} ChipsAddUp(rows: seq<LevelCount>, levels: set<Level>, categories: seq<Category>)
    requires forall i, j :: 0 <= i < j < |categories| ==> categories[i] != categories[j]
    requires forall row :: row in rows && row.level in levels ==> row.category in categories
    ensures Summed(rows, levels, categories) == AiFilterCount(rows, levels, None)
  {
    if rows == [] {
      NoRows(levels, categories);
    } else {
      var front, row := rows[..|rows| - 1], rows[|rows| - 1];
      assert rows == front + [row];
      ChipsAddUp(front, levels, categories);
      OneRowMore(front, row, levels, categories);
    }
  }

  lemma {:induction false} NoRows(levels: set<Level>, categories: seq<Category>)
    ensures Summed([], levels, categories) == 0
  {
    if categories != [] {
      NoRows(levels, categories[..|categories| - 1]);
    }
  }

  lemma {:induction false} OneRowMore(front: seq<LevelCount>, row: LevelCount, levels: set<Level>,
                                      categories: seq<Category>)
    requires forall i, j :: 0 <= i < j < |categories| ==> categories[i] != categories[j]
    ensures Summed(front + [row], levels, categories)
         == Summed(front, levels, categories)
            + if row.level in levels && row.category in categories then row.count else 0
  {
    if categories != [] {
      var rest, last := categories[..|categories| - 1], categories[|categories| - 1];
      assert categories == rest + [last];
      OneRowMore(front, row, levels, rest);
      assert (front + [row])[..|front|] == front;
    }
  }
}
