/** The inline keyboards of the receive flow (app/keyboards/receive.py). */
module ReceiveKeyboards {

  import opened Common
  import opened Text
  import opened Ints
  import opened Markup

  /** A condition button: icon and label as the caption, `recv:cond:{token}` as the data. */
  function CondButton(icon: string, caption: string, token: string): Button {
    Button(icon + " " + caption, "recv:cond:" + token)
  }

  /** Condition picker: one button per condition token. */
  function StatusKb(): (kb: Keyboard)
    ensures |kb| == 4 && forall r | r in kb :: |r| == 1
  {
    [ [CondButton("\U{2705}", "Исправный", "ok")],
      [CondButton("\U{274c}", "Не исправный", "bad")],
      [CondButton("\U{1f6e1}", "Гарантийный", "warranty")],
      [CondButton("\U{1f9ea}", "На проверку", "check")] ]
  }

  const SkipCaption := "\U{23ed}\U{fe0f} Пропустить"

  function RaData(token: string): string {
    "recv:ra:" + token
  }

  /** Machine picker: the three machines and a skip button. */
  function RaKb(): (kb: Keyboard)
    ensures |kb| == 4 && forall r | r in kb :: |r| == 1
  {
    [ [Button("РА1", RaData("RA1"))],
      [Button("РА2", RaData("RA2"))],
      [Button("РА3", RaData("RA3"))],
      [Button(SkipCaption, RaData("skip"))] ]
  }

  /** The skip button offered at the machine-number step. */
  function SkipKb(): (kb: Keyboard)
    ensures |kb| == 1 && RowData(kb[0]) == ["recv:skip"]
  {
    [[Button(SkipCaption, "recv:skip")]]
  }

  /** The manual-entry button that closes every choice keyboard. */
  function ManualRow(prefix: string): Row {
    [Button("\U{270d}\U{fe0f} Ввести вручную", prefix + ":manual")]
  }

  /** `choices_kb`: one button per value carrying `prefix:value`, then the manual-entry row. */
  function ChoicesKb(values: seq<string>, prefix: string): (kb: Keyboard)
    ensures |kb| == |values| + 1
    ensures kb[|values|] == ManualRow(prefix)
    ensures forall i | 0 <= i < |values| :: kb[i] == [Button(values[i], prefix + ":" + values[i])]
  {
    seq(|values|, i requires 0 <= i < |values| => [Button(values[i], prefix + ":" + values[i])])
      + [ManualRow(prefix)]
  }

  /** A value without a colon comes back from its `choices_kb` button under `split(":")[-1]`. */
  lemma ChoicesKbDecodes(values: seq<string>, prefix: string, i: int)
    requires 0 <= i < |values| && ':' !in values[i]
    ensures LastPart(ChoicesKb(values, prefix)[i][0].data, ':') == values[i]
  {
    assert prefix + ":" + values[i] == prefix + [':'] + values[i];
    LastPartAfterSep(prefix, ':', values[i]);
  }

  // ---- choices_paged_kb ----

  /** Index of the first value on a page; negative pages count as page 0. */
  function PageStart(page: int, pageSize: nat): nat {
    Max(page, 0) * pageSize
  }

  /** One past the index of the last value on a page. */
  function PageEnd(total: nat, page: int, pageSize: nat): nat {
    Min(PageStart(page, pageSize) + pageSize, total)
  }

  /** Number of pages as the indicator shows it: `(total - 1) // page_size + 1`. */
  function PageCount(total: nat, pageSize: nat): int
    requires pageSize > 0
  {
    (total - 1) / pageSize + 1
  }

  function ItemData(prefix: string, idx: int): string {
    WithId(prefix + ":idx", idx)
  }

  function PageData(prefix: string, page: int): string {
    WithId(prefix + ":page", page)
  }

  /** The button for `values[idx]`. */
  function ItemRow(values: seq<string>, prefix: string, idx: nat): Row
    requires idx < |values|
  {
    [Button(values[idx], ItemData(prefix, idx))]
  }

  /** Rows for `values[from..to]`, each tagged with its absolute index. */
  function ItemRows(values: seq<string>, prefix: string, from: nat, to: nat): (rows: Keyboard)
    requires from <= to <= |values|
    ensures |rows| == to - from
    ensures forall i | 0 <= i < to - from :: rows[i] == ItemRow(values, prefix, from + i)
  {
    seq(to - from, i requires 0 <= i < to - from => ItemRow(values, prefix, from + i))
  }

  lemma ItemRowsSnoc(values: seq<string>, prefix: string, from: nat, to: nat)
    requires from <= to < |values|
    ensures ItemRows(values, prefix, from, to + 1) == ItemRows(values, prefix, from, to) + [ItemRow(values, prefix, to)]
  {
  }

  /** The back arrow, present when the page does not start at the first value. */
  function PrevButton(prefix: string, page: int, pageSize: nat): Row
    requires pageSize > 0
  {
    var start := PageStart(page, pageSize);
    if start > 0 then [Button("\U{25c0}\U{fe0f}", PageData(prefix, start / pageSize - 1))] else []
  }

  /** The page indicator `"{page+1}/{page count}"`. */
  function Indicator(total: nat, page: int, pageSize: nat): Button
    requires pageSize > 0
  {
    var p := PageStart(page, pageSize) / pageSize;
    Button(IntToString(p + 1) + "/" + IntToString(PageCount(total, pageSize)), "noop")
  }

  /** The forward arrow, present when values follow the page. */
  function NextButton(total: nat, prefix: string, page: int, pageSize: nat): Row
    requires pageSize > 0
  {
    if PageEnd(total, page, pageSize) < total
    then [Button("\U{25b6}\U{fe0f}", PageData(prefix, PageStart(page, pageSize) / pageSize + 1))]
    else []
  }

  /** The navigation row: back arrow, indicator, forward arrow. */
  function NavRow(total: nat, prefix: string, page: int, pageSize: nat): Row
    requires pageSize > 0
  {
    PrevButton(prefix, page, pageSize) + [Indicator(total, page, pageSize)] + NextButton(total, prefix, page, pageSize)
  }

  /** The keyboard `choices_paged_kb` returns. */
  function PagedKb(values: seq<string>, prefix: string, page: int, pageSize: nat): Keyboard
    requires pageSize > 0
  {
    var start := PageStart(page, pageSize);
    var end := PageEnd(|values|, page, pageSize);
    ItemRows(values, prefix, Min(start, end), end)
      + [NavRow(|values|, prefix, page, pageSize)]
      + [ManualRow(prefix)]
  }

  /** `choices_paged_kb`: appends the page's item rows one by one, then the navigation and manual rows. */
  method ChoicesPagedKb(values: seq<string>, prefix: string, page: int, pageSize: nat) returns (kb: Keyboard)
    requires pageSize > 0
    ensures kb == PagedKb(values, prefix, page, pageSize)
  {
    var total := |values|;
    var start := Max(page, 0) * pageSize;
    var end := Min(start + pageSize, total);
    var rows: Keyboard := [];
    var idx := Min(start, end);
    while idx < end
      invariant Min(start, end) <= idx <= end
      invariant rows == ItemRows(values, prefix, Min(start, end), idx)
    {
      ItemRowsSnoc(values, prefix, Min(start, end), idx);
      rows := rows + [ItemRow(values, prefix, idx)];
      idx := idx + 1;
    }
    assert start == PageStart(page, pageSize) && end == PageEnd(total, page, pageSize);
    var nav := PagedNavRow(total, prefix, page, pageSize);
    if nav != [] {
      rows := rows + [nav];
    }
    rows := rows + [ManualRow(prefix)];
    kb := rows;
  }

  /** The navigation row of `choices_paged_kb`, built button by button. */
  method PagedNavRow(total: nat, prefix: string, page: int, pageSize: nat) returns (nav: Row)
    requires pageSize > 0
    ensures nav == NavRow(total, prefix, page, pageSize)
  {
    var start := Max(page, 0) * pageSize;
    var end := Min(start + pageSize, total);
    var p := start / pageSize;
    nav := [];
    if start > 0 {
      nav := nav + [Button("\U{25c0}\U{fe0f}", PageData(prefix, p - 1))];
    }
    assert nav == PrevButton(prefix, page, pageSize);
    nav := nav + [Button(IntToString(p + 1) + "/" + IntToString((total - 1) / pageSize + 1), "noop")];
    assert nav == PrevButton(prefix, page, pageSize) + [Indicator(total, page, pageSize)];
    if end < total {
      nav := nav + [Button("\U{25b6}\U{fe0f}", PageData(prefix, p + 1))];
    }
  }

  // ---- properties of the paged keyboard ----

  /**
    * The keyboard is the page's values `values[start..end)`, at most `pageSize` of them and each
    * tagged with its absolute index, then the navigation row, then the manual-entry row.
    */
  lemma {:induction false} PagedKbShape(values: seq<string>, prefix: string, page: int, pageSize: nat)
    requires pageSize > 0
    ensures var kb := PagedKb(values, prefix, page, pageSize);
            var start := PageStart(page, pageSize);
            var end := PageEnd(|values|, page, pageSize);
            var items := if start <= end then end - start else 0;
            && items <= pageSize
            && |kb| == items + 2
            && (forall i | 0 <= i < items :: kb[i] == [Button(values[start + i], ItemData(prefix, start + i))])
            && kb[items] == NavRow(|values|, prefix, page, pageSize)
            && kb[items + 1] == ManualRow(prefix)
  {
    var start := PageStart(page, pageSize);
    var end := PageEnd(|values|, page, pageSize);
    var rows := ItemRows(values, prefix, Min(start, end), end);
    assert PagedKb(values, prefix, page, pageSize) == rows + [NavRow(|values|, prefix, page, pageSize)] + [ManualRow(prefix)];
    assert |rows| == (if start <= end then end - start else 0);
  }

  /** Pressing an item button hands the pick handler the index of the value shown on it. */
  lemma ItemButtonDecodes(values: seq<string>, prefix: string, page: int, pageSize: nat, i: nat)
    requires pageSize > 0
    requires i + 2 < |PagedKb(values, prefix, page, pageSize)|
    ensures var b := PagedKb(values, prefix, page, pageSize)[i][0];
            && ParseInt(LastPart(b.data, ':')) == Some(PageStart(page, pageSize) + i)
            && PageStart(page, pageSize) + i < |values|
            && values[PageStart(page, pageSize) + i] == b.text
  {
    PagedKbShape(values, prefix, page, pageSize);
    WithIdDecodes(prefix + ":idx", PageStart(page, pageSize) + i);
  }

  lemma MulDivCancel(a: int, b: int)
    requires b > 0
    ensures (a * b) / b == a
  {
    var q := (a * b) / b;
    var r := (a * b) % b;
    assert (a - q) * b == r;
    assert a - q >= 1 ==> (a - q) * b >= b;
    assert a - q <= -1 ==> (a - q) * b <= -b;
  }

  lemma PageOfStart(page: int, pageSize: nat)
    requires pageSize > 0
    ensures PageStart(page, pageSize) / pageSize == Max(page, 0)
  {
    MulDivCancel(Max(page, 0), pageSize);
  }

  /**
    * The back arrow (to page `p-1`) is on the keyboard exactly when the page does not start at
    * the first value, and the forward arrow (to page `p+1`) exactly when values follow the page.
    */
  lemma {:induction false} NavButtons(values: seq<string>, prefix: string, page: int, pageSize: nat)
    requires pageSize > 0
    ensures var nav := RowData(NavRow(|values|, prefix, page, pageSize));
            var p := PageStart(page, pageSize) / pageSize;
            && (PageData(prefix, p - 1) in nav <==> PageStart(page, pageSize) > 0)
            && (PageData(prefix, p + 1) in nav <==> PageEnd(|values|, page, pageSize) < |values|)
            && "noop" in nav
  {
    var p := PageStart(page, pageSize) / pageSize;
    var back := PageData(prefix, p - 1);
    var forward := PageData(prefix, p + 1);
    WithIdDiffers(prefix + ":page", p - 1, p + 1);
    WithIdNotNoop(prefix + ":page", p - 1);
    WithIdNotNoop(prefix + ":page", p + 1);
    var hasPrev := PageStart(page, pageSize) > 0;
    var hasNext := PageEnd(|values|, page, pageSize) < |values|;
    ArrowsPresent(back, forward, hasPrev, hasNext);
    assert RowData(NavRow(|values|, prefix, page, pageSize))
        == (if hasPrev then [back] else []) + ["noop"] + (if hasNext then [forward] else []);
  }

  /** The forward arrow leads to the page that starts where this one ends. */
  lemma NextPageContinues(values: seq<string>, page: int, pageSize: nat)
    requires pageSize > 0
    requires PageEnd(|values|, page, pageSize) < |values|
    ensures PageStart(PageStart(page, pageSize) / pageSize + 1, pageSize) == PageEnd(|values|, page, pageSize)
  {
    PageOfStart(page, pageSize);
  }

  /** A negative page number shows the first page. */
  lemma NegativePageIsFirst(values: seq<string>, prefix: string, page: int, pageSize: nat)
    requires pageSize > 0 && page < 0
    ensures PagedKb(values, prefix, page, pageSize) == PagedKb(values, prefix, 0, pageSize)
  {
  }

  /** A page past the end is not clamped back: it shows no values and no forward arrow. */
  lemma PastEndPageIsEmpty(values: seq<string>, prefix: string, page: int, pageSize: nat)
    requires pageSize > 0 && PageStart(page, pageSize) >= |values|
    ensures |PagedKb(values, prefix, page, pageSize)| == 2
    ensures NextButton(|values|, prefix, page, pageSize) == []
  {
  }

  /** The indicator's page count is the ceiling of `total / pageSize` (0 for an empty list). */
  lemma {:induction false} PageCountIsCeiling(total: nat, pageSize: nat)
    requires pageSize > 0
    ensures PageCount(total, pageSize) * pageSize >= total
    ensures total > 0 ==> (PageCount(total, pageSize) - 1) * pageSize < total
    ensures total == 0 ==> PageCount(total, pageSize) == 0
  {
    var q := (total - 1) / pageSize;
    var r := (total - 1) % pageSize;
    assert total - 1 == q * pageSize + r;
    assert (q + 1) * pageSize == q * pageSize + pageSize;
  }

  /** The last page the indicator counts still shows at least one value. */
  lemma LastCountedPageHasItems(values: seq<string>, prefix: string, pageSize: nat)
    requires pageSize > 0 && |values| > 0
    ensures PageStart(PageCount(|values|, pageSize) - 1, pageSize) < |values|
    ensures PageStart(PageCount(|values|, pageSize), pageSize) >= |values|
  {
    PageCountIsCeiling(|values|, pageSize);
    assert PageCount(|values|, pageSize) >= 1 by {
      assert (|values| - 1) / pageSize >= 0;
    }
  }

  // ---- how the handlers read the callback data back ----

  /** `int(data.split(":")[-1])` in the page handlers, where `ValueError` means page 0. */
  function PageArg(data: string): int {
    ParseInt(LastPart(data, ':')).GetOr(0)
  }

  /** `values[int(data.split(":")[-1])]` in the pick handlers; `None` when either step raises. */
  function PickArg<T>(values: seq<T>, data: string): Option<T> {
    match ParseInt(LastPart(data, ':'))
    case None => None
    case Some(i) => PyIndex(values, i)
  }

  /** A page button turns to the page whose number it carries. */
  lemma PageButtonTurns(prefix: string, p: int)
    ensures PageArg(PageData(prefix, p)) == p
  {
    WithIdDecodes(prefix + ":page", p);
  }

  /** Pressing an item button picks exactly the value the button shows. */
  lemma {:induction false} ItemButtonPicks(values: seq<string>, prefix: string, page: int, pageSize: nat, i: nat)
    requires pageSize > 0
    requires i + 2 < |PagedKb(values, prefix, page, pageSize)|
    ensures var b := PagedKb(values, prefix, page, pageSize)[i][0];
            PickArg(values, b.data) == Some(b.text)
  {
    ItemButtonPicksBeside(values, values, prefix, page, pageSize, i);
  }

  /** With ids stored beside the shown labels, an item button picks the id standing at its label's place. */
  lemma ItemButtonPicksBeside<T>(ids: seq<T>, labels: seq<string>, prefix: string, page: int, pageSize: nat, i: nat)
    requires pageSize > 0 && |ids| == |labels|
    requires i + 2 < |PagedKb(labels, prefix, page, pageSize)|
    ensures var b := PagedKb(labels, prefix, page, pageSize)[i][0];
            exists k | 0 <= k < |labels| :: PickArg(ids, b.data) == Some(ids[k]) && labels[k] == b.text
  {
    ItemButtonDecodes(labels, prefix, page, pageSize, i);
    var k := PageStart(page, pageSize) + i;
    assert PyIndex(ids, k) == Some(ids[k]);
  }
}
