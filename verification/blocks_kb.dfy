/** The keyboards of the blocks menu and the unit card (app/keyboards/blocks.py). */
module BlocksKeyboards {

  import opened Common
  import opened Text
  import opened Ints
  import opened Markup

  /** Callback data that opens each conversational flow from the blocks menu. */
  const ReceiveTrigger := "blocks:receive"
  const IssueTrigger := "blocks:issue"
  const RepairTrigger := "blocks:repair"
  const BackToMenu := "blocks:menu"

  /** The blocks menu: receive, issue, repair and export. */
  function BlocksMenuKb(): (kb: Keyboard)
    ensures |kb| == 4 && forall r | r in kb :: |r| == 1
    ensures RowData(kb[3]) == ["blocks:export"]
  {
    [ [Button("\U{1f4e5} Принять", ReceiveTrigger)],
      [Button("\U{1f4e4} Выдать", IssueTrigger)],
      [Button("\U{1f6e0} Ремонт", RepairTrigger)],
      [Button("\U{1f4e6} Экспорт XML", "blocks:export")] ]
  }

  /**
    * The first three menu buttons carry exactly the callback data that starts the receive, issue
    * and repair flows, and no two menu buttons share their data.
    */
  lemma MenuOpensFlows()
    ensures var kb: Keyboard := BlocksMenuKb();
            && kb[0][0].data == ReceiveTrigger
            && kb[1][0].data == IssueTrigger
            && kb[2][0].data == RepairTrigger
  {
  }

  /** The three flow triggers and the way back to the menu are four different callbacks. */
  lemma TriggersDiffer()
    ensures ReceiveTrigger != IssueTrigger && ReceiveTrigger != RepairTrigger && IssueTrigger != RepairTrigger
    ensures BackToMenu !in {ReceiveTrigger, IssueTrigger, RepairTrigger}
  {
    assert |ReceiveTrigger| == 14 && |IssueTrigger| == 12 && |RepairTrigger| == 13 && |BackToMenu| == 11;
  }

  /** The single button that leads back to the blocks menu. */
  function BackToBlocksKb(): (kb: Keyboard)
    ensures |kb| == 1 && RowData(kb[0]) == [BackToMenu]
  {
    [ [Button("\U{2b05}\U{fe0f} Назад", BackToMenu)] ]
  }

  /** The export menu: units in stock, all units, and the way back. */
  function ExportMenuKb(): (kb: Keyboard)
    ensures |kb| == 3 && forall r | r in kb :: |r| == 1
    ensures RowData(kb[0]) == ["blocks:export:stock"] && RowData(kb[1]) == ["blocks:export:all"]
    ensures kb[2] == BackToBlocksKb()[0]
  {
    [ [Button("На складе (без выданных)", "blocks:export:stock")],
      [Button("Все блоки", "blocks:export:all")] ] + BackToBlocksKb()
  }

  /** The card of one unit: history, issue, repair, and the machine set/clear pair on one row. */
  function UnitCardKb(unitId: int): (kb: Keyboard)
    ensures |kb| == 4 && |kb[3]| == 2
  {
    [ [Button("\U{1f4dc} История", WithId("unit:history", unitId))],
      [Button("\U{1f4e4} Выдать", WithId("unit:issue", unitId))],
      [Button("\U{1f6e0} Ремонт", WithId("unit:repair", unitId))],
      [ Button("\U{1f517} Изменить машину", WithId("unit:machine:set", unitId)),
        Button("\U{1f6ab} Снять привязку", WithId("unit:machine:clear", unitId)) ] ]
  }

  /** Every button of a unit card carries the unit's id after its last colon. */
  lemma UnitCardCarriesId(unitId: int)
    ensures forall i: int, j: int | 0 <= i < 4 && 0 <= j < |UnitCardKb(unitId)[i]| ::
      ParseInt(LastPart(UnitCardKb(unitId)[i][j].data, ':')) == Some(unitId)
  {
    var kb: Keyboard := UnitCardKb(unitId);
    forall i: int, j: int | 0 <= i < 4 && 0 <= j < |kb[i]|
      ensures ParseInt(LastPart(kb[i][j].data, ':')) == Some(unitId)
    {
      var prefix :=
        if i == 0 then "unit:history"
        else if i == 1 then "unit:issue"
        else if i == 2 then "unit:repair"
        else if j == 0 then "unit:machine:set"
        else "unit:machine:clear";
      assert kb[i][j].data == WithId(prefix, unitId);
      WithIdDecodes(prefix, unitId);
    }
  }

  /** The repair button of a card starts with `unit:repair:` and gives back the unit id. */
  lemma RepairButtonDecodes(unitId: int)
    ensures StartsWith(UnitCardKb(unitId)[2][0].data, "unit:repair:")
    ensures ParseInt(LastPart(UnitCardKb(unitId)[2][0].data, ':')) == Some(unitId)
  {
    WithIdDecodes("unit:repair", unitId);
  }

  /** Callback data of the history pages of one unit: `unit:history:{id}:{page}`. */
  function HistoryData(unitId: int, page: int): string {
    WithId(WithId("unit:history", unitId), page)
  }

  function HistoryPrev(unitId: int, page: int, hasPrev: bool): Row {
    if hasPrev then [Button("\U{25c0}\U{fe0f}", HistoryData(unitId, page - 1))] else []
  }

  function HistoryNext(unitId: int, page: int, hasNext: bool): Row {
    if hasNext then [Button("\U{25b6}\U{fe0f}", HistoryData(unitId, page + 1))] else []
  }

  function PageLabel(page: int): Button {
    Button("Стр. " + IntToString(page + 1), "noop")
  }

  /** The history pager: optional back arrow, the page label, optional forward arrow; then the back-to-menu row. */
  function HistoryNavKb(unitId: int, page: int, hasPrev: bool, hasNext: bool): Keyboard {
    [ HistoryPrev(unitId, page, hasPrev) + [PageLabel(page)] + HistoryNext(unitId, page, hasNext),
      [Button("\U{2b05}\U{fe0f} Назад", BackToMenu)] ]
  }

  /**
    * The back arrow is present iff `hasPrev` and the forward arrow iff `hasNext`; both lead to the
    * neighbouring page of the same unit; the page label is always there and the keyboard ends
    * with the way back to the menu.
    */
  lemma {:induction false} HistoryNavButtons(unitId: int, page: int, hasPrev: bool, hasNext: bool)
    ensures var kb := HistoryNavKb(unitId, page, hasPrev, hasNext);
            && |kb| == 2
            && (hasPrev <==> HistoryData(unitId, page - 1) in RowData(kb[0]))
            && (hasNext <==> HistoryData(unitId, page + 1) in RowData(kb[0]))
            && PageLabel(page) in kb[0]
            && RowData(kb[1]) == [BackToMenu]
  {
    var back := HistoryData(unitId, page - 1);
    var forward := HistoryData(unitId, page + 1);
    WithIdDiffers(WithId("unit:history", unitId), page - 1, page + 1);
    WithIdNotNoop(WithId("unit:history", unitId), page - 1);
    WithIdNotNoop(WithId("unit:history", unitId), page + 1);
    ArrowsPresent(back, forward, hasPrev, hasNext);
    var row := HistoryNavKb(unitId, page, hasPrev, hasNext)[0];
    var prev := if hasPrev then [back] else [];
    assert row == HistoryPrev(unitId, page, hasPrev) + [PageLabel(page)] + HistoryNext(unitId, page, hasNext);
    assert RowData(row) == prev + ["noop"] + (if hasNext then [forward] else []);
    assert row[|prev|] == PageLabel(page);
  }
}
