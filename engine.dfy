/** `recalc` of script.js: the figures of every dashboard row and the totals
    of the page, from the player count, the big blind, the inventory rows and
    the dashboard rows. */
module Engine {
  import opened Coerce
  import opened Inventory
  import opened Dashboard

  /** What `recalc` writes into one dashboard row: the chip value and
      denomination, the chips needed and the chips left in the inventory. The
      buy-ins-left cell is derived from the last two by `BuyInsLeft`. */
  datatype RowReport = RowReport(value: real, denom: string, needed: real, left: real)

  /** What `recalc` shows: the rows, then buy-in per player, chips in play,
      value in play, big blinds per player and chips owned. */
  datatype Report = Report(rows: seq<RowReport>, buyIn: real, chipsInPlay: real,
                           valueInPlay: real, bigBlinds: real, totalOwned: real)

  /** `inv[color] || { value: 0, denom: '', owned: 0 }`. */
  function Lookup(t: Table, color: string): (it: Item)
    ensures color in t.entries ==> it == t.entries[color]
    ensures color !in t.entries ==> it == ZeroItem
  {
    if color in t.entries then t.entries[color] else ZeroItem
  }

  /** `Number(...chips-per-player.value) || 0`: a NaN or zero field gives 0,
      any other number is kept. */
  function PerOf(row: ChipRow): (per: real)
    ensures row.per.None? ==> per == 0.0
    ensures row.per.Some? ==> per == row.per.value
  {
    NumberOr(row.per, 0.0)
  }

  /** The buy-ins-left cell of a row: `left / needed` when `needed > 0`, else
      `None` for the dash; never a division by zero. */
  function BuyInsLeft(row: RowReport): (r: Option<real>)
    ensures r.Some? <==> row.needed > 0.0
  {
    if row.needed > 0.0 then Some(row.left / row.needed) else None
  }

  /** A number of buy-ins left is the quotient: that many times the chips
      needed is what is left. */
  lemma BuyInsLeftQuotient(row: RowReport)
    requires row.needed > 0.0
    ensures BuyInsLeft(row).value * row.needed == row.left
  {
  }

  /** Big blinds per player: `buyIn / bb` when `bb > 0`, else 0. */
  function BigBlinds(buyIn: real, bb: real): (r: real)
    ensures bb <= 0.0 ==> r == 0.0
  {
    if bb > 0.0 then buyIn / bb else 0.0
  }

  /** With a positive big blind, that many big blinds make up the buy-in. */
  lemma BigBlindsQuotient(buyIn: real, bb: real)
    requires bb > 0.0
    ensures BigBlinds(buyIn, bb) * bb == buyIn
  {
  }

  /** The figures of one row, whose colour resolved to `item`. */
  function RowFigures(players: real, item: Item, per: real): (r: RowReport)
    ensures r.needed == players * per
    ensures r.left + r.needed == item.owned
    ensures r.value == item.value && r.denom == item.denom
  {
    var needed := players * per;
    RowReport(item.value, item.denom, needed, item.owned - needed)
  }

  /** The buy-in per player: value times chips per player, summed over the rows. */
  function BuyIn(t: Table, rows: seq<ChipRow>): real
    decreases |rows|
  {
    if rows == [] then 0.0
    else
      var r := rows[|rows| - 1];
      BuyIn(t, rows[..|rows| - 1]) + Lookup(t, r.selected).value * PerOf(r)
  }

  /** The chips in play: the chips needed, summed over the rows. */
  function ChipsInPlay(players: real, rows: seq<ChipRow>): real
    decreases |rows|
  {
    if rows == [] then 0.0
    else ChipsInPlay(players, rows[..|rows| - 1]) + players * PerOf(rows[|rows| - 1])
  }

  /** The chips per player, summed over the rows. */
  function PerSum(rows: seq<ChipRow>): real
    decreases |rows|
  {
    if rows == [] then 0.0 else PerSum(rows[..|rows| - 1]) + PerOf(rows[|rows| - 1])
  }

  /** Everything `recalc` shows, as a function of what it reads. */
  function Recompute(playersIn: Option<real>, bbIn: Option<real>,
                     inventory: seq<InvRow>, dashboard: seq<ChipRow>): (rep: Report)
    ensures |rep.rows| == |dashboard|
    ensures dashboard == [] ==> rep.buyIn == 0.0 && rep.chipsInPlay == 0.0
  {
    var players := NumberOr(playersIn, 1.0);
    var bb := NumberOr(bbIn, 0.0);
    var t := TableOf(inventory);
    var buyIn := BuyIn(t, dashboard);
    Report(Figures(players, t, dashboard), buyIn, ChipsInPlay(players, dashboard),
           ValueInPlay(buyIn, players), BigBlinds(buyIn, bb), TotalOwned(t))
  }

  /** The value in play: the buy-in of every player. */
  function ValueInPlay(buyIn: real, players: real): (v: real)
    ensures buyIn == 0.0 ==> v == 0.0
    ensures players == 1.0 ==> v == buyIn
  {
    buyIn * players
  }

  /** The figures of every dashboard row, in row order. */
  function Figures(players: real, t: Table, dashboard: seq<ChipRow>): seq<RowReport> {
    seq(|dashboard|, i requires 0 <= i < |dashboard| =>
      RowFigures(players, Lookup(t, dashboard[i].selected), PerOf(dashboard[i])))
  }

  /** The first loop of `recalc`: the chips owned, added up over the values
      of the table. */
  method SumOwnedEntries(inv: Table) returns (invTotal: real)
    ensures invTotal == TotalOwned(inv)
  {
    invTotal := 0.0;
    for i := 0 to |inv.keys|
      invariant invTotal == SumOwned(inv.keys[..i], inv.entries)
    {
      assert inv.keys[..i + 1][..i] == inv.keys[..i];
      var k := inv.keys[i];
      invTotal := invTotal + (if k in inv.entries then inv.entries[k].owned else 0.0);
    }
    assert inv.keys[..|inv.keys|] == inv.keys;
  }

  /** The second loop of `recalc`: the figures of each dashboard row, with the
      buy-in and the chips in play accumulated in row order. */
  method WalkRows(players: real, inv: Table, dashboard: seq<ChipRow>)
    returns (rows: seq<RowReport>, buyIn: real, totalChips: real)
    ensures rows == Figures(players, inv, dashboard)
    ensures buyIn == BuyIn(inv, dashboard)
    ensures totalChips == ChipsInPlay(players, dashboard)
  {
    rows, buyIn, totalChips := [], 0.0, 0.0;
    for i := 0 to |dashboard|
      invariant rows == Figures(players, inv, dashboard[..i])
      invariant buyIn == BuyIn(inv, dashboard[..i])
      invariant totalChips == ChipsInPlay(players, dashboard[..i])
    {
      var color := dashboard[i].selected;
      var per := NumberOr(dashboard[i].per, 0.0);
      var item := Lookup(inv, color);

      var needed := players * per;
      var left := item.owned - needed;
      assert RowReport(item.value, item.denom, needed, left) == RowFigures(players, item, per);
      rows := rows + [RowReport(item.value, item.denom, needed, left)];

      buyIn := buyIn + item.value * per;
      totalChips := totalChips + needed;
      NextRow(players, inv, dashboard, i);
    }
    assert dashboard[..|dashboard|] == dashboard;
  }

  /** How the figures and totals of a prefix of the rows grow by one row. */
  lemma NextRow(players: real, inv: Table, dashboard: seq<ChipRow>, i: nat)
    requires i < |dashboard|
    ensures var r := dashboard[i];
            var item := Lookup(inv, r.selected);
            && Figures(players, inv, dashboard[..i + 1]) == Figures(players, inv, dashboard[..i]) + [RowFigures(players, item, PerOf(r))]
            && BuyIn(inv, dashboard[..i + 1]) == BuyIn(inv, dashboard[..i]) + item.value * PerOf(r)
            && ChipsInPlay(players, dashboard[..i + 1]) == ChipsInPlay(players, dashboard[..i]) + players * PerOf(r)
  {
    assert dashboard[..i + 1][..i] == dashboard[..i];
  }

  /** `recalc`: coerce the player count and the big blind, build the table, add
      up the chips owned, walk the dashboard rows, then derive the value in play
      and the big blinds per player. It reads its inputs and changes none of
      them. */
  method Recalc(playersIn: Option<real>, bbIn: Option<real>,
                inventory: seq<InvRow>, dashboard: seq<ChipRow>) returns (rep: Report)
    ensures rep == Recompute(playersIn, bbIn, inventory, dashboard)
  {
    var players := NumberOr(playersIn, 1.0);
    var bb := NumberOr(bbIn, 0.0);
    var inv := GetInventory(inventory);
    var invTotal := SumOwnedEntries(inv);
    var rows, buyIn, totalChips := WalkRows(players, inv, dashboard);
    rep := Report(rows, buyIn, totalChips, ValueInPlay(buyIn, players),
                  BigBlinds(buyIn, bb), invTotal);
    assert inv == TableOf(inventory);
  }

  /** The chips in play are the player count times the chips per player summed
      over the rows. */
  lemma {:induction false} ChipsInPlayIsPlayersTimesPer(players: real, rows: seq<ChipRow>)
    ensures ChipsInPlay(players, rows) == players * PerSum(rows)
    decreases |rows|
  {
    if rows != [] {
      ChipsInPlayIsPlayersTimesPer(players, rows[..|rows| - 1]);
    }
  }

  /** The value of the chips in play counted row by row: each row's chip
      value times the chips it needs. */
  function ChipValue(players: real, t: Table, rows: seq<ChipRow>): real
    decreases |rows|
  {
    if rows == [] then 0.0
    else
      var r := rows[|rows| - 1];
      ChipValue(players, t, rows[..|rows| - 1]) + Lookup(t, r.selected).value * (players * PerOf(r))
  }

  /** Multiplying a sum by the player count, one term at a time. */
  lemma ScaleStep(sum: real, value: real, per: real, players: real)
    ensures (sum + value * per) * players == sum * players + value * (players * per)
  {
  }

  /** The value in play, the buy-in of every player, is the value of all the
      chips in play. */
  lemma {:induction false} ValueInPlayIsChipValue(players: real, t: Table, rows: seq<ChipRow>)
    ensures ValueInPlay(BuyIn(t, rows), players) == ChipValue(players, t, rows)
    decreases |rows|
  {
    if rows != [] {
      var init := rows[..|rows| - 1];
      var r := rows[|rows| - 1];
      ValueInPlayIsChipValue(players, t, init);
      ScaleStep(BuyIn(t, init), Lookup(t, r.selected).value, PerOf(r), players);
    }
  }

  /** What `recalc` shows in dashboard row `i`: the chips needed are the
      player count (1 when the input is blank or 0) times the row's chips per
      player, what is left is what the inventory owns of its colour less
      that, and a colour missing from the inventory counts as value 0. */
  lemma ReportRow(playersIn: Option<real>, bbIn: Option<real>,
                  inventory: seq<InvRow>, dashboard: seq<ChipRow>, i: nat)
    requires i < |dashboard|
    ensures var rep := Recompute(playersIn, bbIn, inventory, dashboard);
            var players := NumberOr(playersIn, 1.0);
            var t := TableOf(inventory);
            var row := dashboard[i];
            && |rep.rows| == |dashboard|
            && rep.rows[i].needed == players * PerOf(row)
            && rep.rows[i].left == Lookup(t, row.selected).owned - rep.rows[i].needed
            && (row.selected in t.entries ==>
                  rep.rows[i].value == t.entries[row.selected].value
                  && rep.rows[i].denom == t.entries[row.selected].denom)
            && (row.selected !in t.entries ==> rep.rows[i].value == 0.0 && rep.rows[i].denom == "")
  {
    var rep := Recompute(playersIn, bbIn, inventory, dashboard);
    var t := TableOf(inventory);
    var row := dashboard[i];
    assert rep.rows == Figures(NumberOr(playersIn, 1.0), t, dashboard);
    assert rep.rows[i] == RowFigures(NumberOr(playersIn, 1.0), Lookup(t, row.selected), PerOf(row));
  }

  /** The value in play `recalc` shows is the value of all the chips in
      play. */
  lemma ReportValue(playersIn: Option<real>, bbIn: Option<real>,
                    inventory: seq<InvRow>, dashboard: seq<ChipRow>)
    ensures Recompute(playersIn, bbIn, inventory, dashboard).valueInPlay
         == ChipValue(NumberOr(playersIn, 1.0), TableOf(inventory), dashboard)
  {
    var players := NumberOr(playersIn, 1.0);
    var t := TableOf(inventory);
    assert Recompute(playersIn, bbIn, inventory, dashboard).valueInPlay == ValueInPlay(BuyIn(t, dashboard), players);
    ValueInPlayIsChipValue(players, t, dashboard);
  }

  /** A report whose big blinds are `BigBlinds` of the big-blind input as
      `recalc` reads it. */
  lemma BigBlindsOf(rep: Report, bbIn: Option<real>)
    requires rep.bigBlinds == BigBlinds(rep.buyIn, NumberOr(bbIn, 0.0))
    ensures bbIn.Some? && bbIn.value > 0.0 ==> rep.bigBlinds * bbIn.value == rep.buyIn
    ensures bbIn.None? || bbIn.value <= 0.0 ==> rep.bigBlinds == 0.0
  {
    if bbIn.Some? && bbIn.value > 0.0 {
      BigBlindsQuotient(rep.buyIn, bbIn.value);
    }
  }

  /** The big blinds `recalc` shows: with a positive big blind they make up the
      buy-in; with a blank, zero or negative one they are 0. */
  lemma ReportBigBlinds(playersIn: Option<real>, bbIn: Option<real>,
                        inventory: seq<InvRow>, dashboard: seq<ChipRow>)
    ensures var rep := Recompute(playersIn, bbIn, inventory, dashboard);
            && (bbIn.Some? && bbIn.value > 0.0 ==> rep.bigBlinds * bbIn.value == rep.buyIn)
            && (bbIn.None? || bbIn.value <= 0.0 ==> rep.bigBlinds == 0.0)
  {
    var rep := Recompute(playersIn, bbIn, inventory, dashboard);
    BigBlindsOf(rep, bbIn);
  }

  /** A report whose chips in play are those of `rows` holds players times
      the chips per player. */
  lemma ChipsOfReport(rep: Report, players: real, rows: seq<ChipRow>)
    requires rep.chipsInPlay == ChipsInPlay(players, rows)
    ensures rep.chipsInPlay == players * PerSum(rows)
  {
    ChipsInPlayIsPlayersTimesPer(players, rows);
  }

  /** The totals `recalc` shows: the buy-in summed over the dashboard rows,
      the chips in play as players times the chips per player, and the chips
      owned summed over the distinct keys of the inventory table. */
  lemma ReportTotals(playersIn: Option<real>, bbIn: Option<real>,
                     inventory: seq<InvRow>, dashboard: seq<ChipRow>)
    ensures Recompute(playersIn, bbIn, inventory, dashboard).buyIn == BuyIn(TableOf(inventory), dashboard)
    ensures Recompute(playersIn, bbIn, inventory, dashboard).chipsInPlay
         == NumberOr(playersIn, 1.0) * PerSum(dashboard)
    ensures Recompute(playersIn, bbIn, inventory, dashboard).totalOwned == TotalOwned(TableOf(inventory))
  {
    var rep := Recompute(playersIn, bbIn, inventory, dashboard);
    ChipsOfReport(rep, NumberOr(playersIn, 1.0), dashboard);
  }

  /** The buy-in of a single row is its value times its chips per player. */
  lemma BuyInOne(t: Table, x: ChipRow)
    ensures BuyIn(t, [x]) == Lookup(t, x.selected).value * PerOf(x)
  {
    assert [x][..0] == [];
  }

  /** The chips in play of a single row are the chips it needs. */
  lemma ChipsOne(players: real, x: ChipRow)
    ensures ChipsInPlay(players, [x]) == players * PerOf(x)
  {
    assert [x][..0] == [];
  }

  /** The buy-in of two runs of rows is the sum of their buy-ins. */
  lemma {:induction false} BuyInAppend(t: Table, a: seq<ChipRow>, b: seq<ChipRow>)
    ensures BuyIn(t, a + b) == BuyIn(t, a) + BuyIn(t, b)
    decreases |b|
  {
    if b == [] {
      assert a + b == a;
    } else {
      assert (a + b)[..|a + b| - 1] == a + b[..|b| - 1];
      BuyInAppend(t, a, b[..|b| - 1]);
    }
  }

  /** A row that occurs in a permutation of `init + [x]` can be taken out of
      it, leaving a permutation of `init`. */
  lemma PickOut(init: seq<ChipRow>, x: ChipRow, b: seq<ChipRow>) returns (i: nat)
    requires multiset(init + [x]) == multiset(b)
    ensures i < |b| && b[i] == x
    ensures multiset(b[..i] + b[i + 1..]) == multiset(init)
  {
    assert x in multiset(init + [x]);
    assert x in b;
    i :| 0 <= i < |b| && b[i] == x;
    assert b == b[..i] + [x] + b[i + 1..];
    assert multiset(b) == multiset(b[..i]) + multiset([x]) + multiset(b[i + 1..]);
    assert multiset(init + [x]) == multiset(init) + multiset([x]);
    var rest := b[..i] + b[i + 1..];
    assert multiset(rest) == multiset(b[..i]) + multiset(b[i + 1..]);
    assert multiset(rest) + multiset([x]) == multiset(init) + multiset([x]);
    forall y ensures multiset(rest)[y] == multiset(init)[y] {
      assert (multiset(rest) + multiset([x]))[y] == (multiset(init) + multiset([x]))[y];
    }
  }

  /** The order of the rows does not change the buy-in: any permutation of
      the rows has the same buy-in. */
  lemma {:induction false} BuyInOrderIrrelevant(t: Table, a: seq<ChipRow>, b: seq<ChipRow>)
    requires multiset(a) == multiset(b)
    ensures BuyIn(t, a) == BuyIn(t, b)
    decreases |a|
  {
    if a == [] {
      assert |b| == |multiset(b)| == 0;
    } else {
      var init, x := a[..|a| - 1], a[|a| - 1];
      assert a == init + [x];
      var i := PickOut(init, x, b);
      var front, back := b[..i], b[i + 1..];
      assert b == front + ([x] + back);
      BuyInOrderIrrelevant(t, init, front + back);
      BuyInAppend(t, init, [x]);
      BuyInAppend(t, front, [x] + back);
      BuyInAppend(t, [x], back);
      BuyInAppend(t, front, back);
    }
  }

  /** The chips in play of two runs of rows is the sum of theirs. */
  lemma {:induction false} ChipsInPlayAppend(players: real, a: seq<ChipRow>, b: seq<ChipRow>)
    ensures ChipsInPlay(players, a + b) == ChipsInPlay(players, a) + ChipsInPlay(players, b)
    decreases |b|
  {
    if b == [] {
      assert a + b == a;
    } else {
      assert (a + b)[..|a + b| - 1] == a + b[..|b| - 1];
      ChipsInPlayAppend(players, a, b[..|b| - 1]);
    }
  }

  /** The order of the rows does not change the chips in play: any
      permutation of the rows has the same chips in play. */
  lemma {:induction false} ChipsInPlayOrderIrrelevant(players: real, a: seq<ChipRow>, b: seq<ChipRow>)
    requires multiset(a) == multiset(b)
    ensures ChipsInPlay(players, a) == ChipsInPlay(players, b)
    decreases |a|
  {
    if a == [] {
      assert |b| == |multiset(b)| == 0;
    } else {
      var init, x := a[..|a| - 1], a[|a| - 1];
      assert a == init + [x];
      var i := PickOut(init, x, b);
      var front, back := b[..i], b[i + 1..];
      assert b == front + ([x] + back);
      ChipsInPlayOrderIrrelevant(players, init, front + back);
      ChipsInPlayAppend(players, init, [x]);
      ChipsInPlayAppend(players, front, [x] + back);
      ChipsInPlayAppend(players, [x], back);
      ChipsInPlayAppend(players, front, back);
    }
  }

  /** A row whose colour is not in the inventory counts as value 0 and owned 0:
      it adds nothing to the buy-in, still adds its chips to the chips in play,
      and is short by all of them. */
  lemma UnknownColour(t: Table, players: real, rows: seq<ChipRow>, r: ChipRow)
    requires r.selected !in t.entries
    ensures BuyIn(t, rows + [r]) == BuyIn(t, rows)
    ensures ChipsInPlay(players, rows + [r]) == ChipsInPlay(players, rows) + players * PerOf(r)
    ensures RowFigures(players, Lookup(t, r.selected), PerOf(r)).left == -(players * PerOf(r))
    ensures RowFigures(players, Lookup(t, r.selected), PerOf(r)).value == 0.0
  {
    assert (rows + [r])[..|rows|] == rows;
  }

  /** A select that is reassigned its value reads the same item from the
      table, provided every key of the table is among its options: a value
      kept is the same colour, and a value reset to "" was not a key. */
  lemma ReselectLookup(t: Table, opts: seq<SelectOption>, prev: string)
    requires "" !in t.entries
    requires forall k :: k in t.entries ==> HasValue(opts, k)
    ensures Lookup(t, Reselect(opts, prev)) == Lookup(t, prev)
  {
    if !HasValue(opts, prev) {
      assert prev !in t.entries;
    }
  }

  /** Rebuilding the selects does not change the chips in play, which depend
      on the chips per player only. */
  lemma {:induction false} RefreshKeepsChips(players: real, rows: seq<ChipRow>, opts: seq<SelectOption>)
    ensures ChipsInPlay(players, Refreshed(rows, opts)) == ChipsInPlay(players, rows)
    decreases |rows|
  {
    if rows != [] {
      var init := rows[..|rows| - 1];
      assert Refreshed(rows, opts)[..|rows| - 1] == Refreshed(init, opts);
      RefreshKeepsChips(players, init, opts);
    }
  }

  /** Two runs of rows that read the same items with the same chips per
      player, row for row, have the same buy-in. */
  lemma {:induction false} BuyInSameItems(t: Table, a: seq<ChipRow>, b: seq<ChipRow>)
    requires |a| == |b|
    requires forall i :: 0 <= i < |a| ==> Lookup(t, a[i].selected) == Lookup(t, b[i].selected) && a[i].per == b[i].per
    ensures BuyIn(t, a) == BuyIn(t, b)
    decreases |a|
  {
    if a != [] {
      var n := |a| - 1;
      BuyInSameItems(t, a[..n], b[..n]);
    }
  }

  /** Rebuilding the selects does not change the buy-in when every key of the
      table is among the new options. */
  lemma RefreshKeepsBuyIn(t: Table, rows: seq<ChipRow>, opts: seq<SelectOption>)
    requires "" !in t.entries
    requires forall k :: k in t.entries ==> HasValue(opts, k)
    ensures BuyIn(t, Refreshed(rows, opts)) == BuyIn(t, rows)
  {
    var r := Refreshed(rows, opts);
    forall i | 0 <= i < |rows|
      ensures Lookup(t, r[i].selected) == Lookup(t, rows[i].selected) && r[i].per == rows[i].per
    {
      ReselectLookup(t, opts, rows[i].selected);
    }
    BuyInSameItems(t, r, rows);
  }

  /** After `refreshDropdowns` every key of the inventory table is among the
      options of a select. */
  lemma KeysAmongOptions(inventory: seq<InvRow>)
    ensures forall k :: k in TableOf(inventory).entries ==> HasValue(OptionsFor(Colors(inventory)), k)
  {
    forall k | k in TableOf(inventory).entries
      ensures HasValue(OptionsFor(Colors(inventory)), k)
    {
      var j := KeyIsOption(inventory, k);
    }
  }

  /** Rebuilding the dropdowns from the inventory changes no figure of the
      page: a select whose value is reset to "" had a colour that is not in
      the inventory, which counts as value 0 and owned 0 either way. */
  lemma RefreshKeepsReport(playersIn: Option<real>, bbIn: Option<real>, inventory: seq<InvRow>,
                           dashboard: seq<ChipRow>)
    ensures Recompute(playersIn, bbIn, inventory, Refreshed(dashboard, OptionsFor(Colors(inventory))))
         == Recompute(playersIn, bbIn, inventory, dashboard)
  {
    var t := TableOf(inventory);
    var opts := OptionsFor(Colors(inventory));
    var players := NumberOr(playersIn, 1.0);
    var rows := Refreshed(dashboard, opts);
    KeysAmongOptions(inventory);
    RefreshKeepsChips(players, dashboard, opts);
    RefreshKeepsBuyIn(t, dashboard, opts);
    forall i | 0 <= i < |dashboard|
      ensures Lookup(t, rows[i].selected) == Lookup(t, dashboard[i].selected)
    {
      ReselectLookup(t, opts, dashboard[i].selected);
    }
    assert Figures(players, t, rows) == Figures(players, t, dashboard);
    var b := BuyIn(t, dashboard);
    assert BuyIn(t, rows) == b;
    assert Recompute(playersIn, bbIn, inventory, rows).buyIn == b;
  }
}
