/** The page of script.js as one object: the inventory rows, the dashboard
    rows and the two inputs, with the handlers that add and remove rows,
    react to edits and rebuild the colour selects. Every handler that
    recalculates returns what `recalc` shows. */
module Page {
  import opened Coerce
  import opened Names
  import opened Inventory
  import opened Dashboard
  import opened Engine

  /** The row `addInventoryRow` creates: empty inputs, which `Number` reads as
      0 and `|| ''` reads as "". */
  const BlankInvRow := InvRow("", Some(0.0), Some(""), Some(0.0))

  /** A sequence with the element at `i` taken out and the others kept in
      order. */
  function Without<T>(s: seq<T>, i: nat): (r: seq<T>)
    requires i < |s|
    ensures |r| == |s| - 1
    ensures forall j :: 0 <= j < i ==> r[j] == s[j]
    ensures forall j :: i <= j < |r| ==> r[j] == s[j + 1]
  {
    s[..i] + s[i + 1..]
  }

  /** The first start-up loop: `addInventoryRow` called `n` times. */
  method BlankRows(n: nat) returns (rows: seq<InvRow>)
    ensures |rows| == n && forall j :: 0 <= j < n ==> rows[j] == BlankInvRow
  {
    rows := [];
    for i := 0 to n
      invariant |rows| == i && forall j :: 0 <= j < i ==> rows[j] == BlankInvRow
    {
      rows := rows + [BlankInvRow];
    }
  }

  /** The second start-up loop: `addDashboardRow` called `n` times while the
      inventory offers the options `opts`, each call appending an empty row
      and rebuilding every select. */
  method NewRows(n: nat, opts: seq<SelectOption>) returns (rows: seq<ChipRow>)
    ensures |rows| == n && forall j :: 0 <= j < n ==> rows[j] == ChipRow(opts, "", Some(0.0))
  {
    rows := [];
    assert Reselect(opts, "") == "";
    for i := 0 to n
      invariant |rows| == i && forall j :: 0 <= j < i ==> rows[j] == ChipRow(opts, "", Some(0.0))
    {
      rows := Refreshed(rows + [NewChipRow], opts);
    }
  }

  /** Every select offers only the placeholder and has nothing chosen: the
      state the start-up loops leave, since every inventory name is blank
      while they run. */
  ghost predicate PlaceholderOnly(rows: seq<ChipRow>) {
    forall i :: 0 <= i < |rows| ==> rows[i].options == [Placeholder] && rows[i].selected == ""
  }

  class Calculator {
    var inventory: seq<InvRow>
    var dashboard: seq<ChipRow>
    var playersInput: Option<real>
    var bbInput: Option<real>

    /** The page at start-up: seven blank inventory rows, then three dashboard
        rows, each added by `addDashboardRow`, so each select holds only the
        placeholder. */
    constructor(players: Option<real>, bb: Option<real>)
      ensures PlaceholderOnly(dashboard)
      ensures |inventory| == 7 && forall i :: 0 <= i < |inventory| ==> inventory[i] == BlankInvRow
      ensures |dashboard| == 3 && forall i :: 0 <= i < |dashboard| ==> dashboard[i] == ChipRow([Placeholder], "", Some(0.0))
      ensures playersInput == players && bbInput == bb
    {
      var inv := BlankRows(7);
      BlankColors(inv);
      var opts := OptionsFor(Colors(inv));
      assert opts == [Placeholder];
      var dash := NewRows(3, opts);
      playersInput, bbInput := players, bb;
      inventory, dashboard := inv, dash;
    }

    /** `recalc`: reads the page and changes nothing. */
    method Recalculate() returns (rep: Report)
      ensures rep == Recompute(playersInput, bbInput, inventory, dashboard)
    {
      rep := Recalc(playersInput, bbInput, inventory, dashboard);
    }

    /** `addInventoryRow`: a blank row at the end; nothing is recalculated. */
    method AddInventoryRow()
      modifies this
      ensures inventory == old(inventory) + [BlankInvRow]
      ensures dashboard == old(dashboard)
      ensures playersInput == old(playersInput) && bbInput == old(bbInput)
    {
      inventory := inventory + [BlankInvRow];
    }

    /** The Remove button of inventory row `i`: the row goes, the others keep
        their order, and the page is recalculated; the selects are not
        rebuilt. */
    method RemoveInventoryRow(i: nat) returns (rep: Report)
      requires i < |inventory|
      modifies this
      ensures inventory == Without(old(inventory), i)
      ensures dashboard == old(dashboard)
      ensures playersInput == old(playersInput) && bbInput == old(bbInput)
      ensures old(PlaceholderOnly(dashboard)) ==> PlaceholderOnly(dashboard)
      ensures rep == Recompute(playersInput, bbInput, inventory, dashboard)
    {
      inventory := inventory[..i] + inventory[i + 1..];
      rep := Recalc(playersInput, bbInput, inventory, dashboard);
    }

    /** An edit of inventory row `i`: the row takes the new contents and the
        page is recalculated; the selects are not rebuilt. */
    method EditInventoryRow(i: nat, row: InvRow) returns (rep: Report)
      requires i < |inventory|
      modifies this
      ensures inventory == old(inventory)[i := row]
      ensures dashboard == old(dashboard)
      ensures playersInput == old(playersInput) && bbInput == old(bbInput)
      ensures old(PlaceholderOnly(dashboard)) ==> PlaceholderOnly(dashboard)
      ensures rep == Recompute(playersInput, bbInput, inventory, dashboard)
    {
      inventory := inventory[i := row];
      rep := Recalc(playersInput, bbInput, inventory, dashboard);
    }

    /** An edit of inventory row `i` that, as the selects are meant to track
        the named colours, also rebuilds every select before recalculating. */
    method EditInventoryRowRefreshing(i: nat, row: InvRow) returns (rep: Report)
      requires i < |inventory|
      modifies this
      ensures inventory == old(inventory)[i := row]
      ensures dashboard == Refreshed(old(dashboard), OptionsFor(Colors(inventory)))
      ensures playersInput == old(playersInput) && bbInput == old(bbInput)
      ensures rep == Recompute(playersInput, bbInput, inventory, dashboard)
    {
      inventory := inventory[i := row];
      rep := RefreshDropdowns();
    }

    /** Typing into the player-count input: no handler runs, so only the
        field changes; the next recalculation reads it. */
    method EditPlayers(players: Option<real>)
      modifies this
      ensures playersInput == players && bbInput == old(bbInput)
      ensures inventory == old(inventory) && dashboard == old(dashboard)
      ensures old(PlaceholderOnly(dashboard)) ==> PlaceholderOnly(dashboard)
    {
      playersInput := players;
    }

    /** Typing into the big-blind input: no handler runs, so only the field
        changes; the next recalculation reads it. */
    method EditBigBlind(bb: Option<real>)
      modifies this
      ensures bbInput == bb && playersInput == old(playersInput)
      ensures inventory == old(inventory) && dashboard == old(dashboard)
      ensures old(PlaceholderOnly(dashboard)) ==> PlaceholderOnly(dashboard)
    {
      bbInput := bb;
    }

    /** `refreshDropdowns`: every select is rebuilt from the inventory names
        and assigned its previous value, which it keeps when one of the new
        options has it and otherwise reads as ""; then the page is
        recalculated. */
    method RefreshDropdowns() returns (rep: Report)
      modifies this
      ensures dashboard == Refreshed(old(dashboard), OptionsFor(Colors(inventory)))
      ensures inventory == old(inventory)
      ensures playersInput == old(playersInput) && bbInput == old(bbInput)
      ensures rep == Recompute(playersInput, bbInput, inventory, dashboard)
    {
      var colors := CollectColors(inventory);
      var opts := BuildOptions(colors);
      var rows := dashboard;
      for i := 0 to |rows|
        invariant |rows| == |dashboard|
        invariant forall j :: 0 <= j < i ==>
                    rows[j] == ChipRow(opts, Reselect(opts, dashboard[j].selected), dashboard[j].per)
        invariant forall j :: i <= j < |rows| ==> rows[j] == dashboard[j]
      {
        var prev := rows[i].selected;
        rows := rows[i := ChipRow(opts, Reselect(opts, prev), rows[i].per)];
      }
      assert rows == Refreshed(dashboard, opts);
      dashboard := rows;
      rep := Recalc(playersInput, bbInput, inventory, dashboard);
    }

    /** `addDashboardRow`: an empty row at the end, then `refreshDropdowns`. */
    method AddDashboardRow() returns (rep: Report)
      modifies this
      ensures dashboard == Refreshed(old(dashboard) + [NewChipRow], OptionsFor(Colors(inventory)))
      ensures inventory == old(inventory)
      ensures playersInput == old(playersInput) && bbInput == old(bbInput)
      ensures rep == Recompute(playersInput, bbInput, inventory, dashboard)
    {
      dashboard := dashboard + [NewChipRow];
      rep := RefreshDropdowns();
    }

    /** The Remove button of dashboard row `i`: the row goes, the others keep
        their order, and the page is recalculated. */
    method RemoveDashboardRow(i: nat) returns (rep: Report)
      requires i < |dashboard|
      modifies this
      ensures dashboard == Without(old(dashboard), i)
      ensures inventory == old(inventory)
      ensures playersInput == old(playersInput) && bbInput == old(bbInput)
      ensures old(PlaceholderOnly(dashboard)) ==> PlaceholderOnly(dashboard)
      ensures rep == Recompute(playersInput, bbInput, inventory, dashboard)
    {
      dashboard := dashboard[..i] + dashboard[i + 1..];
      rep := Recalc(playersInput, bbInput, inventory, dashboard);
    }

    /** Choosing option `j` of the select of dashboard row `i`, then `recalc`. */
    method ChooseColour(i: nat, j: nat) returns (rep: Report)
      requires i < |dashboard| && j < |dashboard[i].options|
      modifies this
      ensures dashboard == old(dashboard)[i := old(dashboard)[i].(selected := old(dashboard)[i].options[j].value)]
      ensures inventory == old(inventory)
      ensures playersInput == old(playersInput) && bbInput == old(bbInput)
      ensures old(PlaceholderOnly(dashboard)) ==> PlaceholderOnly(dashboard)
      ensures rep == Recompute(playersInput, bbInput, inventory, dashboard)
    {
      dashboard := dashboard[i := dashboard[i].(selected := dashboard[i].options[j].value)];
      rep := Recalc(playersInput, bbInput, inventory, dashboard);
    }

    /** An edit of the chips-per-player field of dashboard row `i`, then
        `recalc`. */
    method EditPerPlayer(i: nat, per: Option<real>) returns (rep: Report)
      requires i < |dashboard|
      modifies this
      ensures dashboard == old(dashboard)[i := old(dashboard)[i].(per := per)]
      ensures inventory == old(inventory)
      ensures playersInput == old(playersInput) && bbInput == old(bbInput)
      ensures old(PlaceholderOnly(dashboard)) ==> PlaceholderOnly(dashboard)
      ensures rep == Recompute(playersInput, bbInput, inventory, dashboard)
    {
      dashboard := dashboard[i := dashboard[i].(per := per)];
      rep := Recalc(playersInput, bbInput, inventory, dashboard);
    }
  }

  /** Blank inventory rows offer no colour. */
  lemma {:induction false} BlankColors(rows: seq<InvRow>)
    requires forall i :: 0 <= i < |rows| ==> rows[i] == BlankInvRow
    ensures Colors(rows) == []
    decreases |rows|
  {
    if rows != [] {
      BlankColors(rows[..|rows| - 1]);
      assert Trim(BlankInvRow.name) == "";
    }
  }

  /** A row with a blank name adds nothing to the inventory table, so adding
      one changes no figure of the page. */
  lemma BlankRowKeepsReport(playersIn: Option<real>, bbIn: Option<real>,
                            inventory: seq<InvRow>, dashboard: seq<ChipRow>)
    ensures Recompute(playersIn, bbIn, inventory + [BlankInvRow], dashboard)
         == Recompute(playersIn, bbIn, inventory, dashboard)
  {
    assert (inventory + [BlankInvRow])[..|inventory|] == inventory;
    assert KeyOf(BlankInvRow) == "";
  }

  /** A new dashboard row has no colour and no chips, so it adds nothing to
      the buy-in or to the chips in play. */
  lemma NewRowKeepsTotals(t: Table, players: real, rows: seq<ChipRow>)
    ensures BuyIn(t, rows + [NewChipRow]) == BuyIn(t, rows)
    ensures ChipsInPlay(players, rows + [NewChipRow]) == ChipsInPlay(players, rows)
  {
    assert (rows + [NewChipRow])[..|rows|] == rows;
  }

  /** A sequence is what comes before `i`, the element at `i`, and what
      comes after it; without the element it is the two outer parts. */
  lemma SplitAt<T>(s: seq<T>, i: nat)
    requires i < |s|
    ensures s == s[..i] + ([s[i]] + s[i + 1..])
    ensures Without(s, i) == s[..i] + s[i + 1..]
  {
  }

  /** Removing dashboard row `i` takes exactly that row's share off the
      buy-in. */
  lemma RemoveRowBuyIn(t: Table, rows: seq<ChipRow>, i: nat)
    requires i < |rows|
    ensures BuyIn(t, Without(rows, i)) + BuyIn(t, [rows[i]]) == BuyIn(t, rows)
  {
    var a, r, b := rows[..i], [rows[i]], rows[i + 1..];
    SplitAt(rows, i);
    BuyInAppend(t, a, r + b);
    BuyInAppend(t, r, b);
    BuyInAppend(t, a, b);
  }

  /** Removing dashboard row `i` takes exactly that row's chips off the chips
      in play. */
  lemma RemoveRowChips(players: real, rows: seq<ChipRow>, i: nat)
    requires i < |rows|
    ensures ChipsInPlay(players, Without(rows, i)) + ChipsInPlay(players, [rows[i]]) == ChipsInPlay(players, rows)
  {
    var a, r, b := rows[..i], [rows[i]], rows[i + 1..];
    SplitAt(rows, i);
    ChipsInPlayAppend(players, a, r + b);
    ChipsInPlayAppend(players, r, b);
    ChipsInPlayAppend(players, a, b);
  }

  /** With only the placeholder chosen, every row reads the zero item, so the
      buy-in is 0 whatever the inventory holds. */
  lemma {:induction false} PlaceholderOnlyBuyIn(t: Table, rows: seq<ChipRow>)
    requires "" !in t.entries
    requires PlaceholderOnly(rows)
    ensures BuyIn(t, rows) == 0.0
    decreases |rows|
  {
    if rows != [] {
      var init := rows[..|rows| - 1];
      assert PlaceholderOnly(init) by {
        forall i | 0 <= i < |init| ensures init[i] == rows[i] { }
      }
      PlaceholderOnlyBuyIn(t, init);
      assert Lookup(t, rows[|rows| - 1].selected) == ZeroItem;
    }
  }

  /** The page as written: while every select offers only the placeholder, the
      buy-in, the value in play and the big blinds are 0 for every inventory
      and every input. The start-up state is such a page, and every handler
      reachable afterwards keeps it so. */
  lemma PlaceholderOnlyReport(playersIn: Option<real>, bbIn: Option<real>,
                              inventory: seq<InvRow>, dashboard: seq<ChipRow>)
    requires PlaceholderOnly(dashboard)
    ensures var rep := Recompute(playersIn, bbIn, inventory, dashboard);
            rep.buyIn == 0.0 && rep.valueInPlay == 0.0 && rep.bigBlinds == 0.0
  {
    var t := TableOf(inventory);
    PlaceholderOnlyBuyIn(t, dashboard);
    var rep := Recompute(playersIn, bbIn, inventory, dashboard);
    assert rep.buyIn == 0.0;
  }

  /** The page as intended: after inventory row `i` takes a row with a
      non-blank name and the selects are rebuilt, every select offers that
      row's key, and the key names an entry of the inventory table. */
  lemma EditedNameOffered(inventory: seq<InvRow>, dashboard: seq<ChipRow>, i: nat, row: InvRow, d: nat)
    requires i < |inventory| && KeyOf(row) != "" && d < |dashboard|
    ensures var inv := inventory[i := row];
            var rows := Refreshed(dashboard, OptionsFor(Colors(inv)));
            KeyOf(row) in TableOf(inv).entries
            && exists j :: 1 <= j < |rows[d].options| && rows[d].options[j].value == KeyOf(row)
  {
    var inv := inventory[i := row];
    var opts := OptionsFor(Colors(inv));
    assert inv[i] == row;
    RowKeyPresent(inv, i);
    var j := RowOption(inv, i);
    assert Refreshed(dashboard, opts)[d].options == opts;
  }
}
