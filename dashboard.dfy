/** The dashboard rows of script.js and `refreshDropdowns`: every colour
    select is rebuilt from the inventory names and keeps its previous value. */
module Dashboard {
  import opened Coerce
  import opened Names
  import opened Inventory

  /** An `<option>`: the value a select reports and the text it shows. */
  datatype SelectOption = SelectOption(value: string, text: string)

  /** The first option of every select, standing for "no colour chosen". */
  const Placeholder := SelectOption("", "-- Select --")

  /** A dashboard row: its colour select (options and current value) and the
      parsed chips-per-player field. */
  datatype ChipRow = ChipRow(options: seq<SelectOption>, selected: string, per: Option<real>)

  /** The row `addDashboardRow` creates: an empty select and an empty field,
      which `Number` reads as 0. */
  const NewChipRow := ChipRow([], "", Some(0.0))

  /** The `colors` list of `refreshDropdowns`: each inventory name that is not
      blank, trimmed, in row order, duplicates kept. */
  function Colors(rows: seq<InvRow>): (cs: seq<string>)
    ensures |cs| <= |rows|
    ensures forall c :: c in cs ==> c != "" && Trimmed(c)
    decreases |rows|
  {
    if rows == [] then []
    else
      var c := Trim(rows[|rows| - 1].name);
      Colors(rows[..|rows| - 1]) + (if c != "" then [c] else [])
  }

  /** A single inventory row offers its trimmed name, unless that is blank. */
  lemma ColorsOne(r: InvRow)
    ensures Colors([r]) == if Trim(r.name) != "" then [Trim(r.name)] else []
  {
    assert [r][..0] == [];
  }

  /** The colours of two runs of rows are those of the first run followed by
      those of the second: row order is kept and nothing is dropped as a
      duplicate. */
  lemma {:induction false} ColorsAppend(a: seq<InvRow>, b: seq<InvRow>)
    ensures Colors(a + b) == Colors(a) + Colors(b)
    decreases |b|
  {
    if b == [] {
      assert a + b == a;
    } else {
      assert (a + b)[..|a + b| - 1] == a + b[..|b| - 1];
      ColorsAppend(a, b[..|b| - 1]);
    }
  }

  /** The options of a rebuilt select: the placeholder, then one option per
      colour whose value is the colour's key and whose text is the colour. */
  function OptionsFor(colors: seq<string>): (opts: seq<SelectOption>)
  {
    [Placeholder] + seq(|colors|, i requires 0 <= i < |colors| => SelectOption(Normalize(Some(colors[i])), colors[i]))
  }

  /** The option for the colour at position `m` follows the placeholder. */
  lemma OptionAt(colors: seq<string>, m: nat)
    requires m < |colors|
    ensures |OptionsFor(colors)| == |colors| + 1
    ensures OptionsFor(colors)[m + 1] == SelectOption(Normalize(Some(colors[m])), colors[m])
  {
  }

  /** The first loop of `refreshDropdowns`, which pushes the trimmed non-blank
      names. */
  method CollectColors(rows: seq<InvRow>) returns (colors: seq<string>)
    ensures colors == Colors(rows)
  {
    colors := [];
    for i := 0 to |rows|
      invariant colors == Colors(rows[..i])
    {
      assert rows[..i + 1][..i] == rows[..i];
      var c := Trim(rows[i].name);
      if c != "" {
        colors := colors + [c];
      }
    }
    assert rows[..|rows|] == rows;
  }

  /** The inner loop of `refreshDropdowns`: reset a select to the placeholder and
      append one option per colour. */
  method BuildOptions(colors: seq<string>) returns (opts: seq<SelectOption>)
    ensures |opts| == |colors| + 1 && opts[0] == Placeholder
    ensures forall i :: 0 <= i < |colors| ==> opts[i + 1] == SelectOption(Normalize(Some(colors[i])), colors[i])
    ensures opts == OptionsFor(colors)
  {
    opts := [Placeholder];
    for i := 0 to |colors|
      invariant |opts| == i + 1 && opts[0] == Placeholder
      invariant forall j :: 0 <= j < i ==> opts[j + 1] == SelectOption(Normalize(Some(colors[j])), colors[j])
    {
      opts := opts + [SelectOption(Normalize(Some(colors[i])), colors[i])];
    }
    assert opts == OptionsFor(colors);
  }

  /** Whether some option of a select has the value `v`. */
  function HasValue(opts: seq<SelectOption>, v: string): (b: bool)
    ensures b <==> exists j :: 0 <= j < |opts| && opts[j].value == v
    decreases |opts|
  {
    if opts == [] then false
    else
      var init := opts[..|opts| - 1];
      assert forall j :: 0 <= j < |init| ==> init[j] == opts[j];
      HasValue(init, v) || opts[|opts| - 1].value == v
  }

  /** `s.value = prev` on a select with options `opts`: the option with that
      value becomes selected; when there is none, no option is selected and
      the select reads "". */
  function Reselect(opts: seq<SelectOption>, prev: string): (v: string)
    ensures (exists j :: 0 <= j < |opts| && opts[j].value == prev) ==> v == prev
    ensures !(exists j :: 0 <= j < |opts| && opts[j].value == prev) ==> v == ""
  {
    if HasValue(opts, prev) then prev else ""
  }

  /** The dashboard after every select is rebuilt with `opts` and assigned
      its previous value. */
  function Refreshed(rows: seq<ChipRow>, opts: seq<SelectOption>): (r: seq<ChipRow>)
    ensures |r| == |rows|
    ensures forall i :: 0 <= i < |rows| ==>
              r[i].options == opts && r[i].selected == Reselect(opts, rows[i].selected) && r[i].per == rows[i].per
  {
    seq(|rows|, i requires 0 <= i < |rows| => ChipRow(opts, Reselect(opts, rows[i].selected), rows[i].per))
  }

  /** Each colour in the list is the trimmed name of some inventory row. */
  lemma {:induction false} ColorFromRow(rows: seq<InvRow>, m: nat) returns (i: nat)
    requires m < |Colors(rows)|
    ensures i < |rows| && Trim(rows[i].name) == Colors(rows)[m]
    decreases |rows|
  {
    var init := rows[..|rows| - 1];
    if m < |Colors(init)| {
      i := ColorFromRow(init, m);
      assert rows[i] == init[i];
    } else {
      i := |rows| - 1;
    }
  }

  /** Each inventory row whose name is not blank has its trimmed name in the
      list. */
  lemma {:induction false} RowToColor(rows: seq<InvRow>, i: nat) returns (m: nat)
    requires i < |rows| && Trim(rows[i].name) != ""
    ensures m < |Colors(rows)| && Colors(rows)[m] == Trim(rows[i].name)
    decreases |rows|
  {
    var init := rows[..|rows| - 1];
    if i < |init| {
      assert init[i] == rows[i];
      m := RowToColor(init, i);
    } else {
      m := |Colors(init)|;
    }
  }

  /** An option after the placeholder offers the key of an inventory row. */
  lemma OptionIsKey(rows: seq<InvRow>, j: nat)
    requires 1 <= j < |OptionsFor(Colors(rows))|
    ensures OptionsFor(Colors(rows))[j].value in TableOf(rows).entries
  {
    var cs := Colors(rows);
    var i := ColorFromRow(rows, j - 1);
    NormalizeTrim(rows[i].name);
    RowKeyPresent(rows, i);
  }

  /** The key of every inventory row whose name is not blank is offered by
      some option. */
  lemma RowOption(rows: seq<InvRow>, i: nat) returns (j: nat)
    requires i < |rows| && KeyOf(rows[i]) != ""
    ensures 1 <= j < |OptionsFor(Colors(rows))| && OptionsFor(Colors(rows))[j].value == KeyOf(rows[i])
  {
    var m := RowToColor(rows, i);
    OptionAt(Colors(rows), m);
    NormalizeTrim(rows[i].name);
    j := m + 1;
  }

  /** Every key of the inventory table is offered by some option. */
  lemma KeyIsOption(rows: seq<InvRow>, k: string) returns (j: nat)
    requires k in TableOf(rows).entries
    ensures 1 <= j < |OptionsFor(Colors(rows))| && OptionsFor(Colors(rows))[j].value == k
  {
    var i := KeyHasRow(rows, k);
    j := RowOption(rows, i);
  }

  /** The option values offered after a refresh are exactly the keys of the
      inventory table, after the blank value of the placeholder. */
  lemma OptionsMatchInventory(rows: seq<InvRow>)
    ensures var opts := OptionsFor(Colors(rows));
            opts[0] == Placeholder
            && (forall j :: 1 <= j < |opts| ==> opts[j].value in TableOf(rows).entries)
            && (forall k :: k in TableOf(rows).entries ==> exists j :: 1 <= j < |opts| && opts[j].value == k)
  {
    var opts := OptionsFor(Colors(rows));
    forall j | 1 <= j < |opts| ensures opts[j].value in TableOf(rows).entries {
      OptionIsKey(rows, j);
    }
    forall k | k in TableOf(rows).entries ensures exists j :: 1 <= j < |opts| && opts[j].value == k {
      var j := KeyIsOption(rows, k);
    }
  }
}
