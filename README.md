# Poker chip buy-in calculator: the recalculation engine in Dafny

`script.js` runs a one-page poker chip calculator. It has two tables:

- The **inventory** table lists chip colours. Each row has a colour name, a
  chip value, a denomination label and the number of chips owned.
- The **dashboard** table has one row per colour put in play. Each row has a
  colour select and a chips-per-player field.

`script.js` attaches two kinds of handler to every row: the `oninput` of its
fields and select, and its Remove button. Each of them ends in `recalc`, which
looks up each dashboard row's colour in the inventory and shows the following:

- for each row:
  - the chips needed: players × chips per player;
  - the chips left over in the inventory;
  - the buy-ins that are left;
- for the page:
  - the buy-in per player;
  - the chips in play;
  - the value in play;
  - the big blinds per player;
  - the chips owned.

This project models that engine and the handlers around it. Every JavaScript
number is an exact `real`. A form field that `Number` reads as NaN is `None`.

The model is split into six modules:

- `Coerce` (coerce.dfy) models the `Number(x) || d` and `x || ''` defaulting
  idioms.
- `Names` (names.dfy) models `normalize`. It has JavaScript's `trim` over the
  exact ECMAScript white-space and line-terminator set, and `toLowerCase`.
- `Inventory` (inventory.dfy) models `getInventory`.
  - The object it builds is a `Table`: its keys in insertion order and a map
    of entries. `Object.values` follows insertion order for every key except
    integer-like ones (`"2"`, `"10"`), which JavaScript lists first, in
    ascending numeric order.
  - It also holds the total of chips owned.
  - It proves which keys the table holds, that the last row with a name wins,
    and how one more row changes the total owned.
- `Dashboard` (dashboard.dfy) models `refreshDropdowns`: the colour list and
  the rebuilt options of every select. Each select is then assigned its
  previous value.
  - It proves that the options after the placeholder offer exactly the keys of
    the inventory table.
- `Engine` (engine.dfy) models `recalc` as the method `Recalc`.
  - `Recalc` is built from loops, and it is proved equal to the specification
    function `Recompute`.
  - The lemmas say what each figure means.
- `Page` (page.dfy) models the page state as the class `Calculator`. Its
  fields are the two row lists and the two inputs.
  - Its constructor is the start-up code (script.js:132-133), which calls
    `addInventoryRow` seven times and `addDashboardRow` three times.
  - `AddInventoryRow`, `AddDashboardRow` and `RefreshDropdowns` model those
    functions. Nothing on the page calls them after start-up: `script.js`
    wires no button or event to them.
  - The methods the page can reach afterwards are the handlers it attaches:
    edit an inventory row, remove a row of either table, choose a colour and
    edit a chips-per-player field.
  - Typing into the player-count and big-blind inputs runs no handler
    (`EditPlayers`, `EditBigBlind`).

  Every method states the new state, and every method that recalculates
  returns the report `Recompute` gives for it.

Behaviour of `script.js` the model keeps:

- Removing the last row of a table leaves the table empty. No row is
  re-inserted.
- The options of a select are not de-duplicated. Two inventory rows named
  `Red` and ` red ` give two options with the same value.
- The player count is `Number(x) || 1`. A negative or fractional count passes
  through, and is not raised to a minimum of 1.
- Negative values, owned counts and chips per player also pass through.
- Editing an inventory row recalculates but does not rebuild the selects. Only
  adding a dashboard row rebuilds them (`EditInventoryRow`,
  `RemoveInventoryRow`), and that happens only at start-up.
- So the selects are rebuilt only while all seven inventory names are still
  blank. From then on every select offers only the placeholder. Every row
  reads the zero item, and the buy-in, the value in play and the big blinds
  stay 0 whatever is typed (`PlaceholderOnlyReport`, under "## Findings").
- `script.js` attaches no handler to the player-count and big-blind inputs.
  Typing into them changes only the field (`EditPlayers`, `EditBigBlind`).
  The next recalculation, triggered by any row edit, reads the new value.
- A select is assigned its previous value after its options are rebuilt.
  It keeps that value only when one of the new options has it, and otherwise
  reads "". That is the browser's rule for assigning a select's value.

## Model

| member | source | states |
|---|---|---|
| Coerce.NumberOr | script.js:38-39 | the `Number(x)` or-default idiom: a NaN or zero field gives the default, any other number is kept, and a non-zero default never yields 0 (so the player count is never 0) |
| Coerce.StringOr | script.js:30 | the label or-empty idiom: an absent or empty label gives the default, any other label is kept |
| Names.Trim | script.js:15 | the result is the infix of the input between the leading and trailing white space, has no white space at either end, and is empty exactly when the input is all white space |
| Names.LowerChar | script.js:15 | an upper-case letter becomes the lower-case letter at the same place in the alphabet; anything else is unchanged; the result is never upper-case and keeps its white-space status |
| Names.Lower | script.js:15 | `Lower` gives one character out for each character in |
| Names.LowerMeaning | script.js:15 | after `Lower` no upper-case letter is left, an upper-case letter becomes the lower-case letter at the same place in the alphabet, and every other character is kept |
| Names.Normalize | script.js:14-16 | a missing name gives ""; a present name gives "" exactly when it is all white space; the key is never longer than the name, is trimmed and has no upper-case letter |
| Names.NormalizeIsLoweredTrim | script.js:14-16 | the key is the name's characters from its first to its last non-white-space character, each lower-cased, with only white space outside that range |
| Names.NormalizeIdempotent | script.js:14-16 | normalising a key again gives the same key |
| Names.NormalizeTrim | script.js:115-123 | normalising a trimmed name gives the key of the untrimmed name, so an option value built from a trimmed colour is that row's inventory key |
| Inventory.ItemOf | script.js:28-32 | a row's entry has value 0 exactly when the value field is NaN or 0, and likewise for owned; other numbers are kept; a missing denomination becomes "" |
| Inventory.KeyOf | script.js:25-26 | a row's key is the `normalize`d name, never longer than the name (`Names.Normalize` states the rest) |
| Inventory.Put | script.js:28 | `map[key] = …` keeps the key order when the key is already there, and puts a new key at the end; `PutSame` and `PutOther` state the entries |
| Inventory.TableOf | script.js:22-35 | the table built row by row never holds the blank key |
| Inventory.TableOfValid | script.js:22-35 | the key order lists every key of the table exactly once and nothing else |
| Inventory.GetInventory | script.js:22-35 | the `forEach` loop that skips blank names and overwrites repeated keys builds exactly `TableOf(rows)` |
| Inventory.KeyHasRow | script.js:24-28 | every key of the table is the normalised name of some row |
| Inventory.RowKeyPresent | script.js:24-28 | every row whose normalised name is not blank has its key in the table |
| Inventory.KeyPresent | script.js:24-28 | a key is in the table if and only if it is non-blank and the normalised name of some row |
| Inventory.LastRowWins | script.js:24-33 | the entry of a key is the item of the last row with that key |
| Inventory.SumOwnedUpdate | script.js:46 | replacing one entry changes the sum of owned counts over distinct keys by the difference, counted once |
| Inventory.TotalOwnedAppend | script.js:46 | one more row leaves the total owned unchanged when its name is blank, replaces the earlier owned count when its key repeats (so a duplicate is counted once) and adds its owned count when its key is new |
| Dashboard.Colors | script.js:113-116 | the colour list has at most one entry per inventory row, each non-blank and trimmed |
| Dashboard.ColorsOne | script.js:114-115 | a single row offers its trimmed name, or nothing when that is blank |
| Dashboard.ColorsAppend | script.js:113-116 | the colours of two runs of rows are those of the first followed by those of the second, so the list follows row order and keeps duplicates |
| Dashboard.CollectColors | script.js:113-116 | the loop pushing the trimmed non-blank names builds exactly `Colors(rows)` |
| Dashboard.ColorFromRow | script.js:113-116 | each colour in the list is the trimmed name of some inventory row |
| Dashboard.RowToColor | script.js:113-116 | each inventory row with a non-blank name has its trimmed name in the list |
| Dashboard.BuildOptions | script.js:120-126 | a rebuilt select holds the placeholder and then, in colour order, one option per colour whose value is the colour's key and whose text is the colour |
| Dashboard.HasValue | script.js:127 | true exactly when some option of the select has the given value |
| Dashboard.Reselect | script.js:127 | a select assigned `prev` shows `prev` when one of its options has that value, and reads "" when none has it |
| Dashboard.Refreshed | script.js:118-128 | every select gets the new options and is assigned its previous value as `Reselect` says; the chips per player are untouched and no row is added or lost |
| Dashboard.OptionIsKey | script.js:112-128 | every option after the placeholder offers a key of the inventory table |
| Dashboard.RowOption | script.js:112-128 | every inventory row with a non-blank key is offered by some option after the placeholder |
| Dashboard.KeyIsOption | script.js:112-128 | every key of the inventory table is offered by some option after the placeholder |
| Dashboard.OptionsMatchInventory | script.js:112-128 | after a refresh the first option is the placeholder, and the values of the other options are exactly the keys of the inventory table |
| Engine.Lookup | script.js:52 | `inv[color] || {…}` reads the colour's entry when the table has it, and the zero item (value 0, denomination "", owned 0) when it does not |
| Engine.PerOf | script.js:51 | a NaN chips-per-player field counts as 0, and any number is kept |
| Engine.BuyInsLeft | script.js:61-62 | the buy-ins-left cell holds a number exactly when the chips needed are positive, and the dash otherwise, so there is no division by zero |
| Engine.BuyInsLeftQuotient | script.js:61-62 | that number of buy-ins times the chips needed is what is left |
| Engine.BigBlinds | script.js:71 | a big blind that is not positive gives 0 big blinds |
| Engine.BigBlindsQuotient | script.js:71 | with a positive big blind, the big blinds times the big blind are the buy-in |
| Engine.RowFigures | script.js:54-58 | a row needs players × chips per player, what is left plus what is needed is what the inventory owns, and it shows the item's value and denomination |
| Engine.SumOwnedEntries | script.js:44-47 | the loop over `Object.values(inv)` adds up to `TotalOwned` of the table |
| Engine.WalkRows | script.js:49-66 | the loop over the dashboard rows yields the row figures in row order, the buy-in `BuyIn` and the chips in play `ChipsInPlay` |
| Engine.NextRow | script.js:49-66 | one more dashboard row adds its figures, its value × chips per player to the buy-in and its chips needed to the chips in play |
| Engine.Recalc | script.js:37-72 | `recalc` yields exactly `Recompute`: players default to 1 and big blind to 0, the inventory table is built first, and the totals are those of the row loop |
| Engine.Recompute | script.js:37-72 | the report has one row per dashboard row, and an empty dashboard shows a buy-in and chips in play of 0; `ReportRow` states each row's figures, `ReportTotals` the buy-in, chips in play and chips owned, `ReportValue` the value in play and `ReportBigBlinds` the big blinds |
| Engine.ValueInPlay | script.js:70 | the value in play is 0 when the buy-in is, and is the buy-in itself for one player; `ValueInPlayIsChipValue` states what it adds up |
| Engine.ChipsInPlayIsPlayersTimesPer | script.js:65 | the chips in play are the player count times the sum of chips per player |
| Engine.ValueInPlayIsChipValue | script.js:70 | the value in play (buy-in × players) is the value of all the chips in play, summed row by row as chip value × chips needed |
| Engine.ReportRow | script.js:49-60 | in each row of the report, needed = players × chips per player (players 1 when blank or 0) and left = owned − needed; a known colour shows its value and denomination, and an unknown one shows value 0 and an empty denomination |
| Engine.ReportTotals | script.js:42-69 | the report's buy-in is `BuyIn` of the dashboard rows, its chips in play are players × the sum of chips per player, and its chips owned are `TotalOwned` of the inventory table |
| Engine.ReportValue | script.js:70 | the value in play of the report is the value of all chips in play |
| Engine.ReportBigBlinds | script.js:71 | with a positive big-blind input the report's big blinds times that input are the buy-in; with a blank, zero or negative input they are 0 |
| Engine.BuyInAppend | script.js:64 | the buy-in of two runs of rows is the sum of their buy-ins |
| Engine.BuyInOne | script.js:64 | a single row's buy-in is its value × chips per player |
| Engine.ChipsOne | script.js:65 | a single row's chips in play are players × chips per player |
| Engine.PickOut | script.js:64-65 | a row of a permutation of `init + [x]` can be taken out, leaving a permutation of `init` |
| Engine.BuyInOrderIrrelevant | script.js:64 | any permutation of the dashboard rows (same multiset) has the same buy-in |
| Engine.ChipsInPlayAppend | script.js:65 | the chips in play of two runs of rows is the sum of theirs |
| Engine.ChipsInPlayOrderIrrelevant | script.js:65 | any permutation of the dashboard rows (same multiset) has the same chips in play |
| Engine.UnknownColour | script.js:52 | a row whose colour is not in the inventory adds nothing to the buy-in, still adds players × chips per player to the chips in play, shows value 0 and is short by all its chips |
| Engine.ReselectLookup | script.js:127 | when every table key is among a select's options, the value it is assigned reads the same item as its previous value: a kept value is the same colour, and a value reset to "" was not a key |
| Engine.RefreshKeepsChips | script.js:118-128 | rebuilding the selects does not change the chips in play |
| Engine.BuyInSameItems | script.js:64 | rows that read the same items with the same chips per player, row for row, have the same buy-in |
| Engine.RefreshKeepsBuyIn | script.js:118-128 | rebuilding the selects does not change the buy-in when every table key is among the new options |
| Engine.KeysAmongOptions | script.js:112-128 | after a refresh every key of the inventory table is among the options of a select |
| Engine.RefreshKeepsReport | script.js:118-129 | rebuilding the selects from the inventory changes no figure of the report, including for selects reset to "" |
| Page.Without | script.js:104-107 | removing the element at `i` keeps the elements before it in place and shifts the ones after it down by one |
| Page.BlankRows | script.js:132 | the first start-up loop yields `n` blank inventory rows |
| Page.NewRows | script.js:133 | the second start-up loop yields `n` dashboard rows, each with the given options and no colour chosen |
| Page.Calculator.constructor | script.js:132-133 | at start-up there are seven blank inventory rows and three dashboard rows, each with no colour chosen and only the placeholder option (`PlaceholderOnly`) |
| Page.Calculator.Recalculate | script.js:37-72 | `recalc` returns `Recompute` of the current state and changes nothing |
| Page.Calculator.AddInventoryRow | script.js:74-89 | a blank row is appended to the inventory; nothing else changes |
| Page.Calculator.RemoveInventoryRow | script.js:84-87 | exactly inventory row `i` is removed, the others keep their order, the dashboard is untouched, and the report is `Recompute` of the new state; a page whose selects offer only the placeholder stays so |
| Page.Calculator.EditInventoryRow | script.js:83 | the edited inventory row takes its new contents, the dashboard (including its options) is untouched, and the report is recomputed; a page whose selects offer only the placeholder stays so |
| Page.Calculator.EditInventoryRowRefreshing | script.js:112-130 | the corrected edit of an inventory row: the row takes its new contents, then every select is rebuilt from the inventory names as `refreshDropdowns` does, and the report is recomputed |
| Page.Calculator.EditPlayers | script.js:38 | typing into the player-count input changes only that field and recalculates nothing; `recalc` reads it next time; a page whose selects offer only the placeholder stays so |
| Page.Calculator.EditBigBlind | script.js:39 | typing into the big-blind input changes only that field and recalculates nothing; `recalc` reads it next time; a page whose selects offer only the placeholder stays so |
| Page.Calculator.RefreshDropdowns | script.js:112-130 | the dashboard becomes `Refreshed` with the options of the current inventory names (each select keeps its value only when a new option has it), the inventory is untouched, and the report is recomputed |
| Page.Calculator.AddDashboardRow | script.js:91-110 | an empty row is appended and then every select is rebuilt, and the report is recomputed |
| Page.Calculator.RemoveDashboardRow | script.js:104-107 | exactly dashboard row `i` is removed, the others keep their order, and the report is recomputed; a page whose selects offer only the placeholder stays so |
| Page.Calculator.ChooseColour | script.js:103 | row `i` takes the value of option `j` of its own select, nothing else changes, and the report is recomputed; a page whose selects offer only the placeholder stays so |
| Page.Calculator.EditPerPlayer | script.js:103 | row `i` takes the new chips-per-player field, nothing else changes, and the report is recomputed; a page whose selects offer only the placeholder stays so |
| Page.BlankColors | script.js:113-116 | inventory rows with blank names contribute no colour to the selects |
| Page.BlankRowKeepsReport | script.js:74-88 | appending a blank inventory row changes no figure of the report |
| Page.NewRowKeepsTotals | script.js:91-108 | appending an empty dashboard row changes neither the buy-in nor the chips in play |
| Page.RemoveRowBuyIn | script.js:104-107 | the buy-in without row `i`, plus that row's own buy-in, is the buy-in of all rows |
| Page.RemoveRowChips | script.js:104-107 | the chips in play without row `i`, plus that row's own chips, are the chips in play of all rows |
| Page.PlaceholderOnlyBuyIn | script.js:52-64 | while every select offers only the placeholder and has nothing chosen, every row reads the zero item and the buy-in is 0 |
| Page.PlaceholderOnlyReport | script.js:109-133 | on such a page the buy-in, the value in play and the big blinds are 0 for every inventory and every input |
| Page.EditedNameOffered | script.js:112-128 | after an inventory row takes a non-blank name and the selects are rebuilt, every select offers that row's key, and the key names an inventory entry |

## Left out

- The DOM is left out, and the state is explicit. That covers the following:
  - `getElementById` and `querySelectorAll`;
  - the `innerHTML` row templates and element creation;
  - the `oninput` and `onclick` wiring.
  Each handler is a method of `Calculator`.
- Text rendering is left out, because it is float-to-string formatting. That
  covers `currency`, `toFixed(2)`, the `' BB'` suffix and the `—` dash:
  - the report holds numbers;
  - the buy-ins-left cell is `Option<real>` (`None` is the dash), derived by
    `BuyInsLeft` from a row of the report rather than stored in it.
- `Number`'s parsing of text is left out. This covers white space, hexadecimal
  and exponent forms, and Infinity. A field is already a number, or `None`
  for NaN.
- Floating-point rounding is left out: numbers are exact reals.
- `toLowerCase` outside ASCII is left out. `LowerChar` maps only `A`-`Z`, so a
  non-ASCII capital letter keeps its case in a key.
- Inventory names that normalise to a lower-case `Object.prototype` property
  are left out. These are `constructor` and `__proto__`; in the model both are
  ordinary keys.
  - `map['constructor'] = …` creates an own entry like any other key. Reading
    `inv['constructor']` when no row names it returns the `Object` function
    from the prototype instead of the zero item. Its `value` and `owned` are
    undefined, so the buy-in becomes NaN.
  - `map['__proto__'] = …` replaces the object's prototype and adds no own
    entry. `Object.values` skips it, so its owned count is not in the total,
    while `inv['__proto__']` still reads it back.
- The order of integer-like keys is left out. JavaScript's `Object.values`
  lists integer-like keys (`"2"`, `"10"`) first, in ascending numeric order,
  while `Table` keeps insertion order for every key. Only the total owned
  reads that order. With exact reals the order of a sum does not matter, so
  only floating-point rounding, left out above, could notice.
- The start-up recalculations are left out of the constructor, which only
  builds the initial state. They are the `recalc()` at script.js:135 and the
  one `refreshDropdowns` makes (script.js:129) each time the start-up
  `addDashboardRow` calls it (script.js:109). Their figures are what
  `Recalculate` returns on the state at that point.
- The values of the player-count and big-blind inputs at start-up come from
  the page's markup, which is not part of this model. They are parameters of
  the constructor.

## Findings

| source | as written | input that shows it | evidently intended | confidence | as-written member | corrected member |
|---|---|---|---|---|---|---|
| script.js:74-133 | `addInventoryRow`, `addDashboardRow` and `refreshDropdowns` run only from the start-up loops, while all seven inventory names are blank; editing an inventory name recalculates without rebuilding the selects, so every select keeps only the placeholder | load the page, type `Red` with value 5 into the first inventory row, choose the first option of the first select (the placeholder, the only one offered) and type 3 chips per player: the buy-in shows $0.00 | the selects offer the colours named in the inventory once they are typed, as `refreshDropdowns` builds them, so a chosen colour counts towards the buy-in | high; not executed | Page.PlaceholderOnlyReport | Page.Calculator.EditInventoryRowRefreshing |

- As written, the constructor ensures `PlaceholderOnly(dashboard)`, and every
  method the page can reach after start-up keeps it. `PlaceholderOnlyReport`
  proves that on such a page the buy-in, the value in play and the big blinds
  are 0 for every inventory and every input.
- Corrected, `EditInventoryRowRefreshing` rebuilds the selects after an edit.
  `EditedNameOffered` proves that every select then offers the edited row's
  key and that the key names an inventory entry.
  `Dashboard.OptionsMatchInventory` proves that the options after the
  placeholder are exactly the inventory keys, and `Engine.RefreshKeepsReport`
  that rebuilding them changes no figure.
