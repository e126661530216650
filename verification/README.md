# Meta Paid Ads Planner — a Dafny model of the scenario engine

The planner is a single-page calculator for paid advertising campaigns. Global
defaults give six inputs: ad spend, cpm (cost per thousand impressions), ctr
(click-through rate), cvr (conversion rate), the average gift, and fpp (funds
raised per participant). Up to three scenarios inherit or override each input.
Each scenario has one of two modes:

- **derived**: the cost per acquisition (CPA) is computed from cpm, ctr and cvr.
- **locked**: a manual CPA is fixed, and cvr, ctr or cpm is solved backwards to
  match it.

A forward funnel then projects impressions, clicks, participants, donors,
funds raised and return on ad spend (ROAS). A fallback export writes the
results as comma-separated text.

This project models that engine as pure functions over `real`:

- `types.dfy` (module `Types`): the configuration state. It holds the global
  inputs, the presets, and for each scenario its inherit flags, optional local
  values, mode, manual CPA and solve target.
- `config.dfy` (`Config`): the configuration updates `applyPreset`,
  `updateScenario`, `updateUseGlobal` and `applyScenarioPreset`, as list and
  record transformations.
- `resolver.dfy` (`Resolver`): the resolution of each scenario's effective
  inputs, the derived CPA, and the backward solve in locked mode. Its lemmas
  show that solving inverts deriving and that an in-bounds solve is consistent
  with its target.
- `projector.dfy` (`Projector`): the funnel. Its lemmas cover the
  divide-by-zero guards, non-negativity, narrowing from stage to stage,
  monotonicity in spend, and agreement between the shown CPA and the derived
  CPA.
- `planner.dfy` (`Planner`): the initial state, the recomputation of every
  scenario, the worked examples, and lemmas that span the updates, the resolver
  and the projector.
- `columns.dfy` (`ColumnLetters`): the spreadsheet column letters. It proves
  that the conversion is bijective base 26, with both round trips.
- `csv.dfy` (`Csv`): `esc` and `toCSV` as the source text reads, a corrected
  variant, and a small CSV reader that shows what each variant reads back as.
- `numeric.dfy` and `wrappers.dfy`: `Math.floor`, `Math.round`, `Math.max`,
  clamping, and the `Option` type.

JavaScript `null` and `undefined` are `None`. The `NaN` that the locked solve
produces when its guard fails is also `None`. `Math.floor(x)` is `x.Floor` and
`Math.round(x)` is `(x + 0.5).Floor`.

Behaviour of the code that is easy to misread:

- Display counts in `app/page.tsx` use `Math.floor`, which rounds toward minus
  infinity for a negative stage, not toward zero.
- ROAS depends on spend alone: with cpm = 0 and positive spend, the page shows
  0%, not an absent value. ROAS is absent exactly when spend is not positive
  (`Projector.NoImpressionsMeansZeroRoas`).
- The funnel applies `Math.max(…, 0)` to ctr and cvr only. A negative spend or
  fpp still gives negative stages, so non-negativity is proved only for
  non-negative spend and fpp.
- A scenario records each input as a `useGlobal` boolean plus an optional local
  value. Turning the flag on leaves the local value in place, so turning it off
  again restores it (`Planner.OverrideSurvivesInheritance`).

## Model

| member | source | states |
|---|---|---|
| Config.ApplyPreset | app/page.tsx:77-82 | records the preset key and sets the global cpm, ctr and cvr to the preset's values; spend, average gift, fpp and every scenario are unchanged |
| Config.PatchLocals | app/page.tsx:91 | in the spread, each of the six local inputs takes the patch's value when the patch sets it and keeps the scenario's value otherwise |
| Config.ApplyPatch | app/page.tsx:91 | the spread `{ ...s, ...patch }`: every key the patch sets wins, every other key keeps the scenario's value, and the empty patch changes nothing |
| Config.UpdateScenario | app/page.tsx:90-91 | the list keeps its length; only index i changes, to the scenario with the patch's present keys overriding; an out-of-range index changes nothing |
| Config.UpdateUseGlobal | app/page.tsx:92-93 | the list keeps its length; only scenario i changes; the chosen flag takes the new value, the other five flags are kept, and local values and all other fields are untouched |
| Config.ApplyScenarioPreset | app/page.tsx:95-102 | fails exactly when i is out of range; "inherit" turns on the cpm, ctr and cvr flags and keeps local values and other flags; a named preset stores its cpm, ctr and cvr as local values and turns those three flags off; other scenarios are unchanged |
| Types.PresetOf | app/page.tsx:60-64 | the preset table (Conservative 15/0.008/0.012, Midpoint 12.5/0.01/0.02, Meta Bench 12/0.015/0.025); every preset has a positive cpm and ctr, cvr strictly between 0 and 1, so each derives a CPA |
| Types.PresetLabelsDistinct | app/page.tsx:60-64 | distinct presets carry distinct labels |
| Numeric.Floor | app/page.tsx:173-176 | `Math.floor`: the greatest integer not above x, rounding toward minus infinity |
| Numeric.Round | app/page.tsx:177 | `Math.round`: the integer within half of x, with halves rounded up (2.5 to 3, -2.5 to -2) |
| Planner.InitialState | app/page.tsx:69-88 | the initial state: Midpoint preset, globals 5000/12.5/0.01/0.02/62.5/2000 equal to the Midpoint rates, and scenarios A, B, C (colors green, blue, dark; locked CPA 800, 400, 50) that inherit all six inputs in derived mode, solving for cvr, so each resolves to exactly the globals |
| Numeric.Clamp01 | app/page.tsx:104 | the result lies in [0, 1]; it is the input when the input is in [0, 1], 0 below and 1 above |
| Resolver.ResolveInputs | app/page.tsx:115-120 | an inherited field equals the global value whatever the local value is; an overridden field equals the local value if present, else the global value |
| Resolver.DerivedCpa | app/page.tsx:126-128 | defined exactly when cpm, ctr and cvr are all positive; then positive, and times 1000·ctr·cvr gives back cpm |
| Resolver.ManualTarget | app/page.tsx:130 | a target exists exactly when the manual CPA is present and positive, and it is that value verbatim |
| Resolver.SolveRate | app/page.tsx:133-146 | the raw solved rate is defined (not NaN) exactly when the other rate and the target exceed 1e-12; then, with the other rate and the target, it reproduces cpm |
| Resolver.Settle | app/page.tsx:135-144 | the rate used downstream lies in [0, 1]: 0 for NaN, the raw value when in range, clamped otherwise; out of bounds holds exactly when the raw value is NaN or outside [0, 1] |
| Resolver.SolveLocked | app/page.tsx:131-153 | solves for the chosen input only, leaving the other five as resolved; a solved rate is settled; a solved cpm is 1000·ctr·cvr·target, unclamped, and out of bounds exactly when negative |
| Resolver.Resolve | app/page.tsx:113-160 | name and color are kept; in derived mode nothing is solved and CPA is the derived CPA; in locked mode CPA is present exactly when the manual CPA is positive and is then that value verbatim; a solve happens exactly then, defaulting to cvr; without it all six inputs stay as resolved |
| Resolver.LockedCvrInvertsDerived | app/page.tsx:126-139 | locking the CPA m that a cvr c0 in (0, 1] derives, and solving for cvr, gives exactly c0 back, in bounds, with the other inputs unchanged and m reported as the CPA |
| Resolver.LockedCtrInvertsDerived | app/page.tsx:126-146 | the same round trip when solving for ctr |
| Resolver.LockedCpmInvertsDerived | app/page.tsx:126-152 | locking the CPA m that a cpm m0 derives from positive ctr and cvr, and solving for cpm, gives exactly m0 back, in bounds |
| Resolver.SettledRate | app/page.tsx:133-146 | a solved and settled rate is in bounds and positive, with positive cpm and other rate, exactly when the other rate and the CPA exceed 1e-12 and cpm lies in (0, 1000 · other rate · CPA]; it then reproduces cpm |
| Resolver.SolveLockedInBounds | app/page.tsx:131-153 | for every target, a solve lands in bounds with positive cpm, ctr and cvr exactly when those conditions on the resolved inputs hold (for cpm: positive ctr and cvr); the CPA derived from the solved inputs is then the locked CPA |
| Resolver.LockedSolveIsConsistent | app/page.tsx:126-158 | a locked scenario with a positive CPA is solved and reports that CPA; it lands in bounds with positive rates exactly under the conditions above, and its derived CPA then equals the reported CPA |
| Projector.GiftDivisor | app/page.tsx:167 | the donor ratio divides by at least 0.01, and by at least the average gift |
| Projector.Funnel | app/page.tsx:164-169 | cpm at or below 0 gives zero impressions, clicks, participants, donors and funds; otherwise impressions times cpm is 1000·spend; the donor ratio times the divisor is fpp |
| Projector.Project | app/page.tsx:163-180 | counts are the floors of the unrounded stages and funds their nearest integer; all are 0 without a positive cpm; ROAS is absent exactly when spend is not positive and is otherwise 100·funds/spend; the shown CPA is absent exactly when unrounded participants are not positive and otherwise equals spend per participant |
| Projector.FunnelNonNegative | app/page.tsx:164-169 | with non-negative spend and fpp, every unrounded stage is non-negative |
| Projector.FunnelNarrows | app/page.tsx:164-166 | with non-negative spend, ctr ≤ 1 gives clicks ≤ impressions and cvr ≤ 1 gives participants ≤ clicks |
| Projector.RowNarrows | app/page.tsx:164-175 | the same narrowing holds for the floored display counts |
| Projector.FunnelMonotoneInSpend | app/page.tsx:164-169 | raising spend, all else fixed and fpp non-negative, lowers no unrounded stage |
| Projector.RowMonotoneInSpend | app/page.tsx:164-177 | raising spend, all else fixed and fpp non-negative, lowers no floored count and not the rounded funds |
| Projector.CpaShownIsDerivedCpa | app/page.tsx:164-170 | with positive spend, the shown CPA (spend per participant) equals the derived CPA whenever that is defined |
| Projector.NoImpressionsMeansZeroRoas | app/page.tsx:164-178 | with cpm at or below 0 and positive spend, ROAS is 0, not absent |
| Planner.Recompute | app/page.tsx:113-182 | one resolved scenario and one row per configured scenario, in the same order, with matching name and color |
| Planner.DerivedExample | app/page.tsx:69-88 | the first initial scenario derives CPA 62.5, and its row is 400000 impressions, 4000 clicks, 80 participants, 2560 donors, 160000 funds, 3200% ROAS and a shown CPA of 62.5 |
| Planner.LockedCvrExample | app/page.tsx:130-139 | locked at 800 with the initial globals, cvr solves to 0.0015625, in bounds, with CPA 800 |
| Planner.LockedCpmExample | app/page.tsx:147-152 | locked at 50 with ctr 0.01 and cvr 0.02, cpm solves to 10, in bounds |
| Planner.OverrideSurvivesInheritance | app/page.tsx:115-120 | turning a flag on makes the field resolve to the global value; turning it off again brings back the earlier local value |
| Planner.NamedPresetPinsRates | app/page.tsx:100-101 | after a named scenario preset, cpm, ctr and cvr resolve to the preset's values whatever the globals are, and the other inputs resolve as before |
| Planner.InheritAfterNamedPreset | app/page.tsx:95-101 | going back to "inherit" makes the rates follow the globals again, while the preset's rates stay stored as local values |
| Planner.GlobalPresetReachesInheritors | app/page.tsx:77-82 | after a global preset, a scenario that inherits cpm, ctr and cvr resolves them to the preset's values |
| Planner.LockedTargetIsShown | app/page.tsx:130-170 | a locked scenario whose solve can land in bounds, with positive spend, shows exactly its manual CPA as spend per participant |
| ColumnLetters.ColumnName | app/page.tsx:252 | the reference bijective base-26 conversion: non-empty exactly for a non-negative index, letters 'A'..'Z' only, a single letter below 26 |
| ColumnLetters.LastColumnLetter | app/page.tsx:252 | the source's loop computes the reference conversion; for a non-negative index the result is non-empty and reads back as that index |
| ColumnLetters.NameThenIndex | app/page.tsx:252 | reading back the letters of a column gives the column |
| ColumnLetters.IndexThenName | app/page.tsx:252 | every non-empty letter string is the name of the column it denotes |
| ColumnLetters.NameInjective | app/page.tsx:252 | distinct columns get distinct letters |
| ColumnLetters.ColumnNameExamples | app/page.tsx:252 | 0 is "A", 25 is "Z", 26 is "AA" |
| Csv.DoubleQuotes | app/page.tsx:267 | doubling quotes never shortens the text, and no character other than the quote appears or disappears |
| Csv.DoubleQuotesLength | app/page.tsx:267 | each double quote becomes two: the result is longer than the input by exactly its number of quotes |
| Csv.Esc | app/page.tsx:267 | null or undefined gives ""; a value without a character of the written class is kept verbatim; any other value is wrapped in quotes with its quotes doubled |
| Csv.EscIntended | app/page.tsx:267 | the same with the class double quote, comma and line break |
| Csv.Lines | app/page.tsx:268 | one line more than there are rows, the first being the first row's keys joined by commas |
| Csv.ToCsv | app/page.tsx:268 | empty for no rows; otherwise the header line and the row lines joined by a backslash followed by n |
| Csv.ToCsvIntended | app/page.tsx:268 | the same lines joined by line breaks |
| Csv.ReadFieldOfEsc | app/page.tsx:267 | a field written by the intended `esc` and followed by a separator reads back as the value, or "" for null |
| Csv.CsvRoundTrip | app/page.tsx:267-268 | with plain, non-empty headers, the intended export reads back as exactly the header and each row's values under the headers |
| Csv.ToCsvIsOneLine | app/page.tsx:268 | as written, a table without line breaks in its keys and values comes out with no line break at all |
| Csv.EscAsWrittenCounterexample | app/page.tsx:267 | as written, "a", line break, "b" stays unquoted and reads back as "a"; "Scenario A" is quoted only because it contains the letter n |
| Csv.ToCsvAsWrittenCounterexample | app/page.tsx:268 | as written, a one-row, one-column table reads back as one record instead of a header and a row |

## Left out

- React state, memoisation and rendering (`useState`, `useMemo`, JSX, motion, charts, `tickFormatter`, `toLocaleString`) are presentation. The updates are plain functions, and `Planner.Recompute` replaces the memoised recomputation.
- The xlsx export, Blob/URL/DOM download and the try/catch fallback are foreign library calls and I/O. So is the assembly of the exported objects (`sheetData`, `chartData`, `globalsRow`). `Csv` takes any list of records.
- `String(v)` number formatting is left out: exported cells are modelled as already-converted strings.
- `parseFloat` of inputs, the dated file name and its `.replace` are left out. They are string-to-float parsing and a clock read.
- IEEE-754 rounding, infinities and NaN inputs are left out. Inputs are finite reals. The only NaN modelled is the guarded solve's. So `isFinite` always holds for computed values, and the cpm solve is out of bounds exactly when negative.
- Config.ApplyPatch: a patch can set a field but cannot reset an optional field to `undefined`, because no caller does.
- Resolver.LockedCvrInvertsDerived: also requires the locked CPA to exceed 1e-12, because below that the source's guard yields NaN. The same holds for Resolver.LockedCtrInvertsDerived. Resolver.SettledRate and Resolver.SolveLockedInBounds state that boundary exactly.
- Projector.FunnelMonotoneInSpend: requires fpp ≥ 0, because with negative funds per participant, donors and funds fall as spend grows. The same holds for Projector.RowMonotoneInSpend.
- Referential transparency (the same inputs give the same outputs) needs no lemma: every member is a pure function.

## Findings

| source | as written | input that shows it | evidently intended | confidence | as-written member | corrected member |
|---|---|---|---|---|---|---|
| app/page.tsx:267 | the class `[\",\\n]` matches a double quote, a comma, a backslash and the letter n | the value "a", line break, "b" is left unquoted and reads back as "a"; "Scenario A" is quoted although nothing in it needs quoting | quote values containing a double quote, a comma or a line break | high; not executed | Csv.EscAsWrittenCounterexample | Csv.EscIntended |
| app/page.tsx:268 | lines are joined by `"\\n"`, a backslash followed by n | a one-row table with key "Scenario" and value "A" becomes the single line `Scenario\nA` (with a literal backslash) and reads back as one record | join lines with a line break | high; not executed | Csv.ToCsvAsWrittenCounterexample | Csv.ToCsvIntended |

`Csv.CsvRoundTrip` proves the intended property of the corrected pair: the
export reads back as the table it was given. `Csv.ReadFieldOfEsc` proves it
for a single field.
