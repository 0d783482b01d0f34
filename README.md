# Metrics dashboard — a Dafny model

This project models the logic of a small authenticated metrics dashboard. The dashboard keeps a
table of named metric records (`id`, `name`, `value` as text) and shows nine of them:

- three as radial gauges ("Fechados Total", "Fechados Mês", "Fechados Dia");
- six as numeric cards.

A signed-in user can edit a value. The model covers these parts:

- **Gauge arithmetic** (`ChartRadialTexts`, written twice with identical expressions in
  `dash.tsx` and `chart2.tsx`; module `Gauge`):
  - the target is the first run of ASCII digits in the label, or 100 when there is none;
  - the percentage is guarded against a zero target;
  - the end angle sweeps 360 degrees from -270;
  - the bar is green when the goal is reached and red otherwise.
  Percentages and angles are exact `real`s.
- **Decimal text** (module `Decimal`): `parseInt(s, 10)` and `toString()` on integers. The model
  uses these to read digit runs and values and to seed the editor.
- **`GetValue`** (module `GetValueAction`): the records whose name matches, projected to
  `{id, name, value}` in store order. A store fault becomes "Failed to fetch data.".
- **`updateData`** (module `UpdateDash`), applied to a `Store` object whose `rows` it updates in
  place:
  - the session check runs first, outside the `try`;
  - inside the `try` come the lookup, the "not found" throw and the single-row write;
  - the `catch` turns every error from inside the `try` into "Não foi possível atualizar os dados.".
  A pure `UpdateOutcome`/`StoreAfter` pair specifies the method. The lemmas about updates are
  stated on that pair.
- **The `Dashboard` view** (module `Dashboard`):
  - the fetch loop (`CollectFirsts`), specified by `FirstPerTitle`;
  - the gauge/numeric partition and the label chosen for each gauge;
  - which card shows the editor, and what its Edit button seeds the editor with;
  - the state `data`, `editingId` and `editValue`, as a class whose `HandleEdit`, `SetEditValue`, `HandleSave`
    and `HandleCancel` methods update it.
- **The `chart2.tsx` variant's display rule** (module `Chart2`): the editor shows exactly when
  `isEditing` holds, and the Edit button shows regardless of the session.

The table is a `seq<Row>` in store order with unique ids. The same table feeds both actions, so
the model can state that a later fetch sees an update. Everything the environment decides is a
parameter:

- the session;
- a fault, given as the error the store throws, at each store call;
- for the fetch, the first `GetValue` call at which the store throws, if any. The loop stops there,
  so later faults never matter.

Two behaviours of the code are easy to miss, and the model states both:

- an unknown id on update reaches the caller as "Não foi possível atualizar os dados.", not as
  "Registro não encontrado.", because that error is thrown inside the `try`
  (update-dash.ts:25-27 and 42-45);
- a failing fetch leaves `data` as it was. Records already collected are dropped, not shown,
  because `setData` is never reached (dash.tsx:195-199).

## Model

| member | source | states |
|---|---|---|
| `Records.Project` | app/_actions/get-value.ts:17-21 | a returned record carries exactly the row's id, name and value; no other column |
| `Records.HasUser` | app/_components/dash.tsx:82 | the client's gate `session?.user`: a session with a user in it (also at lines 151, 295 and 313) |
| `Records.Authenticated` | app/_actions/update-dash.ts:15 | the server's gate `session?.user?.email`: a user whose email is present and not empty |
| `Records.AuthenticatedHasUser` | app/_actions/update-dash.ts:15-17 | the server's gate (a user with a non-empty email) implies the client's gate (`session?.user`), but not conversely: a user without an email sees the edit controls and is refused |
| `Decimal.LeadingDigits` | app/_components/dash.tsx:260 | the digits `parseInt` reads are the longest digit prefix |
| `Decimal.LeadingDigitsOfRun` | app/_components/dash.tsx:67 | a maximal digit run followed by a non-digit or the end is read whole (the regex is greedy) |
| `Decimal.ParseInt` | app/_components/dash.tsx:312 | `parseInt(value, 10)` is NaN exactly when no digit follows the optional sign; a value starting with a digit is non-negative |
| `Decimal.NatToString` | app/_components/chart2.tsx:151 | `toString()` of a natural number is a non-empty digit string with no leading zero |
| `Decimal.IntToString` | app/_components/chart2.tsx:151 | `value.toString()`: a minus sign exactly for a negative value, then digits with no leading zero (also dash.tsx:155) |
| `Decimal.ParseNatToString` | app/_components/chart2.tsx:151 | reading back the decimal form of n gives n |
| `Decimal.ParseIntToString` | app/_components/dash.tsx:155 | `parseInt(v.toString(), 10) == v` for every integer v |
| `Gauge.FirstDigitFrom` | app/_components/dash.tsx:67 | the leftmost match starts at a digit with no digit before it; there is no match exactly when the label has no digit |
| `Gauge.FirstDigitRun` | app/_components/dash.tsx:67 | a capture exists exactly when the label holds a digit; it is a non-empty digit run that starts after digit-free text and is not followed by a digit, i.e. the leftmost maximal run |
| `Gauge.Target` | app/_components/dash.tsx:67-68 | a label without digits gives the target 100 |
| `Gauge.TargetOfDigitsInLabel` | app/_components/dash.tsx:67-68 | digit-free text, then any non-empty digit run, then text not starting with a digit gives the run's value as the target, leading zeros included ("de 007" gives 7) |
| `Gauge.TargetOfNumberInLabel` | app/_components/chart2.tsx:64-65 | digit-free text, then the number n, then text not starting with a digit gives target n ("de 100" gives 100, "de 3" gives 3) |
| `Gauge.Percentage` | app/_components/chart2.tsx:66 | the percentage is 0 for target 0 and otherwise satisfies percentage·target = 100·value; it lies in 0..100 while 0 ≤ value ≤ target |
| `Gauge.EndAngle` | app/_components/dash.tsx:69-70 | (endAngle + 270)·target = 360·value for a positive target; -270 for target 0 or value 0; 90 when value equals a positive target |
| `Gauge.EndAngleOfPercentage` | app/_components/chart2.tsx:67 | endAngle = -270 + 3.6·percentage, and it never decreases as the value grows |
| `Gauge.ReachedGoal` | app/_components/dash.tsx:71 | for a positive target the goal is reached exactly when the percentage is at least 100; target 0 is reached by any value ≥ 0 |
| `Gauge.BarColor` | app/_components/dash.tsx:71-72 | green (#22c55e) exactly when the goal is reached, red (#ef4444) exactly when it is not |
| `Gauge.GreenIffFullCircle` | app/_components/chart2.tsx:68-69 | for a positive target the bar is green exactly when the arc reaches 90 degrees (a full circle) |
| `GetValueAction.Matching` | app/_actions/get-value.ts:13-21 | every returned record has the requested name; every row with that name is returned, projected; the result is empty exactly when no row has the name |
| `GetValueAction.MatchingOrigin` | app/_actions/get-value.ts:13-21 | every returned record is the projection of a stored row |
| `GetValueAction.MatchingAppend` | app/_actions/get-value.ts:13-16 | results keep the store's order |
| `GetValueAction.FirstMatch` | app/_components/dash.tsx:190-192 | the first record returned is the projection of the first row carrying the name |
| `GetValueAction.GetValue` | app/_actions/get-value.ts:12-27 | it fails exactly on a store fault, always with "Failed to fetch data."; otherwise the records all have the name, all matching rows are included, and no match gives the empty sequence, not an error |
| `UpdateDash.Lookup` | app/_actions/update-dash.ts:20-23 | the lookup finds nothing exactly when no row has the id; otherwise it finds a stored row with that id |
| `UpdateDash.SetValue` | app/_actions/update-dash.ts:29-33 | the write keeps the length, changes only the `value` of the rows with the id, and leaves every other row as it was |
| `UpdateDash.SetValueKeepsIds` | app/_actions/update-dash.ts:29-33 | the write keeps every row's id, so ids stay unique |
| `UpdateDash.Store.constructor` | app/_actions/update-dash.ts:20-21 | the table starts with the given rows, whose ids are its primary key (`findUnique` by `id`) |
| `UpdateDash.Store.FindUnique` | app/_actions/update-dash.ts:20-23 | the store's `findUnique`: the thrown fault, or the projection of the row with the id, or null |
| `UpdateDash.Store.Update` | app/_actions/update-dash.ts:29-39 | the store's `update`: on a fault or an unknown id it throws and changes nothing; otherwise it writes the value and returns `{id, name, value}` of the updated row |
| `UpdateDash.UpdateOutcome` | app/_actions/update-dash.ts:12-45 | without an email the action fails with "Usuário não autenticado."; a fault or an unknown id gives "Não foi possível atualizar os dados."; it succeeds exactly otherwise, returning the id, the stored name and the new value; no other message ever reaches the caller |
| `UpdateDash.StoreAfter` | app/_actions/update-dash.ts:29-45 | a failed action leaves the table as it was; otherwise no row is added, removed or renamed, rows with other keys are untouched, and the row with the key holds the new value |
| `UpdateDash.UpdateData` | app/_actions/update-dash.ts:12-45 | the gate, the lookup, the write and the catch, run step by step against the store, give `UpdateOutcome`; the store changes only when the action succeeds, and then by `SetValue` |
| `UpdateDash.UnknownIdIsMasked` | app/_actions/update-dash.ts:25-45 | an unknown id surfaces as the generic message, never as "Registro não encontrado.", and the table is unchanged |
| `UpdateDash.SetValueIdempotent` | app/_actions/update-dash.ts:29-33 | writing the same value twice gives the same table as writing it once |
| `UpdateDash.UpdateIdempotent` | app/_actions/update-dash.ts:29-33 | after a successful update, repeating it (whatever the store does the second time) leaves the table unchanged |
| `UpdateDash.UpdateVisibleToGetValue` | app/_actions/update-dash.ts:34-41 | after a successful update, `GetValue` of the record's name returns the returned record, and every record it returns with that id has the new value |
| `Dashboard.FirstFor` | app/_components/dash.tsx:190-193 | one iteration keeps at most one record, named after the title; it keeps none exactly when no row has the title |
| `Dashboard.FirstForIsHeadOfGetValue` | app/_components/dash.tsx:190-193 | what an iteration keeps is `values[0]` of `GetValue(title)` when that is non-empty |
| `Dashboard.FirstForIsFirstRow` | app/_components/dash.tsx:192 | the record kept for a title is the projection of the first row carrying it |
| `Dashboard.FirstPerTitle` | app/_components/dash.tsx:177-194 | the loop yields at most one record per title |
| `Dashboard.FirstPerTitleSnoc` | app/_components/dash.tsx:189-194 | each iteration appends what `FirstFor` keeps for its title |
| `Dashboard.FirstPerTitleAppend` | app/_components/dash.tsx:177-194 | records come out in title order: earlier titles' records come before later titles' records |
| `Dashboard.FirstPerTitleComplete` | app/_components/dash.tsx:177-194 | when every title has a row, the k-th record is named after the k-th title |
| `Dashboard.FirstForOrigin` | app/_components/dash.tsx:190-192 | a kept record is the projection of a stored row |
| `Dashboard.FirstPerTitleOrigin` | app/_components/dash.tsx:188-194 | every fetched record comes from a stored row and is named after one of the titles |
| `Dashboard.FirstPerTitleIdsUnique` | app/_components/dash.tsx:177-194 | with a keyed table and distinct titles, the fetched records have distinct ids |
| `Dashboard.TitlesDistinct` | app/_components/dash.tsx:177-187 | no title appears twice in the list |
| `Dashboard.FetchAtMostNine` | app/_components/dash.tsx:177-194 | the fetch never yields more than nine records |
| `Dashboard.GaugeList` | app/_components/dash.tsx:252-255 | the gauge list holds exactly the records of `data` named "Fechados Total", "Fechados Mês" or "Fechados Dia" |
| `Dashboard.NumericList` | app/_components/dash.tsx:280-286 | the numeric list holds exactly the other records of `data` |
| `Dashboard.PartitionIsExact` | app/_components/dash.tsx:252-286 | the two lists together hold every record exactly as often as `data` does |
| `Dashboard.PartitionSizes` | app/_components/dash.tsx:252-286 | the gauge cards and the numeric cards add up to the number of records |
| `Dashboard.GaugeListAppend` | app/_components/dash.tsx:252-255 | the gauge filter keeps the order of `data` |
| `Dashboard.NumericListAppend` | app/_components/dash.tsx:280-286 | the numeric filter keeps the order of `data` |
| `Dashboard.GaugeListOfGauges` | app/_components/dash.tsx:252-255 | a list of gauge records passes the gauge filter whole |
| `Dashboard.GaugeListOfNumbers` | app/_components/dash.tsx:252-255 | a list without gauge records leaves the gauge filter empty |
| `Dashboard.NumericNamesAreNotGauges` | app/_components/dash.tsx:177-187 | the last six titles are not gauge names |
| `Dashboard.TitlesSplit` | app/_components/dash.tsx:177-187 | the nine titles are the three gauge names followed by the six numeric names |
| `Dashboard.NamedAfterTitles` | app/_components/dash.tsx:177-187 | nine records named after the titles, in order, carry the gauge names in their first three and the numeric names in their last six |
| `Dashboard.GaugeNamesFirst` | app/_components/dash.tsx:252-255 | three records named after the gauge names all become gauge cards |
| `Dashboard.NumericNamesAfter` | app/_components/dash.tsx:252-255 | six records named after the numeric names never become gauge cards |
| `Dashboard.ThreeGaugesSixNumbers` | app/_components/dash.tsx:252-286 | nine records named after the nine titles split into three gauges and six numeric cards |
| `Dashboard.FullStoreRendersThreeGauges` | app/_components/dash.tsx:177-286 | a table holding every title gives nine records: three gauge cards and six numeric cards |
| `Dashboard.LabelFor` | app/_components/dash.tsx:261-267 | "de 100" for the month gauge, "de 3" for the day gauge, "" otherwise |
| `Dashboard.TotalGaugeTarget` | app/_components/dash.tsx:261-267 | the total gauge's empty label gives the default target 100 |
| `Dashboard.MonthGaugeTarget` | app/_components/dash.tsx:261-263 | the month gauge's label "de 100" gives target 100 |
| `Dashboard.DayGaugeTarget` | app/_components/dash.tsx:264-265 | the day gauge's label "de 3" gives target 3 |
| `Dashboard.DeLabelTarget` | app/_components/dash.tsx:261-267 | a label "de n" gives target n |
| `Dashboard.DashCardBody` | app/_components/dash.tsx:295-321 | a card (numeric here; gauges apply the same test at lines 82 and 151) shows the editor exactly when it is the one being edited and `HasUser` holds of the session; otherwise it shows an Edit button exactly when `HasUser` holds |
| `Dashboard.EditSeed` | app/_components/dash.tsx:312-317 | the Edit seed (`parseInt(value).toString()` for a gauge at line 155, the raw text for a numeric card) parses to the same number as the stored value, "NaN" included |
| `Dashboard.AtMostOneEditor` | app/_components/dash.tsx:272 | when ids are distinct, at most one card shows the editor |
| `Dashboard.ReplaceById` | app/_components/dash.tsx:214-216 | the map keeps the length, puts the returned record at every index whose id is the saved id, and keeps every other record |
| `Dashboard.ReplaceKeepsIdsUnique` | app/_components/dash.tsx:214-216 | replacing with a record that has the same id keeps the ids distinct |
| `Dashboard.CollectStep` | app/_components/dash.tsx:189-193 | one iteration appends `values[0]` of that title's `GetValue`, or nothing when it returns no record, and the result is `FirstPerTitle` of the titles so far |
| `Dashboard.CollectFirsts` | app/_components/dash.tsx:188-199 | the loop fails exactly when the store throws at one of its calls; otherwise it yields `FirstPerTitle` of the titles |
| `Dashboard.DashboardState.constructor` | app/_components/dash.tsx:169-171 | starts with no data, nothing being edited, and an empty draft; the invariant `Valid` (distinct ids on screen) holds |
| `Dashboard.DashboardState.FetchData` | app/_components/dash.tsx:175-199 | when no call among the nine throws, `data` becomes the first record per title in title order; when one does, `data` is unchanged; either way the ids on screen stay distinct |
| `Dashboard.DashboardState.HandleEdit` | app/_components/dash.tsx:205-208 | sets the edited id and the draft to the given current value, keeping `Valid` |
| `Dashboard.DashboardState.SetEditValue` | app/_components/dash.tsx:300 | typing sets the draft and nothing else (also at line 87) |
| `Dashboard.DashboardState.HandleCancel` | app/_components/dash.tsx:226-229 | clears the edited id (null) and the draft ("") |
| `Dashboard.DashboardState.HandleSave` | app/_components/dash.tsx:211-223 | sends the draft to `updateData`; on success replaces the records with that id by the returned record and clears the edit state; on failure leaves `data`, `editingId` and `editValue` unchanged; the ids on screen stay distinct |
| `Chart2.Chart2CardBody` | app/_components/chart2.tsx:79-154 | this variant shows the editor exactly when `isEditing`, whatever the session; otherwise it always offers Edit, seeded with text that parses back to the value |
| `Chart2.VariantsDifferOnlyWithoutUser` | app/_components/chart2.tsx:79 | with a user present both variants show the same card; without one, the dashboard shows neither editor nor Edit button, while this variant still offers Edit |

## Left out

- Rendering: JSX layout, recharts props, CSS classes and `chartConfig` are presentation only. The
  model keeps only what a card shows: the editor, or the value with or without an Edit button.
- Sign-out (`handleSignOut`, `signOut`, the redirect) and `layout.tsx`'s `SessionProvider`: these
  are session-provider plumbing. The session is a parameter: an optional user with an optional
  email.
- `getServerSession` failing: it runs outside the `try`, so its error would reach the caller
  unchanged. The session is given, so the model has no such fault.
- Prisma internals: the table is a `seq<Row>` with unique ids, and each store call takes the error
  it throws as a parameter. The store's own messages never reach the caller. A row deleted
  between the lookup and the write is not modelled (no concurrency).
- Asynchrony: unmounting mid-fetch, hung requests and timeouts are not modelled. Two concurrent
  updates are not modelled either (last write wins); the model runs calls one after another.
- `console.error` and `alert`: a caught error is modelled only as the state being left unchanged.
- Gauge arithmetic: exact reals stand in for IEEE-754 doubles, so rounding is not modelled.
- Gauge arithmetic on NaN: the gauge functions take an integer value. A stored value that does
  not parse (NaN in JavaScript) is modelled only for the Edit seed ("NaN"), not in the
  percentage, angle or colour.
- Store order: `findMany` has no `orderBy` (get-value.ts:13-22), so the database's order is
  unspecified. The model assumes rows come back in the `seq`'s order, the same order on every
  call, and an update does not reorder them; `FirstMatch`, `FirstForIsFirstRow` and
  `MatchingAppend` rest on that assumption.
- Decimal.ParseInt: leading whitespace is not skipped, and precision loss for digit strings
  beyond 2^53 is not modelled.
- Decimal.IntToString: the exponent notation JavaScript uses from 10^21 upwards is not modelled.
