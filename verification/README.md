# DCC attributes for dnd5e characters: a Dafny model

This project models the logic of the `dcc-dnd5e-extension` module
(`src/dcc.ts`). The module gives every dnd5e character four narrative numbers
(`audience`, `hype`, `style` and `grit`) plus a `provenance` marker, all stored
under the actor's `flags.dcc`. The model covers three parts of the module:

- **Defaults resolver** (module `Resolver`, `resolver.dfy`). The built-in
  `DEFAULT_DCC` record has all four numbers at 0 and provenance
  `"synthesized"`. The world-stored `defaults` setting is laid over it, and the
  actor's own `flags.dcc` is laid over that result. The host's
  `mergeObject(structuredClone(a), b, {inplace: false})` becomes `MergeObject`.
  This is a shallow, right-biased union of flat records. Records are
  `map<string, Value>`, so extra fields pass through. The `getRollData` wrapper
  and the sheet's `getData` both use the resolved record.
- **One-time seeding migration** (module `Seeding`, `seeding.dfy`). This is the
  `ready` hook's pass over the world's actors. The class `World` holds the
  actor collection, the stored defaults setting, the persisted migration flag
  and the log of the `actor.update` calls the host accepted. The method `World.Ready` carries out the
  loop. The pure functions `Writes`, `SeedPrefix` and `StopIndex` specify what
  the loop does. The lemmas beside them prove the following:
  - writes go only to character actors whose flags lack a default field;
  - each write is the whole merged record;
  - writes are issued in iteration order;
  - a second pass writes nothing.
- **Sheet** (module `Sheet`, `sheet.dfy`). `GetData` builds the render context.
  `CharacterSheetDcc.UpdateObject` is the form-submission filter. It collects
  the `flags.dcc.*` fields with their values coerced to numbers, sends them to
  `actor.update` only if there is at least one, and hands the whole form to
  the parent handler.

JavaScript values are modelled by `Values.Value` (`values.dfy`), together with
`Number(value)` restricted to integer results.

Host calls become state or parameters:
- `isObjectEqual` is structural equality.
- An accepted `actor.update(patch)` appends to a log; a rejected one leaves
  the log as it was. The host lays the patch over the
  stored flags, and the model proves that this equals a full replacement for
  the seeding writes (`Seeding.Seeded`).
- Whether the host rejects an update is an input: the set `failing` of actor
  ids for the migration, and `updateRejects` for the sheet.

The merge never changes its inputs. In the model every record is an immutable
value, and `World.Ready` states that the stored defaults are unchanged.

Two facts about the code shape the model:
- The `DccFlags` type declares number fields and a two-valued `provenance`,
  but nothing enforces this: whatever is stored passes through the merge.
- `super._updateObject` receives the whole form, `flags.dcc.*` fields
  included.

## Model

| member | source | states |
|---|---|---|
| `Resolver.MergeObject` | src/dcc.ts:58 | the merged record has the fields of both inputs; each field of the second input wins, and each other field of the first passes through |
| `Resolver.GetDccDefaults` | src/dcc.ts:150-153 | the defaults hold the five DCC fields plus every stored field; a stored field wins, and an unstored DCC field keeps its `DEFAULT_DCC` value |
| `Resolver.ResolveDcc` | src/dcc.ts:125-127 | the effective record holds every DCC field; a field comes from the actor's `flags.dcc` when present there, otherwise from the defaults |
| `Resolver.RollData` | src/dcc.ts:54-59 | the roll data gains a `dcc` entry holding the complete effective record; every other entry is left as the host returned it |
| `Resolver.DefaultDccValues` | src/dcc.ts:15-21 | `DEFAULT_DCC` holds exactly the five DCC fields, the four numbers at 0 and provenance "synthesized" |
| `Resolver.DefaultsWithoutStoredSetting` | src/dcc.ts:15-21 | with no stored setting, an empty one or the registered default, the defaults are exactly `DEFAULT_DCC` (four zeros, provenance "synthesized") |
| `Resolver.StoredSettingOverridesOnlyItsFields` | src/dcc.ts:151-152 | a setting that agrees with `DEFAULT_DCC` on the fields it holds leaves the defaults exactly `DEFAULT_DCC` |
| `Resolver.MergeFixedPoint` | src/dcc.ts:71-72 | the merge leaves a record unchanged if and only if the record already has every field of the defaults |
| `Resolver.MergeIdempotent` | src/dcc.ts:70-72 | resolving an already-resolved record with the same defaults returns it unchanged |
| `Resolver.PatchWithMergedReplaces` | src/dcc.ts:73 | laying the merged record over the current flags gives the merged record, so the update amounts to a full replacement |
| `Resolver.ResolveHypeExample` | src/dcc.ts:56-58 | built-in defaults and flags `{hype: 3}` resolve to hype 3 with every other field at its default |
| `Seeding.Merged` | src/dcc.ts:70-71 | the record computed for an actor holds the fields of the defaults and of its flags; each of its own fields keeps its value, and each missing field takes the default's value |
| `Seeding.Seeded` | src/dcc.ts:69-74 | an actor that needs a write ends with flags equal to the full merged record; any other actor is unchanged; id and type never change |
| `Seeding.StopIndex` | src/dcc.ts:68-76 | the pass stops at the first actor whose needed write is rejected, or at the end; no earlier actor's write is rejected |
| `Seeding.World.SeedActor` | src/dcc.ts:69-74 | one loop iteration: a rejected write (the actor needs one and the host refuses it) leaves actor and log unchanged; otherwise the actor becomes its seeded form and the log gains its write, if it needs one |
| `Seeding.World.Ready` | src/dcc.ts:65-77 | if already migrated, nothing changes; otherwise the handled prefix is seeded, the log gains the writes of that prefix in order, and the flag is set exactly when no write was rejected; stored defaults are unchanged |
| `Seeding.NeedsWrite` | src/dcc.ts:69-72 | an actor is written if and only if it is a character whose `flags.dcc` lacks a field of the defaults |
| `Seeding.CurrentFlags` | src/dcc.ts:70 | an actor without `flags.dcc` reads as the empty record; otherwise its stored record |
| `Seeding.AfterUpdate` | src/dcc.ts:73 | the host's update keeps id and type and lays the patch over the stored flags: patch fields win, other stored fields stay |
| `Seeding.Writes` | src/dcc.ts:68-74 | the accepted `actor.update` calls of a pass, in order: no more writes than actors, each patch holding every field of the defaults |
| `Seeding.WritesTargetCharacters` | src/dcc.ts:69-73 | every write targets a character actor of the collection whose flags differ from the merged record, and writes that whole merged record, which has all default fields |
| `Seeding.WritesPrefix` | src/dcc.ts:68-76 | the writes issued before an abort are a prefix of the writes a full pass issues |
| `Seeding.SeededIsStable` | src/dcc.ts:70-74 | an actor the pass has handled needs no further write |
| `Seeding.SeedPrefix` | src/dcc.ts:68-74 | the collection after the first k actors are handled: ids and types kept, the handled actors need no further write, the others are unchanged |
| `Seeding.WritesComplete` | src/dcc.ts:69-73 | every character that needs a write has its write, carrying the whole merged record, in the writes of the pass |
| `Seeding.WritesSplit` | src/dcc.ts:68-74 | the writes of a pass are those of the first k actors followed by those of the rest, in iteration order |
| `Seeding.RetryAfterAbort` | src/dcc.ts:66-76 | after a pass stops at k, a rerun issues no write for the actors before k: its writes are exactly those of the actors from k on |
| `Seeding.SecondPassNoWrites` | src/dcc.ts:70-74 | a second pass over a fully seeded collection issues no write, cannot be rejected, and changes no actor |
| `Seeding.NonCharactersUntouched` | src/dcc.ts:69 | an actor whose type is not "character" is never changed by the pass |
| `Seeding.EmptyCollection` | src/dcc.ts:68-76 | an empty collection gives no writes and the pass completes, so the flag is set |
| `Sheet.GetData` | src/dcc.ts:122-133 | the context gains the complete effective record as both `flags.dcc` and `dcc`; other flag scopes and context entries are kept, and a missing `flags` object is created |
| `Sheet.IsDccKey` | src/dcc.ts:139 | a key is saved if and only if its first ten characters are `flags.dcc.` |
| `Sheet.Coerce` | src/dcc.ts:140 | a submitted value always becomes a number (or NaN); an empty string becomes 0; a number stays as it is |
| `Sheet.FormUpdates` | src/dcc.ts:137-142 | the updates hold exactly the form's keys that start with "flags.dcc.", each with its coerced value, and only numbers |
| `Sheet.CollectDccUpdates` | src/dcc.ts:137-142 | the loop over the form entries builds exactly `FormUpdates(form)` |
| `Sheet.CharacterSheetDcc.UpdateObject` | src/dcc.ts:136-147 | `actor.update` is called only when some DCC field exists, and then with exactly those fields; the parent handler receives the whole unfiltered form unless the update was rejected |
| `Sheet.OnlyDccFieldsSaved` | src/dcc.ts:139-143 | no update is built if and only if the form has no `flags.dcc.*` key; an empty-string DCC field is saved as 0 |
| `Sheet.CoerceIsNumber` | src/dcc.ts:140 | the explicit empty-string branch agrees with `Number`, which also maps "" to 0 |
| `Values.ToNumber` | src/dcc.ts:140 | `Number(v)` always yields a number or NaN: numbers stay, booleans become 1/0, null becomes 0 |
| `Values.StringToNumber` | src/dcc.ts:140 | a string yields a number or NaN; the empty string yields 0 |
| `Values.NumberOfDecimal` | src/dcc.ts:140 | `Number` reads back the decimal rendering of any integer as that integer |

## Left out

- Sheet rendering (`defaultOptions`, `_renderInner`, lines 90-119): DOM queries, element creation and template rendering by the host.
- Hook and settings registration, the `libWrapper.register` call and `Actors.registerSheet` (lines 23-43, 51-62, 80-84): these only register code with the host. Only the merge the wrapper computes is modelled (`Resolver.RollData`).
- Console logging.
- A rejected seeding write also ends the `ready` hook before `Actors.registerSheet` (lines 73, 80-84), so the sheet is then not registered for the session. The model does not represent sheet registration.
- `Sheet.GetData` takes the context that `super.getData(options)` (line 123) returns as a plain object. The source does not await that call; if the host's `getData` returned a promise, the additions would land on the promise. This case is not modelled.
- `Values.NumberOfDecimal`: `Value.Num` holds an unbounded integer, while JavaScript numbers are doubles. Beyond 2^53 `Number` rounds (`Number("9007199254740993")` is 9007199254740992), so the round trip holds in JavaScript only for integers a double represents exactly. `Decimal` also differs from `String` from 10^21 on, where `String` switches to exponent form ("1e+21").
- A rejected `game.settings.set` for the migration flag (line 76) is not modelled. In the model, a pass that reaches the end always sets the flag.
- `Seeding.World.Ready`: "no actor is read when the flag is already set" is stated only as "nothing changes". The model has no notion of a read.
- `Values.ToNumber`: `Number` is modelled on integers only. Fractions, exponents, hexadecimal, binary and octal literals ("0x1f", "0b101", "0o17"), `Infinity` and surrounding whitespace give NaN in the model, while JavaScript gives a number; a string of whitespace only gives 0 in JavaScript and NaN in the model.
- The host's `isObjectEqual` treats a NaN field as unequal to itself. The model uses structural equality, so an actor whose flags hold NaN would be rewritten by the host on every pass but not in the model.
- `mergeObject` expands dotted keys and recurses into nested objects. DCC records are flat, so the model merges one level only.
- `Boolean(game.settings.get(...))` is modelled as a stored boolean. `game.actors ?? []` is modelled as a sequence that may be empty.
- Two processes seeding at the same time on first boot are not modelled. Each `await` is treated as a sequential step.
- `dist/dcc.js` is the compiled form of `src/dcc.ts`, and `build.mjs` only packages the module. Neither is part of this model.
