# Verified model of the yamy key engine

yamy remaps keyboards. A key event passes a scan code mapping, a hold-or-tap detector and a table
of compiled rules; a generator turns key assignments into injected key events; a kernel driver of
the older platform queues raw keys for the engine. This project models those parts in Dafny and
proves what they promise, over all inputs, all runs and all interleavings.

| file | part of the system |
|---|---|
| `Words`, `Modifiers`, `ModifierStates`, `Keyboards` | machine words, the three-valued `Modifier`, the modifier bitset, keys, hashed keyboard, key iterator |
| `RuleCompiler`, `LookupTable`, `RulePriority`, `LegacySearch` | the rule compiler, the first-match table, what it answers from the input lists, the linear search it replaced |
| `HoldTap`, `EventProcessor` | the handler's key states; one event through the three layers |
| `TimedRuns`, `RunInvariant`, `Episodes`, `ExactHypotheses`, `Rebuild` | whole timed runs against a declarative meaning of "held"; what survives a rebuild of the processor |
| `HeldConditions`, `Results` | where holding and compiled rules meet, and every field of a result, in plain numbers |
| `Generator`, `GeneratorTheorems`, `ActionTheorems` | injected events, modifier synthesis, nested key sequences |
| `InputQueue`, `SyncHandshake` | the two locking protocols, one statement per step |
| `KeyQue`, `DetourDevice`, `DetourTheorems` | the driver's ring buffer and its waiting reads |
| `VirtualKeymap`, `Metrics`, `Percentiles` | the specificity-sorted keymap; latency ring and percentiles |

## How the code is represented

- Code that updates objects is a class whose methods are proved against functions of the old state
  (`HoldTap.ModifierKeyHandler`, `EventProcessing.EventProcessor`, `Generator.Engine`,
  `KeyQueue.KeyQue`, `Detour.DetourDevice` and others). The theorems about runs are lemmas on those functions.
- A 64-bit modifier word or a bitset is the set of the indices that are set. Popcount works on the
  numbers of 32-bit words, because there the 8-bit result wraps around.
- Times are natural numbers of nanoseconds; one `now` per processed event, never decreasing in a run.
- The keycode tables are arbitrary functions (`EventProcessing.CodeMaps`); where it matters they map 0 to 0.
- Between two events the standard and lock bits of the modifier state may change at will; the
  theorems hold for every such change.
- Concurrent code is a transition system in which every statement between locks is a step of its
  own thread, and a run is any sequence of steps.
- `RuleCompiler.CompileCondition` is the text that the two compile functions have in common.

## What the proofs found

- The documented 5 second maximum of a hold is passed only at 6 seconds, because the elapsed time
  is truncated to whole seconds. Hold detection is right in every run exactly for a threshold of at
  most 6000 ms, triggers that do not share a modifier, and no modifier left on by an earlier
  processor (`ExactHypotheses.ExpectedIff`).
- Rebuilding the table replaces the key states but not the modifier state. A modifier that is on at
  that moment stays on, even when its trigger is released, until a trigger of it goes through
  another full hold (`Rebuild.OnAcrossRebuild`, `Rebuild.ReleaseAfterRebuild`); which inherited
  bits are still read is `RunInvariant.SeenIsExpected`.
- `generateModifierEvents` taps Shift so that Alt and Windows are not tapped alone. The tap can
  release a Shift that was requested (`GeneratorTheorems.NudgeCanReleaseShift`);
  `GeneratorTheorems.ReachedIffNoHarm` says exactly when.
- The fast table and the linear search read a rule alike exactly when the rule cares only about
  compiled types, needs no virtual modifier and has no type both pressed and don't-care
  (`LegacySearch.FaithfulIffAgrees`); `toModifier` reports neither Up nor the locks
  (`LegacySearch.ToModifierAbstracts`).
- Stored specificity has 8 bits: an entry outranks every entry whose requirements it strictly
  contains exactly when it requires at most 255 bits (`VirtualKeymap.OutranksItsPartsIff`).
- `compileKeyAssignment` compiles every assignment whose first action is a key, although its
  comment speaks of single keys only; the model follows the code.

## Model

| member | source | states |
|---|---|---|
| Modifiers.DoesMatchPerType | src/core/input/keyboard.h:257-259 | The comparison of two masked words is a per-type test: every type that is cared for agrees. |
| Modifiers.Added | src/core/input/keyboard.cpp:101-113 | Per type: a don't-care type takes over what the other modifier cares about; everything else stays. |
| Modifiers.Add | src/core/input/keyboard.cpp:101-113 | The loop over the types computes that combination. |
| ModifierStates.ModifierState.ActivateModifier | src/core/input/modifier_state.cpp:84-86 | Exactly bit 16 + n is added for virtual modifier n. |
| ModifierStates.ModifierState.DeactivateModifier | src/core/input/modifier_state.cpp:88-90 | Exactly bit 16 + n is removed for virtual modifier n. |
| ModifierStates.ModifierState.ToModifier | src/core/input/modifier_state.cpp:120-130 | The types reported as pressed are those with a left, right or own bit in the state; no Up, no locks. |
| Keyboards.Key.IsSameScanCode | src/core/input/keyboard.cpp:52-67 | True iff both keys have equally many scan codes and all agree in code, in the E0 and in the E1 prefix. |
| Keyboards.Keyboard.AddKey | src/core/input/keyboard.cpp:277-280 | The key becomes the newest of all keys, and each bucket stays the list of its keys, newest first. |
| Keyboards.Keyboard.SearchKey | src/core/input/keyboard.cpp:316-323 | Looking into one bucket finds what a linear search of all keys, newest first, finds; null iff that finds nothing. |
| Keyboards.BucketSearch | src/core/input/keyboard.cpp:269-273 | Same scan codes hash alike, so restricting the search to a bucket loses and reorders nothing. |
| Keyboards.KeyIterator.constructor | src/core/input/keyboard.cpp:222-238 | The iterator starts in front of all keys of all buckets, however many leading buckets are empty. |
| Keyboards.KeyIterator.Next | src/core/input/keyboard.cpp:241-254 | Exactly one key is passed, over any number of empty buckets. |
| Keyboards.KeyIterator.Current | src/core/input/keyboard.cpp:257-262 | The next key to visit, null iff all were visited. |
| Keyboards.BucketsHoldAllKeys | src/core/input/keyboard.cpp:277-280 | The buckets together hold every added key, each as often as it was added. |
| Keyboards.IteratorVisitsAll | src/core/input/keyboard.h:426-445 | Whatever was added, what the iterator walks over is exactly the added keys, each once. |
| RuleCompiler.PicksCoverChoices | src/core/engine/engine.cpp:219-235 | A state has a left or right key of every generic modifier iff one of the 2^k numbered choices is contained in it. |
| RuleCompiler.CompileGeneric | src/core/engine/engine.cpp:151-178 | One generic modifier: the partly compiled rule gains exactly its three-valued condition (any side, neither side, no matter). |
| RuleCompiler.CompileSpecific | src/core/engine/engine.cpp:181-200 | One type with a bit of its own: the rule gains exactly its three-valued condition. |
| RuleCompiler.CompileMasks | src/core/engine/engine.cpp:148-217 | Base rule and pending generic modifiers together mean the source condition, on every state. |
| RuleCompiler.Expand | src/core/engine/engine.cpp:219-235 | The loops over bits of i produce 2^k rules, the i-th with the i-th choice of sides. |
| RuleCompiler.ExpansionMeaning | src/core/engine/engine.cpp:219-235 | Some expansion matches a state iff the partly compiled condition holds in it. |
| RuleCompiler.CompileSubstitute | src/core/engine/engine.cpp:133-238 | For every full state, some compiled rule matches iff the source condition holds; all rules have as output the first scan code of the target key, 0 when it has no key or no scan code; there are 2^k of them. |
| RuleCompiler.CompileCondition | src/core/engine/engine.cpp:147-235 | The same meaning preservation for the code that both compile functions share. |
| RuleCompiler.CompileKeyAssignment | src/core/engine/engine.cpp:240-372 | No rules without a leading key action; otherwise the rules mean the assignment's condition, with the first scan code of that action's key as output, or 0. |
| RuleCompiler.MatchesBits | src/core/engine/compiled_rule.h:21-30 | The two mask comparisons are: every required bit is set, no forbidden bit is. |
| LookupTable.RuleLookupTable.AddRule | src/core/engine/lookup_table.h:12-14 | The rule goes behind the rules of its scan code; other scan codes keep theirs. |
| LookupTable.RuleLookupTable.Clear | src/core/engine/lookup_table.h:17 | No scan code has a rule. |
| LookupTable.RuleLookupTable.FindMatch | src/core/engine/lookup_table.h:20-53 | The first matching rule of the scan code, none iff none matches. |
| LookupTable.FirstMatchSome | src/core/engine/lookup_table.h:20-53 | First match finds a rule of the list, and finds one iff some rule matches. |
| LookupTable.FirstMatchAppend | src/core/engine/lookup_table.h:20-53 | Rules added later are consulted only where no earlier rule matches. |
| LookupTable.FirstHoldingAppend | src/core/engine/engine_setting.cpp:232-265 | The same priority for source rules: a later one counts only where no earlier one holds. |
| LookupTable.AddRules | src/core/engine/engine_setting.cpp:243-245 | The loop over the compiled rules puts them, in order, behind the rules of one scan code; other scan codes keep theirs. |
| LookupTable.AddSource | src/core/engine/engine_setting.cpp:236-264 | A table refining a rule list refines the longer list after the compiled form of one more rule was appended. |
| LookupTable.AddSubstitute | src/core/engine/engine_setting.cpp:236-247 | One round of the substitute loop keeps the refinement; without a from-key or scan code nothing is added. |
| LookupTable.AddAssignment | src/core/engine/engine_setting.cpp:250-264 | One round of the assignment loop keeps the refinement; an assignment that cannot be compiled adds nothing. |
| LookupTable.BuildSubstitutionTable | src/core/engine/engine_setting.cpp:218-265 | For every scan code and state the new table answers with the first holding source rule, substitutes before assignments, and with none iff none holds; during generation the old table stays. |
| RulePriority.TableAnswers | src/core/engine/engine_setting.cpp:232-265 | From the two input lists alone: the rule found is that of the first substitute that applies, else of the first assignment that starts with a key and applies, with the first scan code of its target (0 without one); none iff nothing applies. |
| RulePriority.RulesAnswer | src/core/engine/engine_setting.cpp:232-265 | The same for the priority list that the table refines. |
| RulePriority.FirstSubstituteGives | src/core/engine/engine_setting.cpp:236-247 | The first substitute that applies decides the output. |
| RulePriority.NoSubstituteNone | src/core/engine/engine_setting.cpp:236-247 | The substitutes give nothing iff none of them applies. |
| RulePriority.FirstAssignmentGives | src/core/engine/engine_setting.cpp:250-264 | The first assignment that starts with a key and applies decides the output of the assignments. |
| RulePriority.NoAssignmentNone | src/core/engine/engine_setting.cpp:250-264 | The assignments give nothing iff none of them starts with a key and applies. |
| LegacySearch.ConditionPerType | src/core/engine/engine.cpp:147-217 | The compiled condition is a per-type condition over all compiled types, plus the virtual modifiers. |
| LegacySearch.FaithfulAgrees | src/core/input/keyboard.h:257-259 | For a faithful rule the compiled and the legacy reading agree on every state and every abstraction of it. |
| LegacySearch.UnfaithfulDiffers | src/core/input/keyboard.h:257-259 | For every other rule there is a state on which the two readings differ. |
| LegacySearch.FaithfulIffAgrees | src/core/input/keyboard.h:257-272 | The two readings of a condition agree everywhere iff the condition is faithful. |
| LegacySearch.SearchSubstitute | src/core/input/keyboard.cpp:360-368 | The target of the substitute with the least index whose key is this one and whose modifier matches; no key iff there is none. |
| LegacySearch.FirstLegacyStays | src/core/input/keyboard.cpp:360-368 | Later substitutes do not change an answer that an earlier one gave. |
| LegacySearch.FirstLegacyAt | src/core/input/keyboard.cpp:360-368 | The linear search gives the target of the first match by index. |
| LegacySearch.FastIsLegacy | src/core/input/keyboard.cpp:360-368 | If the substitutes for the key's first scan code are faithful, have real targets and are for this very key, the first holding source rule is the linear search's answer, on every state; substitutes for other keys may be anything. |
| LegacySearch.TableIsLegacy | src/core/engine/lookup_table.h:20-53 | The rule found in the built table has the first scan code of the target that the linear search returns, and there is none iff the search finds none. |
| LegacySearch.ToModifierAbstracts | src/core/input/modifier_state.cpp:120-130 | `toModifier` carries all that the compiled types say iff neither Up nor one of the ten lock bits is set. |
| HoldTap.ModifierKeyHandler.RegisterNumberModifier | src/core/engine/modifier_key_handler.cpp:27-31 | The key is a number modifier for this hardware modifier, with a fresh idle key state; other keys stay. |
| HoldTap.ModifierKeyHandler.RegisterVirtualModifierTrigger | src/core/engine/modifier_key_handler.cpp:69-78 | The key is an idle virtual trigger with this number and tap output, and keeps the target modifier and press time it had; other keys stay. |
| HoldTap.ModifierKeyHandler.CheckAndActivateWaitingModifiers | src/core/engine/modifier_key_handler.cpp:302-341 | Exactly the waiting keys over the threshold become active, in whatever order the map is walked; returned are exactly the virtual ones with their numbers. |
| HoldTap.ModifierKeyHandler.ProcessNumberKey | src/core/engine/modifier_key_handler.cpp:86-258 | One key changes as the state diagram says, with the result of each branch; all others stay; unknown keys are ignored. |
| HoldTap.VKCodesDiffer | src/core/engine/modifier_key_handler.cpp:343-358 | No two hardware modifiers have the same key code. |
| EventProcessing.EventProcessor.ActivateHeld | src/core/engine/engine_event_processor.cpp:42-50 | The lazy check: handler states and modifier bits after it, as one function of those before. |
| EventProcessing.EventProcessor.Layer2ApplySubstitution | src/core/engine/engine_event_processor.cpp:149-244 | Handler state, modifier bits, code and tap flag after layer 2, for every handler result. |
| EventProcessing.EventProcessor.Lookup | src/core/engine/engine_event_processor.cpp:226-244 | The output of the first matching rule for the current bits, else the code itself. |
| EventProcessing.EventProcessor.ProcessEvent | src/core/engine/engine_event_processor.cpp:37-130 | The whole event is one step of the machine that the run theorems are about; without a modifier state it is plain code mapping. |
| HeldConditions.ThresholdInNanoseconds | src/core/engine/modifier_key_handler.cpp:360-375 | The threshold is passed at exactly that many milliseconds of nanosecond time. |
| HeldConditions.MaximumInNanoseconds | src/core/engine/modifier_key_handler.cpp:360-375 | The maximum is passed at exactly six seconds. |
| TimedRuns.HeldFromUnique | src/core/engine/modifier_key_handler.cpp:117-155 | A held key has one first press since its last release. |
| TimedRuns.UnreleasedPressIsHeld | src/core/engine/modifier_key_handler.cpp:117-155 | A press without a later release means held, however many auto-repeat presses came before. |
| TimedRuns.HeldStep | src/core/engine/modifier_key_handler.cpp:86-258 | How one more event changes which keys are held and since when. |
| TimedRuns.ClearedStep | src/core/engine/engine_event_processor.cpp:196-206 | How one more event changes which inherited modifiers have been cleared by a full hold. |
| RunInvariant.CheckKeys | src/core/engine/engine_event_processor.cpp:42-50 | After the lazy check a key is active iff the history says it is held for the threshold. |
| RunInvariant.CheckBits | src/core/engine/engine_event_processor.cpp:42-50 | The check keeps the coupling: a virtual bit is set iff it is inherited and not yet cleared, or a trigger of it is active. |
| RunInvariant.CheckedBitsExpected | src/core/engine/engine_event_processor.cpp:42-50 | After the check the virtual bits are those of the keys held long enough and the inherited ones not yet cleared. |
| RunInvariant.StepKeys | src/core/engine/modifier_key_handler.cpp:86-258 | One event keeps every key's state in agreement with the history. |
| RunInvariant.StepBits | src/core/engine/engine_event_processor.cpp:172-206 | One event keeps the coupling of bits and active triggers. |
| RunInvariant.StepResult | src/core/engine/engine_event_processor.cpp:37-130 | One event gives the result that its history determines. |
| RunInvariant.RunKeepsInv | src/core/engine/engine_event_processor.cpp:37-130 | Agreement and coupling hold after every timed run of a new processor, whatever modifier bits it inherits. |
| RunInvariant.RunRefines | src/core/engine/engine_event_processor.cpp:37-130 | End to end: for any user rules and any timed run, each event's result is the one a specification without state computes from the event history and the rules in priority order; it is the expected one unless inherited modifiers are still on. |
| RunInvariant.SeenIsExpected | src/core/engine/engine_event_processor.cpp:42-50 | The modifier bits that lookup reads at time t are exactly those of triggers with an unreleased press whose first PRESS is at least the threshold before t, the untouched standard and lock bits, and those inherited bits of which no trigger has ended a full hold. |
| RunInvariant.SeenForTrigger | src/core/engine/engine_event_processor.cpp:42-50 | The same for one trigger: its bit is read iff it is held for the threshold or left over. |
| RunInvariant.LeftoverStep | src/core/engine/engine_event_processor.cpp:196-206 | An inherited bit goes exactly with the release that ends a full hold of a trigger of it. |
| RunInvariant.LeftoverStays | src/core/engine/engine_event_processor.cpp:149-244 | An event about no registered key leaves every inherited bit. |
| HeldConditions.SeenNumber | src/core/engine/engine_event_processor.cpp:42-50 | In numbers: lookup reads bit 16 + v in a run iff some trigger numbered v has an unreleased first press at least the threshold ago, or the bit was inherited and no full hold of a trigger numbered v has ended. |
| HeldConditions.SeenOthers | src/core/engine/engine_event_processor.cpp:42-50 | Bits below 16 and from 272 on are read as they are at the event. |
| HeldConditions.ConditionInRun | src/core/engine/engine.cpp:147-217 | A user condition holds in a run iff its standard and lock parts hold of the event and every virtual modifier it requires is held or inherited in that sense: what holding sets is what compiled rules require. |
| HeldConditions.VirtualConditionInRun | src/core/engine/engine.cpp:203-207 | A condition on modifier v alone holds iff v is held or inherited. |
| Results.EmittedFields | src/core/engine/engine_event_processor.cpp:246-279 | Every field of the result for a key code: its evdev code, the code, validity and tap flag, or nothing for virtual, modal and lock codes and codes without an evdev code. |
| Results.UnknownKeyResult | src/core/engine/engine_event_processor.cpp:37-130 | A key that the scan code mapping does not know gives nothing. |
| Results.SwallowedResult | src/core/engine/modifier_key_handler.cpp:100-254 | In every run presses of a registered key, and its release after a full hold, give nothing. |
| Results.KeyResult | src/core/engine/engine_event_processor.cpp:37-130 | In every run a key event in which the handler takes no part (key not registered, auto-repeat, stray release, tap of a hardware number modifier) comes out, field by field, as the target of the first rule that applies under the modifiers read, or as itself. |
| Results.HeldRuleFires | src/core/engine/engine_event_processor.cpp:226-244 | A rule that requires modifier v replaces its key iff v is held or inherited. |
| Results.TapResult | src/core/engine/modifier_key_handler.cpp:180-247 | The release that ends an episode gives the fields of the tap key iff it came before the threshold and there is a tap key, else nothing. |
| RunInvariant.UnreachableBranches | src/core/engine/modifier_key_handler.cpp:117-155 | In no run is a key in TAP_DETECTED, or still waiting past the maximum after the check. |
| RunInvariant.WaitingIsBelowMaximum | src/core/engine/modifier_key_handler.cpp:360-375 | With a threshold up to 6000 ms a key still under the threshold is under the maximum. |
| RunInvariant.SwitchingOffKeepsCoupling | src/core/engine/engine_event_processor.cpp:196-206 | Releasing an active trigger clears its bit and nobody else's. |
| RunInvariant.TriggerResult | src/core/engine/engine_event_processor.cpp:172-224 | What layer 2 emits for a trigger is decided by the history: swallowed, tap, or looked up. |
| Episodes.EpisodeSeen | src/core/engine/engine_event_processor.cpp:42-50 | At each event between press and release the modifier is on iff the threshold has passed, or it was inherited and is not cleared yet. |
| Episodes.EpisodeRelease | src/core/engine/modifier_key_handler.cpp:180-247 | The release gives the tap output iff the threshold was not reached and there is one, else nothing. |
| Episodes.EpisodePress | src/core/engine/modifier_key_handler.cpp:102-169 | No press of a trigger, first or repeated, ever gives an output. |
| Episodes.EpisodeRepeat | src/core/engine/modifier_key_handler.cpp:256-257 | A REPEAT event of a trigger, which the handler does not take, is looked up under the current modifiers like any other key. |
| Episodes.EpisodeActivation | src/core/engine/modifier_key_handler.cpp:302-341 | For a modifier that is not left over: it was on at some event of the episode iff the episode lasted for the threshold. |
| Episodes.EpisodeOutput | src/core/engine/modifier_key_handler.cpp:100-252 | Each press-to-release episode is a tap, emitted once at its end, or an activation whose presses and release give no output, never both. A REPEAT event of the trigger in between is looked up and emitted; the engine's own call (engine_generator.cpp:369-374) passes only PRESS and RELEASE. |
| ExactHypotheses.SharedNumberFails | src/core/engine/engine_event_processor.cpp:196-206 | With two triggers of one modifier there is a run in which releasing one switches it off under the other. |
| ExactHypotheses.LongThresholdFails | src/core/engine/modifier_key_handler.cpp:119-124 | With a threshold over 6000 ms there is a run in which a repeated press forgets the hold. |
| ExactHypotheses.MissingBitFails | src/core/engine/engine_event_processor.cpp:42-50 | A held trigger whose bit lookup does not see refutes the expected behaviour. |
| ExactHypotheses.LeftoverFails | src/core/engine/engine_setting.cpp:227 | A virtual modifier left on by the replaced processor is read at the very first event, though nothing is held. |
| ExactHypotheses.ExpectedIff | src/core/engine/modifier_key_handler.cpp:360-375 | Lookup reads the expected modifiers in every run iff no two triggers share a modifier, the threshold is at most 6000 ms, and no virtual modifier was left on. |
| Rebuild.RunBitStays | src/core/engine/engine_event_processor.cpp:149-244 | A modifier that lookup reads as on at an event is still set after it, unless the event releases its trigger. |
| Rebuild.OnAcrossRebuild | src/core/engine/engine_setting.cpp:218-309 | A modifier that is on when the processor is replaced is read as on by the new one until a trigger of it went through a full hold. |
| Rebuild.ReleaseAfterRebuild | src/core/engine/engine_setting.cpp:218-309 | Releasing the held trigger after the replacement does not switch its modifier off. |
| Generator.Engine.constructor | src/core/engine/engine_lifecycle.cpp:60-66 | An engine without pressed keys starts with its belief true. |
| Generator.Engine.GenerateKeyEvent | src/core/engine/engine_generator.cpp:18-58 | Flags, counter, last key and injected records after one key event; event pseudo-keys do nothing; a release of a released key injects nothing, except for the sync key. |
| Generator.Engine.GenerateRealKey | src/core/engine/engine_generator.cpp:27-58 | The same for a real key, over the counter and the two flags step by step. |
| Generator.Engine.PressModifier | src/core/engine/engine_generator.cpp:103-123 | Nothing if a key of the modifier is down; else the keys pressed by assignment, or the first key. |
| Generator.Engine.NudgeIfLast | src/core/engine/engine_generator.cpp:128-143 | Shift (or Control) is tapped iff the last generated key is one of these keys, and only once. |
| Generator.Engine.ReleaseModifier | src/core/engine/engine_generator.cpp:145-148 | The pressed keys of the modifier are released, in list order. |
| Generator.Engine.GenerateModifierEvents | src/core/engine/engine_generator.cpp:89-150 | The effect over all four basic types, as the function that the theorems are about; the belief is kept. |
| Generator.Engine.GenerateActionEvents | src/core/engine/engine_generator.cpp:160-233 | The effect of one action on press or release, with the modifier of the current key added, as the function that the theorems on actions are about; the belief is kept. |
| Generator.Engine.GenerateKeySeqEvents | src/core/engine/engine_generator.cpp:237-255 | The effect of the down, up or whole part of a nested sequence; the belief is kept. |
| Generator.Engine.KeyboardResetOnWin32 | src/core/engine/engine_input.cpp:46-53 | Afterwards no key but possibly the sync key is pressed; if the sync key was up, the set is empty, the counter 0, and the released keys no longer count as pressed by assignment. |
| Generator.KeyEventKeepsBelief | src/core/engine/engine_generator.cpp:18-58 | A key event keeps: pressed flags = replay of all strokes, counter = their number, last key = last stroke. |
| Generator.ReleasePressedEffect | src/core/engine/engine_input.cpp:46-53 | A release loop over a list removes exactly the list's keys from the pressed ones. |
| GeneratorTheorems.RecordsReplayKeys | src/core/engine/engine_generator.cpp:18-58 | Replaying make and break records leaves down exactly the scan codes of the keys that the strokes leave down. |
| GeneratorTheorems.BeliefIsReplay | src/core/engine/engine_generator.cpp:18-58 | After any generator calls, replaying everything injected gives exactly the scan codes of the keys flagged as pressed, and the press counter is the size of that set. |
| GeneratorTheorems.ReplayStroke | src/core/engine/engine_generator.cpp:45-57 | The records of one stroke put down, or lift, exactly the codes of its key. |
| GeneratorTheorems.NoNudgeSteps | src/core/engine/engine_generator.cpp:96-150 | Without a tap in between, the types handled so far are as requested and the later ones untouched. |
| GeneratorTheorems.FirstNudgeFires | src/core/engine/engine_generator.cpp:128-143 | The first tap comes exactly where the state before the call says so. |
| GeneratorTheorems.ReachedIffNoHarm | src/core/engine/engine_generator.cpp:89-150 | Every cared-for basic modifier ends up with a key down iff requested, and don't-care ones stay, iff the tap does not hit a pressed key that must stay. |
| GeneratorTheorems.ShiftThenAltReached | src/core/engine/engine_generator.cpp:89-150 | From a released keyboard, asking for Shift and Alt leads to the state in which both are down and Alt came last. |
| GeneratorTheorems.NudgeCanReleaseShift | src/core/engine/engine_generator.cpp:128-143 | Synthesising Shift and Alt from a released keyboard and then asking for plain Shift leaves Shift released. |
| GeneratorTheorems.ModifierEventsTidy | src/core/engine/engine_generator.cpp:128-148 | With a Shift or Control key to tap, the trace never has an Alt or Windows make followed at once by its break, counting the key generated before. |
| GeneratorTheorems.NoLoneTapAt | src/core/engine/engine_generator.cpp:128-148 | By places in the trace: between a make of an Alt or Windows key and a later break of it there is another stroke. |
| GeneratorTheorems.ReleaseIgnoresContext | src/core/engine/engine_generator.cpp:160-194 | Releasing an action, however nested, does not depend on the current key's modifier. |
| GeneratorTheorems.DownThenUpIsAll | src/core/engine/engine_generator.cpp:237-255 | Part_down on the press and Part_up on the release give the trace and the state of Part_all. |
| GeneratorTheorems.ModifierEventsKeep | src/core/engine/engine_generator.cpp:89-150 | Modifier synthesis presses no non-modifier key. |
| GeneratorTheorems.PressKeeps | src/core/engine/engine_generator.cpp:160-255 | Pressing a plain action leaves down, of the non-modifier keys it names, only the last one. |
| GeneratorTheorems.ReleaseKeeps | src/core/engine/engine_generator.cpp:160-255 | Releasing it lifts that one too. |
| GeneratorTheorems.NothingStaysDown | src/core/engine/engine_generator.cpp:237-255 | After Part_all of a plain nested sequence no non-modifier key that it names is down. |
| ActionTheorems.KeyActionPress | src/core/engine/engine_generator.cpp:176-187 | Pressing a key action makes its key as the last stroke, pressed and pressed by assignment; at that stroke each basic modifier is as the action, or else the current key, wants it and untouched if neither cares, unless the tap harms it. |
| ActionTheorems.KeyActionRelease | src/core/engine/engine_generator.cpp:172-187 | Releasing it breaks the key iff it is down, clears both flags, and does nothing else. |
| ActionTheorems.OtherDirection | src/core/engine/engine_generator.cpp:172-187 | An action for one direction does nothing in the other. |
| ActionTheorems.EventKeyDoesNothing | src/core/engine/engine_generator.cpp:18-29 | An event pseudo-key changes nothing. |
| ActionTheorems.ReleaseOfReleased | src/core/engine/engine_generator.cpp:32-57 | Breaking a key that is up injects nothing, except for the sync key. |
| ActionTheorems.RequestedModifier | src/core/engine/engine_generator.cpp:103-123 | For a requested modifier with no key down exactly its keys pressed by assignment are made, or its first key if there are none. |
| ActionTheorems.AssignedInOrder | src/core/engine/engine_generator.cpp:103-123 | Keys pressed by assignment are made again in list order. |
| ActionTheorems.ReleasedInOrder | src/core/engine/engine_generator.cpp:145-148 | The pressed keys of a list are broken in list order, once each. |
| ActionTheorems.ModifierEventsTyped | src/core/engine/engine_generator.cpp:89-150 | Modifier synthesis only adds strokes of modifier keys to the trace. |
| ActionTheorems.TypedPress | src/core/engine/engine_generator.cpp:160-255 | Pressing an action shows the pairs of all it names except the break of the one left down, which is down. |
| ActionTheorems.TypedRelease | src/core/engine/engine_generator.cpp:160-255 | Releasing it shows that break. |
| ActionTheorems.SequenceTypes | src/core/engine/engine_generator.cpp:237-255 | Part_all of a nested sequence shows, apart from modifier strokes, the make and break of every key and the start and end of every function it names, once each, in list order, each end right after its start. |
| InputQueue.ProducerStepKeepsInv | src/core/engine/engine_lifecycle.cpp:365-375 | Every statement of a push keeps the queue invariant. |
| InputQueue.HandlerStepKeepsInv | src/core/engine/engine_keyboard_handler.cpp:236-266 | Every statement of the dequeue loop keeps it, spurious and failing waits included. |
| InputQueue.StopperStepKeepsInv | src/core/engine/engine_lifecycle.cpp:283-287 | Every statement of the queue part of stop keeps it. |
| InputQueue.RunKeepsInv | src/core/engine/engine_keyboard_handler.cpp:236-266 | The invariant holds in every interleaving of producers, handler and stop. |
| InputQueue.NoLostWakeup | src/core/engine/engine_keyboard_handler.cpp:236-266 | With the mutex free, the event is signalled iff the queue is nonempty or deleted; events are handled once each, in push order. |
| InputQueue.ArrivalIsPushed | src/core/engine/engine_lifecycle.cpp:365-375 | An arriving event is appended, as itself, to a live queue and to what was pushed; a deleted queue takes nothing. |
| InputQueue.EventIsKept | src/core/engine/engine_lifecycle.cpp:365-375 | Whatever runs in between, a producer keeps its event until it pushes that very event. |
| InputQueue.OnlyPushPushes | src/core/engine/engine_lifecycle.cpp:365-375 | No other statement adds to what was pushed. |
| InputQueue.SleepingHandlerMissedNothing | src/core/engine/engine_keyboard_handler.cpp:247-256 | A handler that cannot wake up has handled everything pushed. |
| InputQueue.HandlerGetsOn | src/core/engine/engine_keyboard_handler.cpp:236-266 | From every reachable state with the mutex free and an event left, the handler's own steps finish the next event. |
| SyncHandshake.StepKeepsInv | src/core/commands/cmd_wait.cpp:16-20 | Every statement of handler and writers keeps: locks held by one thread, no writer past its check while synchronizing, guarded data as the handler left it. |
| SyncHandshake.RunKeepsInv | src/core/commands/cmd_sync.cpp:24-34 | The invariant holds in every interleaving. |
| SyncHandshake.RegionIsStable | src/core/engine/engine_keyboard_handler.cpp:289 | Between any two moments of one key event, windows without the lock included, setting and show state are the same, and the lock state unless the handler itself changed it. |
| SyncHandshake.WriterSucceedsOutside | src/core/engine/engine_setting.cpp:32-37 | Outside a key event a writer's value takes the place of the setting, the lock state or the show state, and the other two stay. |
| SyncHandshake.WriterBacksOffInWindow | src/core/engine/engine_window.cpp:92-101 | In the window a writer gets the lock but changes nothing. |
| KeyQueue.RingAppend | driver/keyque.c:81-110 | Writing behind the contents, around the end or not, appends to the ring, for offsets up to and including the length. |
| KeyQueue.RingDrop | driver/keyque.c:114-143 | Advancing the remove offset drops the oldest keys. |
| KeyQueue.KeyQue.Clear | driver/keyque.c:58-63 | The queue and its history are empty. |
| KeyQueue.KeyQue.CopyIn | driver/keyque.c:90-107 | The one- or two-part copy into the buffer appends the keys. |
| KeyQueue.KeyQue.CopyOut | driver/keyque.c:123-140 | The one- or two-part copy out gives the oldest keys and touches nothing else in the caller's buffer. |
| KeyQueue.KeyQue.Enque | driver/keyque.c:81-110 | The longest prefix that fits is appended and its length returned; accepted = dequeued + contents stays true. |
| KeyQueue.KeyQue.Deque | driver/keyque.c:114-143 | The oldest keys are handed out, in order, and their exact number returned; accepted = dequeued + contents stays true. |
| Detour.DeliveredKeeps | driver/mayud.c:620-639 | Serving a read keeps: accepted keys = delivered batches + queue, no empty batch. |
| Detour.StepKeepsInv | driver/mayud.c:581-606 | Each driver step keeps the invariant. |
| Detour.RunKeepsInv | driver/mayud.c:731-757 | In every run of driver steps a waiting read means an empty queue, every completed read got a key, and delivered batches then queue are the accepted keys in order since the last open. |
| DetourTheorems.HardwareKeys | driver/mayud.c:581-606 | In every run: while open and not cleaned up, a successful completion accepts exactly the longest prefix that fits; a waiting read gets the oldest of these keys if there are any; otherwise nothing changes. |
| DetourTheorems.ForcedKeys | driver/mayud.c:910-938 | In every run: whole keys are accepted and forwarded likewise in any state; other lengths change nothing. |
| DetourTheorems.Reading | driver/mayud.c:731-757 | In every run: a read of whole keys gets the oldest keys, as many as it has room for, or waits if there are none; other lengths change nothing. |
| DetourTheorems.Opening | driver/mayud.c:670-709 | In every run: the first open starts with nothing queued, accepted or delivered; a second changes nothing. |
| DetourTheorems.Closing | driver/mayud.c:713-727 | In every run: one open fewer and nothing else. |
| DetourTheorems.Forgetting | driver/mayud.c:818-865 | In every run: cleanup and cancel leave no waiting read and keep all keys; cleanup also stops forwarding. |
| Detour.DetourDevice.Readq | driver/mayud.c:620-639 | Pending iff the queue is empty; else the oldest keys that fit are in the buffer, with their size reported. |
| Detour.DetourDevice.Read | driver/mayud.c:731-757 | Length 0 succeeds at once, a length that is no whole number of keys is refused, an empty queue leaves the read waiting; else its buffer holds the oldest keys that fit, with their size reported. |
| Detour.DetourDevice.ServeWaiting | driver/mayud.c:596-604 | A waiting read is completed as soon as there are keys, holds the oldest that fit, and no longer waits. |
| Detour.DetourDevice.FilterReadCompletion | driver/mayud.c:581-606 | Iff the device is open and not cleaned up, the longest prefix of the hardware keys that fits is accepted, and a waiting read is completed with the oldest of them; otherwise nothing changes. |
| Detour.DetourDevice.ForceKeyboardInput | driver/mayud.c:910-938 | A well-sized buffer enters the queue and serves a waiting read, whose buffer then holds the oldest keys; other sizes are refused unchanged. |
| Detour.DetourDevice.Create | driver/mayud.c:670-709 | The first open counts, lifts the cleanup mark and empties the queue; a second open is refused and changes nothing. |
| Detour.DetourDevice.Close | driver/mayud.c:713-727 | One open fewer; nothing else changes. |
| Detour.DetourDevice.Cleanup | driver/mayud.c:818-865 | Forwarding stops and no read waits; the requests of the device queue are all completed as cancelled with no data. |
| Detour.DetourDevice.ReadCancel | driver/mayud.c:502-537 | The read given is completed as cancelled with no data, and no read waits afterwards, whichever was waiting. |
| VirtualKeymap.PopcountArray | src/core/engine/engine.cpp:25-41 | The number of set bits modulo 256. |
| VirtualKeymap.PopCountIsNumberOfBits | src/core/engine/engine.cpp:25-41 | The population count of a word is the number of its set bits. |
| VirtualKeymap.SpecificityOfWords | src/core/engine/engine.cpp:110-131 | The stored specificity is the sum of the sixteen population counts modulo 256. |
| VirtualKeymap.SumWraps | src/core/engine/engine.cpp:110-131 | Adding two wrapped 8-bit counts gives the wrapped total. |
| VirtualKeymap.Keymap.AddKeymapEntry | src/core/engine/engine.cpp:110-131 | The entry is appended with the total bit count modulo 256 as specificity. |
| VirtualKeymap.Keymap.SortKeymapBySpecificity | src/core/engine/engine.cpp:101-108 | The same entries, in descending order of specificity. |
| VirtualKeymap.Keymap.LookupKeymap | src/core/engine/engine.cpp:43-99 | The first entry with this key whose modifier and lock bits are all set; 0 iff none. |
| VirtualKeymap.Keymap.ModsMatch | src/core/engine/engine.cpp:43-99 | True iff every virtual modifier that the entry requires is set. |
| VirtualKeymap.Keymap.LocksMatch | src/core/engine/engine.cpp:43-99 | True iff every lock that the entry requires is set. |
| VirtualKeymap.FirstMatching | src/core/engine/engine.cpp:43-99 | The index found matches and no earlier entry does. |
| VirtualKeymap.EntryMatches | src/core/engine/engine.cpp:43-99 | An entry matches iff its key is this one and, for every set bit i of every word k of its masks, state bit 16 + 32k + i, or 272 + 32k + i for locks, is set. |
| VirtualKeymap.LookupPicksGreatest | src/core/engine/engine.cpp:43-108 | After sorting, the entry used matches and has the greatest stored specificity of all matching entries. |
| VirtualKeymap.CoversMeansMoreBits | src/core/engine/engine.cpp:25-41 | Requiring a superset of bits means at least the bit count, and the same count only for the same bits. |
| VirtualKeymap.MoreSpecificWins | src/core/engine/engine.cpp:43-131 | An entry is never used in the place of a matching one of at most 255 bits whose requirements strictly contain its own. |
| VirtualKeymap.PartOf255 | src/core/engine/engine.cpp:110-131 | An entry with 256 or more bits strictly contains one of stored specificity 255. |
| VirtualKeymap.OutranksItsPartsIff | src/core/engine/engine.cpp:110-131 | An entry outranks everything it strictly contains iff it requires at most 255 bits. |
| Metrics.LatencyRingBuffer.Record | src/utils/metrics.h:49-52 | One more value is recorded; the buffer holds the last 4096, even when the index wraps. |
| Metrics.LatencyRingBuffer.GetSamples | src/utils/metrics.h:55-65 | The nonzero ones of the last min(n, 4096) values, in time order up to a rotation. |
| Metrics.LatencyRingBuffer.GetCount | src/utils/metrics.h:68-70 | The number of values since the last clear, modulo the word size. |
| Metrics.LatencyRingBuffer.Clear | src/utils/metrics.h:73-78 | Nothing is recorded. |
| Metrics.Rotated | src/utils/metrics.h:55-65 | What is read from the buffer is a rotation of the nonzero last values, for any number of records. |
| Metrics.PercentileMonotone | src/utils/metrics.cpp:52-63 | The interpolated percentile never falls when p grows and stays between the extremes, for all p and samples. |
| Percentiles.PercentileOfSample | src/utils/metrics.cpp:52-63 | The k-th of n sorted samples is the percentile k / (n - 1). |
| Percentiles.PercentileBetween | src/utils/metrics.cpp:52-63 | Between two such places the value runs in a straight line. |
| Percentiles.PercentileAtPercent | src/utils/metrics.cpp:52-63 | Percentile q hundredths is the sample at place q(n - 1) / 100, or the interpolation by the remainder. |
| Percentiles.HalfIsMedian | src/utils/metrics.cpp:65-67 | Fifty hundredths is the median. |
| Percentiles.StatsByPlace | src/utils/metrics.cpp:27-77 | Every number of the statistics by its place in the sorted window; the mean times the number of samples is their sum. |
| Percentiles.KeptSamples | src/utils/metrics.h:55-65 | A zero counts for no sample; other values are kept in order. |
| Percentiles.WindowOf | src/utils/metrics.h:49-52 | The window is the last min(n, 4096) recorded values. |
| Percentiles.SumOneMore | src/utils/metrics.cpp:44-49 | The sum adds up the samples one by one. |
| Metrics.AverageInRange | src/utils/metrics.cpp:44-49 | The average lies between the least and the greatest sample. |
| Metrics.StatsInOrder | src/utils/metrics.cpp:27-77 | min <= p50 <= p95 <= p99 <= max and min <= average <= max; min and max are samples, and bounds of all samples. |
| Percentiles.ComputeStats | src/utils/metrics.cpp:27-77 | The statistics of the buffer are those of the last recorded values, in whatever order the buffer gives them: p50 is the median (the middle sample or the mean of the middle two), p95 and p99 lie 95 and 99 hundredths of the way along the sorted samples. |
| Metrics.SortedUnique | src/utils/metrics.cpp:37-42 | A sorted order is unique, so the rotation of the buffer does not show in the statistics. |

## Left out

- Logging, debug printing, the journey of an event for display, and the map of names and key aliases.
- `searchPrefixKey`, registering 0xF000-range modifiers and resetting the handler: easy members beside those modelled.
- An event processor without a handler or without a table: both are always present here.
- Injection of hardware modifier keys on activation; a hardware number modifier sets no virtual bit, and the hold theorems are about virtual triggers.
- Generator.Engine.GenerateActionEvents: does not model what an executed function does, to keys or otherwise; the trace only records that it ran.
- The recursion guard of `beginGeneratingKeyboardEvents`: its test is an equality and its trip path does not count back, so it does not bound nesting.
- `setSetting` beyond the guarded replacement: key flags are carried over to the new keyboard and counters are not recomputed; every generator theorem is about one setting.
- `switchConfiguration` and its retries.
- The Windows form of the handler loop, the rest of `stop` (joining, timeouts) and fairness of scheduling: `InputQueue.HandlerGetsOn` says that progress is always possible, not that a scheduler makes it.
- Cancel-spinlock races, the filter device's own queue and write path, power and plug-and-play of the driver: cancel and cleanup are single steps.
- Detour.DetourDevice.Read: a second read while one waits replaces the waiting one, as the code does; nothing completes the first request then, unless it is cancelled.
- Detour.DetourDevice.Create: does not model the cancelling of the keyboard class driver's own read through the filter device.
- Metrics.LatencyRingBuffer.Record: does not model concurrent records with relaxed atomics; values are recorded one after the other.
- Percentiles.ComputeStats: does not model rounding of doubles; arithmetic is over the reals.
- VirtualKeymap.Keymap.SortKeymapBySpecificity: does not say how equally specific entries are ordered, because `std::sort` does not either.
- Metrics.Sort and VirtualKeymap.SortDescending are insertion sorts in the place of `std::sort`.
- LookupTable.BuildSubstitutionTable: the assignments of the keymap come as a list; the hashing inside the keymap that decides their order is not modelled.
- Generator.Engine.KeyboardResetOnWin32: says nothing about a pressed sync key, which the code's iterator does not visit.
- GeneratorTheorems.BeliefIsReplay: needs keys that share no scan code; for keys that share one the injected records cannot tell which key is meant.
