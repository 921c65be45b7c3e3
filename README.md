# idlez in Dafny

A model of the core of idlez, an idle game played in a chat guild. Players
gain experience over time, level up, and lose experience to the noise they
make. The core modelled here has six parts:

- **The game engine** (`Game`).
  - `Emitter` is a class holding an event queue, the registered handlers and
    a log of deliveries. `send_events` delivers each queued event to every
    handler and then empties the queue.
  - `IdleZ` is a class whose methods change the player records of the store
    in place: `make_noise`, `new_player`, `all_lose_experience`,
    `gain_experience`, `level_up`, `lose_experience` and `tick`.
  - Every method is proved against functions on the players' standings
    (experience and level): `LoseAll`, `Gain`, `GainAll`, `Noise`, and
    `LevelUps` for the events a gain pass queues.
- **The player record** (`Store`). `Player` is a class whose `experience` and
  `level` change in place. Events hold the player object itself.
- **The event records the engine emits** (`Events`). A `NewPlayerEvent` is a
  bad-player event that is always of type `LOUD_NOISE`.
- **Template evaluation and the content picker** (`Templates`, `Data`).
  - `eval_template` is a method with a loop. It is proved equal to
    `Evaluated`, which finds the `{ident|fmt}` tokens and augments the
    parameters. It then fills the template as `str.format_map` does, for
    `{key}` fields and `{{`/`}}` escapes.
  - `DataPicker` picks elements by slot name, averages their worth and fills
    event and fight messages. Each random choice is a draw that the caller
    supplies.
- **Component events** (`EventComponents`, `ComponentEvents`).
  - The components' `message_fields` and `player_message_fields`.
  - `ComponentEvent` is a class that stores its constructor arguments by
    class, the later of two arguments of the same class winning.
- **Pure helpers of the bot** (`Bot`): `human_secs` (a method) with
  `pluralize`, the nested `exp_loss` of `on_game_event`, and the
  presence-to-idle-state mapping of `get_player_idle_state`.

`Wrappers` (Option and Result) and `Decimal` are support modules. `Decimal`
models Python's `str` of an `int`, with its round trip proved.

## Model

| member | source | states |
|---|---|---|
| Game.Emitter.Emit | idlez/game.py:29-30 | The event is appended at the end of the queue. Handlers and deliveries are unchanged. |
| Game.Emitter.RegisterHandler | idlez/game.py:41-42 | The handler is appended after those already registered. The queue and deliveries are unchanged. |
| Game.Emitter.SendEvents | idlez/game.py:32-39 | The delivery log grows by exactly `Deliveries(old queue, handlers)`. The queue is then empty and the handlers are unchanged. |
| Game.Fanout | idlez/game.py:34-38 | Delivering one event makes one call per handler, in registration order. |
| Game.DeliveriesAt | idlez/game.py:32-39 | A flush makes len(queue)·len(handlers) calls. Call i·len(handlers)+j hands event i to handler j, so every event reaches every handler once, in queue order and then handler order. |
| Game.DeliveriesLength | idlez/game.py:32-39 | A flush makes exactly len(queue)·len(handlers) handler calls. |
| Game.FlushTwice | idlez/game.py:32-39 | A second `send_events` with no emit in between delivers nothing more. |
| Game.IdleZ.constructor | idlez/game.py:45-47 | The game holds the given handlers, queue and players, keyed by id. Its delivery log starts empty. |
| Game.IdleZ.PlayerById | idlez/game.py:49-50 | `player(uid)` returns the stored player exactly when the id is stored, and that player has this id. |
| Game.IdleZ.Emit | idlez/game.py:29-30 | The inherited `emit` appends the event to the queue and changes no player's standing. |
| Game.IdleZ.LoseExperience | idlez/game.py:91-92 | The player's experience drops by exactly `amount`, with no floor. The level and every other player's standing are unchanged. |
| Game.IdleZ.AllLoseExperience | idlez/game.py:74-76 | The new standings are `LoseAll(old standings, amount)`: every player loses exactly `amount` and no level changes. |
| Game.IdleZ.LoseStep | idlez/game.py:75-76 | One loop step: the next player in key order has lost `amount`, so the players done so far are exactly `order[..i+1]`. |
| Game.LoseSomeStep | idlez/game.py:75-76 | Adding one player to the players done changes only that player's standing. |
| Game.LoseSomeAll | idlez/game.py:74-76 | Once every stored id has been visited, the partial loss equals `LoseAll`. |
| Game.LossHasNoFloor | idlez/game.py:91-92 | A player with less experience than the loss ends below zero at the same level. |
| Game.IdleZ.LevelUp | idlez/game.py:85-89 | The level goes up by exactly one and experience stays. Exactly one `LevelUpEvent` for that player is queued. |
| Game.IdleZ.GainExperience | idlez/game.py:78-83 | Experience grows by `amount`. The level goes up by one exactly when `experience_for_level(level+1) <= experience`, and then one `LevelUpEvent` is queued. Other players are unchanged. |
| Game.OneLevelPerGain | idlez/game.py:82-83 | A gain that reaches even the threshold after next still goes up only one level. |
| Game.IdleZ.MakeNoise | idlez/game.py:52-64 | An unknown id gives `PlayerNotFound` and changes no standing and no queue. Otherwise the speaker loses its level in experience. When `roll < 0.05`, everyone then loses 5600 and exactly one `BadPlayerEvent(LOUD_NOISE, 5600)` for the speaker is queued; if not, nothing is queued. |
| Game.IdleZ.NewPlayer | idlez/game.py:66-72 | The player is stored under its id, replacing any record with that id. Then everyone, the newcomer included, loses 1200, and exactly one `NewPlayerEvent` with loss 1200 is queued. |
| Game.IdleZ.StorePlayer | idlez/game.py:67 | `players[id] = player`: a new id goes at the end of the key order and a known id keeps its place. Only that entry's standing changes. |
| Game.IdleZ.Tick | idlez/game.py:94-97 | Every player gains `secondsDiff` and levels up at most once (`GainAll`). The waiting events, then this pass's level-ups in key order, are delivered to every handler, and the queue ends empty. |
| Game.IdleZ.GainEveryone | idlez/game.py:95-96 | The gain pass: standings become `GainAll(before)`, and the queue grows by exactly `LevelUps` in key order. |
| Game.IdleZ.GainStep | idlez/game.py:95-96 | One loop step: the next player in key order gains. Its level-up event, if any, follows those of the earlier players. |
| Game.GainSomeStep | idlez/game.py:95-96 | Adding one player to the players done changes only that player, by `Gain`. |
| Game.GainSomeAll | idlez/game.py:95-96 | Once every stored id has been visited, the partial gain equals `GainAll`. |
| Game.LevelUpsSnoc | idlez/game.py:78-89 | The level-up events of one more player come after those already queued. |
| Game.LevelUpsExactly | idlez/game.py:94-97 | A gain pass queues only `LevelUpEvent`s of players that levelled up, and the event of each such player, with no more events than players. |
| Game.LevelUpsCount | idlez/game.py:94-97 | Over distinct players that carry their own key as id, each player's `LevelUpEvent` occurs exactly once if they levelled up and never otherwise. |
| Store.Player.constructor | idlez/store.py:6-12 | A record with the given id, name, experience, level and guild. |
| Events.NewPlayer | idlez/events.py:30-34 | A `NewPlayerEvent` is a bad-player event of type `LOUD_NOISE`, carrying exactly the given player and loss. |
| Events.NewPlayerIsLoudNoise | idlez/events.py:30-34 | Every new-player event is a bad-player event of type `LOUD_NOISE`. |
| Templates.FormatterNamed | idlez/data/data.py:197-201 | Exactly three formatter names are known: `capitalize`, `upper` and `lower`. |
| Templates.ToUpper | idlez/data/data.py:199 | `str.upper`: the same length, no lower-case letter left, and every other character kept. |
| Templates.ToLower | idlez/data/data.py:200 | `str.lower`: the same length, no upper-case letter left, and every other character kept. |
| Templates.CapitalizeText | idlez/data/data.py:198 | `str.capitalize`: the first character upper-cased and the rest lower-cased. |
| Templates.LowerOfUpper | idlez/data/data.py:199-200 | Lower-casing after upper-casing is plain lower-casing. |
| Templates.CapitalizeIdempotent | idlez/data/data.py:198 | Capitalizing twice is capitalizing once. |
| Templates.MatchAt | idlez/data/data.py:206 | A match of `\{([^\|}]+\|[^\|}]+)\}` is at least five characters long and lies within the text. |
| Templates.MatchAtSound | idlez/data/data.py:206 | Every match is `{`, a token body (one `\|` with text on both sides, no `}`), and `}`. |
| Templates.MatchAtComplete | idlez/data/data.py:206 | Every brace-enclosed token body is matched, whatever follows it. |
| Templates.TokensAtMatch | idlez/data/data.py:206 | `findall` returns a match at the start first and resumes scanning after it. |
| Templates.TokensAreBodies | idlez/data/data.py:206-207 | Everything `findall` returns has the token shape, so `split("\|")` yields two parts. |
| Templates.TokensSkip | idlez/data/data.py:206 | Text without `{` holds no token and does not change the tokens after it. |
| Templates.TokensOfBody | idlez/data/data.py:206 | A brace-enclosed token body is found, and scanning resumes after it. |
| Templates.TokensOfToken | idlez/data/data.py:206 | An `{ident\|fmt}` token is found as `ident\|fmt`. |
| Templates.TokensOfField | idlez/data/data.py:206 | A plain `{key}` field is not a token. |
| Templates.SplitToken | idlez/data/data.py:207 | `ident_fmt.split("\|")`: two nonempty parts without `\|` or `}` that rejoin to the token. |
| Templates.SplitTokenOf | idlez/data/data.py:207 | Splitting `ident\|fmt` gives back `ident` and `fmt` (the inverse of joining). |
| Templates.QualifiesOf | idlez/data/data.py:207-214 | A token whose identifier is a parameter and whose formatter is known gets `formatter(str(value))`. |
| Templates.AugmentedBySnoc | idlez/data/data.py:206-214 | One more token adds its formatted entry when it qualifies and changes nothing otherwise, as the loop body does. |
| Templates.AugmentedStep | idlez/data/data.py:206-214 | The loop's step in its own terms: the token's identifier and formatter name decide whether `formatter(str(value))` is added under the whole token. |
| Templates.AugmentedEntries | idlez/data/data.py:205-214 | The augmented map holds the caller's parameters plus exactly the qualifying tokens. A token with an unknown identifier or formatter gets no entry, and caller entries that are not tokens are kept. |
| Templates.AugmentedToken | idlez/data/data.py:208-214 | A qualifying token of the template maps to its formatted parameter. |
| Templates.AugmentedKeeps | idlez/data/data.py:205 | A parameter that is not a token of the template is passed on unchanged (the copy of `params`). |
| Templates.EvalTemplate | idlez/data/data.py:204-215 | The loop over the tokens builds the augmented parameters, and the result is `Evaluated(template, params)`. The caller's map is a value and is never changed. |
| Templates.FormatMapPlain | idlez/data/data.py:215 | `format_map` copies text without braces unchanged. |
| Templates.FormatMap | idlez/data/data.py:215 | A KeyError from `format_map` names a nonempty key that the map does not hold. |
| Templates.Evaluated | idlez/data/data.py:204-215 | `eval_template` raises KeyError only for a key the caller did not supply: the pre-pass never removes a caller's entry. |
| Templates.Tokens | idlez/data/data.py:206 | `findall` finds at most one token per five characters, since every match is at least `{a\|b}` long. |
| Templates.FormatMapField | idlez/data/data.py:215 | A `{key}` field becomes `str(m[key])`, or fails with KeyError when the key is missing. |
| Templates.StepAppend | idlez/data/data.py:215 | A step taken on a prefix is the same step on the whole text. |
| Templates.FormatMapAppend | idlez/data/data.py:215 | Filling a concatenation in which the first part fills cleanly is filling each part. |
| Templates.FormatMapText | idlez/data/data.py:215 | Brace-free text is copied, and filling goes on after it. |
| Templates.FilledThreeFields | idlez/data/data.py:215 | A template of three fields with text between them is filled field by field. |
| Templates.MissingKeyRaises | idlez/data/data.py:215 | A placeholder without a parameter is an error (KeyError), not left in place. |
| Templates.ExampleTokens | tests/test_data.py:17 | `findall` on the example template yields its two formatter tokens. |
| Templates.AugmentedLevelUp | tests/test_data.py:17-31 | The example's augmented parameters hold the capitalized name, the level and the upper-cased time. |
| Templates.EvaluatedLevelUpTemplate | tests/test_data.py:17-34 | For any name, level and time, the example template evaluates to the capitalized name, " Text ", the level in decimal, ". time: " and the upper-cased time. |
| Templates.EvaluatedLevelUpExample | tests/test_data.py:25-34 | The example evaluates to `Player_name Text 24. time: SOME TIME`. |
| Decimal.NatToString | idlez/data/data.py:214 | `str(n)` for n ≥ 0: nonempty, all digits, and no leading zero unless n is 0. |
| Decimal.ParseNatToString | idlez/data/data.py:214 | Reading the decimal text of a number gives the number back. |
| Decimal.NatToStringInjective | idlez/data/data.py:214 | Different numbers have different decimal texts. |
| Decimal.IntToString | idlez/data/data.py:214 | `str(i)`: a leading `-` exactly for negative numbers, then digits. |
| Decimal.IntToStringRoundTrip | idlez/data/data.py:214 | Reading `str(i)` back gives `i`. |
| Data.Choose | idlez/data/data.py:153-157 | `random.choice` fails (IndexError) exactly on an empty list and otherwise returns a member. |
| Data.ChooseReaches | idlez/data/data.py:153-157 | Every member of a list is chosen by some draw. |
| Data.PickElement | idlez/data/data.py:151-158 | `loot`, `crate` and `body_crate` give a member of their own list; an empty list fails. Any other name raises NotImplementedError. |
| Data.ChosenSnoc | idlez/data/data.py:164 | One more slot name: the picks so far, then the pick for that name. |
| Data.Chosen | idlez/data/data.py:164 | The `chosen_elements` comprehension fails only with IndexError or with NotImplementedError for one of the slot names. On success it has at most one pick per slot name. |
| Data.ChosenError | idlez/data/data.py:151-164 | A failure is raised by the first slot name that cannot be picked: NotImplementedError for an unknown name, IndexError for a known name with an empty list. |
| Data.ChosenSpec | idlez/data/data.py:164 | The picks succeed exactly when every slot name is pickable. The picked keys are then exactly the slot names, each holding a member of its own list. |
| Data.ChosenKinds | idlez/data/data.py:151-164 | Each picked slot holds an element of its own kind. |
| Data.Distinct | idlez/data/data.py:164 | The dict's keys: exactly the slot names, each once. |
| Data.DistinctEmpty | idlez/data/data.py:171-173 | `len(chosen_elements)` is 0 exactly when the encounter has no slot names. |
| Data.ChosenCount | idlez/data/data.py:164-173 | There is one pick per distinct slot name: `len(chosen_elements)`. |
| Data.Element.FormatMap | idlez/data/data.py:37-56 | A loot contributes `a_loot` and `loot_category`, a crate `in_crate`, a body crate `on_body`, each mapped to the element's text. |
| Data.Combined | idlez/data/data.py:166-170 | The merged map's keys are exactly `player_name`, `time_gain` and the parameter names of the elements chosen for `loot`, `crate` and `body_crate`. The two placeholders map to `{player_name}` and `{time_gain}`. When each slot holds its own kind, every chosen element's parameters are in it unchanged. |
| Data.FormatMapsDisjoint | idlez/data/data.py:37-56 | Elements of different kinds contribute different field names, and none contributes `player_name` or `time_gain`. |
| Data.CombinedKeepsPlaceholders | idlez/data/data.py:166-170 | `{player_name}` and `{time_gain}` fill to themselves from the merged map, whatever was chosen. |
| Data.MeanBetween | idlez/data/data.py:171-173 | The mean of the worths lies between any bounds of the worths. |
| Data.MeanOfEqual | idlez/data/data.py:171-173 | The mean of equal worths is that worth. |
| Data.WorthsBetween | idlez/data/data.py:171-173 | Worths picked from content bounded by `lo` and `hi` stay within those bounds. |
| Data.Worths | idlez/data/data.py:171 | One worth per distinct slot name: the i-th is the worth of the element picked for the i-th name. |
| Data.PickedEncounter | idlez/data/data.py:161-163 | The chosen encounter is one of the content's encounters. |
| Data.PickSingleEncounter | idlez/data/data.py:160-180 | `pick_single_encounter` never fails with `MissingMessages` (the KeyError of a missing event type); a message field without an entry fails as `Template(MissingKey)`, the KeyError of `format_map`. Success needs an encounter. |
| Data.PickSingleEncounterOutcome | idlez/data/data.py:160-180 | Every outcome. No encounter gives IndexError; a failing pick gives that pick's error; an encounter without slots gives ZeroDivisionError; a template error is raised as is. Success holds exactly when there is an encounter whose slots are all pickable and nonempty and whose message can be filled. |
| Data.PickSingleEncounterSteps | idlez/data/data.py:160-180 | A successful pick chose an encounter and succeeded at every slot. Its message is the encounter's template filled from the merged map, and its worth is the mean of the picked worths. |
| Data.PickSingleEncounterSpec | idlez/data/data.py:160-180 | A successful pick has one element per distinct slot, the filled message, and a worth within any bounds of the content's worths. |
| Data.FillEventMessage | idlez/data/data.py:182-185 | KeyError exactly when the event type has no messages, and IndexError exactly when its list is empty. Otherwise the drawn message `msgs[draw % len(msgs)]` is filled: success with its text exactly when it evaluates, its template error otherwise. |
| Data.FillSingleMessage | idlez/data/data.py:182-185 | With a single message for an event type, every draw fills that message. |
| Data.FillEventMessageExample | tests/test_data.py:12-34 | The level-up example content fills to `Player_name Text 24. time: SOME TIME`. |
| Data.FillPlayerFightMessage | idlez/data/data.py:187-194 | IndexError exactly when the fight list is empty. Otherwise the drawn fight's success message (player wins) or fail message is filled: success with its text exactly when it evaluates, its template error otherwise. |
| Data.FightOutcomesShareFight | idlez/data/data.py:187-194 | With the same draw, winning and losing fill the two messages of the same fight. |
| EventComponents.Component.MessageFields | idlez/events/components.py:14-80 | The base and message components add nothing, and a player component adds exactly id and name. An experience component adds the all-players change exactly when it is present and nonzero. |
| EventComponents.Component.PlayerMessageFields | idlez/events/components.py:18-91 | Experience components add own + all-players (missing counts as 0) exactly when that sum is nonzero. Every other component adds nothing. |
| EventComponents.GetOr | idlez/events/components.py:55 | `dict.get(key, default)`. |
| EventComponents.PlayerSeesAllDiff | idlez/events/components.py:54-69 | A player without an own entry sees exactly the all-players change. |
| EventComponents.PlayerSeesOwnDiff | idlez/events/components.py:54-69 | Without an all-players change, a player sees exactly their own nonzero entry, and the event-wide field is absent. |
| EventComponents.CancellingDiffsOmitField | idlez/events/components.py:60-69 | An own change that cancels the all-players change omits the field, although both entries are nonzero. |
| EventComponents.AsProgress | idlez/events/components.py:74 | The same changes, as reals. |
| EventComponents.ProgressMirrorsDiff | idlez/events/components.py:72-91 | `ExpProgress` adds fields exactly when `ExpDiff` does on the same amounts, with the same value. |
| EventComponents.MessageFieldsDisjoint | idlez/events/components.py:14-101 | Components of different classes never add fields of the same name. |
| ComponentEvents.ComponentEvent.constructor | idlez/events/__init__.py:47-50 | The stored map is `Stored(arguments)`: each argument under its class, the later of two winning. |
| ComponentEvents.StoredKeys | idlez/events/__init__.py:47-50 | A class is stored exactly when some argument has that class. |
| ComponentEvents.StoredLast | idlez/events/__init__.py:47-50 | What is stored under a class is the last argument of that class. |
| ComponentEvents.ComponentEvent.HasComponent | idlez/events/__init__.py:63-64 | `has_component(t)` is true exactly when some argument had class `t`. |
| ComponentEvents.ComponentEvent.SafeComponent | idlez/events/__init__.py:52-53 | `safe_component(t)` is the last argument of class `t`, or None when there is none. |
| ComponentEvents.ComponentEvent.ComponentOf | idlez/events/__init__.py:55-61 | `component(t)` raises `NoSuchComponentError` exactly when `t` is absent, and otherwise returns what `safe_component` returns. |
| ComponentEvents.LaterComponentWins | idlez/events/__init__.py:47-50 | Of two arguments of the same class, the later is stored. |
| ComponentEvents.DistinctComponentsKept | idlez/events/__init__.py:47-50 | Arguments of different classes are all kept. |
| Bot.Pluralize | idlez/bot.py:237-240 | `"1 word"` for 1, and otherwise the decimal count, a space, the word and `s`. |
| Bot.Split | idlez/bot.py:229-235 | Days (floor division), hours < 24, minutes < 60 and seconds < 60, which add back up to the input. Days are non-negative exactly for a non-negative input. |
| Bot.SplitUnique | idlez/bot.py:229-235 | That decomposition is the only one with those bounds. |
| Bot.Parts | idlez/bot.py:242-250 | At most four parts, none exactly when no unit is positive. A positive day count comes first and a positive second count last. |
| Bot.Join | idlez/bot.py:252 | `", ".join`: empty for no parts, the part itself for one, and starting with the first part. |
| Bot.JoinSnoc | idlez/bot.py:252 | Joining one more part appends the separator and the part, so separators go only between parts. |
| Bot.HumanText | idlez/bot.py:225-252 | The text is empty exactly when no unit of the split is positive, and otherwise starts with the text of the largest positive unit. |
| Bot.HumanSecs | idlez/bot.py:225-252 | The step-by-step subtraction and collection of nonzero units gives `HumanText`: the units day, hour, minute, second in that order, joined by commas. |
| Bot.HumanTextOf | idlez/bot.py:242-252 | The text is determined by any decomposition with those bounds. |
| Bot.HumanTextEmpty | idlez/bot.py:242-252 | For a non-negative input, the text is empty exactly when the input is 0. |
| Bot.HumanTextSecond | tests/test_bot.py:5 | `human_secs(1) == "1 second"`. |
| Bot.HumanTextSeconds | tests/test_bot.py:6 | `human_secs(2) == "2 seconds"`. |
| Bot.HumanTextMinute | tests/test_bot.py:7 | `human_secs(60) == "1 minute"`. |
| Bot.HumanTextMinuteSecond | tests/test_bot.py:8 | `human_secs(61) == "1 minute, 1 second"`. |
| Bot.HumanTextMinutesSecond | tests/test_bot.py:9 | `human_secs(121) == "2 minutes, 1 second"`. |
| Bot.HumanTextHours | tests/test_bot.py:10 | `human_secs(7200) == "2 hours"`. |
| Bot.HumanTextHoursSeconds | tests/test_bot.py:11 | `human_secs(7202) == "2 hours, 2 seconds"`: zero minutes are left out. |
| Bot.HumanTextDayHour | tests/test_bot.py:12 | `human_secs(90000) == "1 day, 1 hour"`. |
| Bot.ThreeUnitParts | idlez/bot.py:242-252 | Hours, minutes and seconds are joined in that order, with a negative day count left out. |
| Bot.HumanTextMinusOne | idlez/bot.py:229-235 | A negative input counts whole days down: -1 reads "23 hours, 59 minutes, 59 seconds". |
| Bot.HumanTextMinusOneDay | idlez/bot.py:229-252 | -86400 reads as the empty text. |
| Bot.ExpLossText | idlez/bot.py:167-182 | A fixed loss gives its decimal text, and a fraction gives the word for the number of thresholds it exceeds. Anything else gives "an unkown amount of". |
| Bot.ProgressBucket | idlez/bot.py:170-181 | Above 0.99 "all", above 0.8 "most", above 0.5 "a lot of", above 0.2 "some", else "almost no". |
| Bot.ExpLossFixRoundTrip | idlez/bot.py:168-169 | A fixed loss can be read back from its text. |
| Bot.ExceededMonotone | idlez/bot.py:170-181 | A larger fraction never gets a smaller word. |
| Bot.ExpLossTextExamples | tests/test_event_announcement.py:25-48 | 300 gives "300"; 0.1, 0.3, 0.55 and 0.999 give "almost no", "some", "a lot of" and "all". |
| Bot.PlayerIdleState | idlez/bot.py:58-71 | OFFLINE exactly for an unknown guild, an unknown member or offline status. ONLINE exactly for online or idle, and AWAY exactly for the rest. |

## Left out

- The Discord client, its intents and its asyncio tasks in idlez/bot.py, and all of idlez/cli.py: network, timers and environment reading. `on_game_event` is modelled only through its nested `exp_loss`.
- Handlers are opaque identities. Delivering an event is logged as one `Delivery(handler, event)`. Whether a handler is a coroutine (awaited) or a plain function is not modelled.
- Game.Emitter.SendEvents: the model delivers the whole queue and then empties it, with handlers that cannot fail or run other code. It does not capture two behaviours of the program. First, a handler that raises ends `send_events` before `event_queue.clear()`, so events already delivered stay queued and are delivered again by the next call. Second, an async handler awaits `channel.send` (idlez/bot.py:164). Meanwhile another task's `make_noise` or `new_player` (idlez/bot.py:136, 160) can append to the list being iterated, and that event is then delivered in the same flush.
- `Store.load` and `Store.save` (JSON lines on disk) are file I/O. The store is the game's `players` map plus `order`, the dict's insertion order.
- `IdleZ` inherits from `Emitter` in the program. Here an `IdleZ` owns its emitter (`bus`) and forwards `emit` to it.
- `experience_for_level` is not modelled: it is floating-point arithmetic (`6000 * 1.16**lvl` and a linear tail). The game is given a threshold function `int -> int`, and `float <= int` is compared as `ceil <= int`.
- The `random.random()` of `make_noise` becomes the parameter `roll`. The `Random.choice` calls of the picker become draws that the caller supplies, choosing `xs[draw % len(xs)]`.
- `str.format_map` is modelled for `{key}` fields and brace escapes only. Conversions (`!r`), format specs (`:>5`), attribute or index access in a field name (`{a.b}`, `{a[0]}`) and nested fields are not. A field name containing `.`, `[`, `!` or `:` is looked up whole.
- `str.capitalize`, `str.upper` and `str.lower` are modelled on ASCII letters only; Unicode case mapping is not modelled.
- A parameter whose value is `None` is skipped by `eval_template`. Parameters here are strings or integers, so that case cannot arise.
- Element worths and their mean are exact reals, not IEEE floats.
- EventComponents.ExpProgress: amounts are exact reals, not IEEE floats; own + all-players is summed exactly (0.1 + 0.2 is 0.3 here, 0.30000000000000004 in the program), and an integer change above 2**53 is not rounded when `EventComponents.AsProgress` mirrors it as progress, so `ProgressMirrorsDiff` holds here where the program's float can differ from the integer.
- The progress fraction of `Bot.ExpLoss.ExpLossProgress` is an exact real standing for the decimal value the float denotes. Python compares the float itself with the float literals 0.99, 0.8, 0.5 and 0.2, so near a threshold the two can disagree (the float 0.8 is not above the literal 0.8, while an exact real slightly above 0.8 is).
- `Data.from_lib_resources` and the `from_dict` constructors are JSON resource loading.
- `PlayerNoiseEvent` and `NewPlayerEvent` in idlez/events/__init__.py name a component class (`AllPlayerExpLoss`) that idlez/events/components.py does not define. `needs_components` is never read. `ComponentEvent` is modelled generically.
- `exp_loss` in idlez/bot.py tests for `events.ExpLossFix` and `events.ExpLossProgress`, which idlez/events.py does not define. They are modelled as two arms of `Bot.ExpLoss`, with a third arm for every other value.
- The announcement texts `on_game_event` builds (sending messages to a guild channel) are not modelled.
- `IdleState` is not defined in idlez/game.py; it is modelled in `Bot` with the three values `get_player_idle_state` returns. The presence status is a map from guild to member to status.

## Specification and code

The repository's design documentation describes a newer engine than its code
implements. Where the two differ, the model follows the code:

- **`make_noise`.** The code takes exactly the player's level from its
  experience, not a random penalty. On a loud noise it takes a fixed 5600
  from every player and queues a `BadPlayerEvent`. The repository's design
  documentation instead has a proportional loss and a `PlayerNoiseEvent`.
- **`new_player`.** The code takes a fixed 1200 from every player, the
  newcomer included, not a random proportion from the existing players.
- **Experience changes.** `gain_experience` and `lose_experience` apply no
  idle-state gating and no floor: experience can go negative, and a level is
  never lost.
- **Missing operations.** `single_player_event` and `two_player_event` do not
  exist in the code.
- **Event losses.** The engine puts a plain integer in an event's `exp_loss`.
  The bot's `exp_loss` therefore renders it as "an unkown amount of"
  (spelled as in the program).
- **Template errors.** The repository's design documentation says evaluation leaves an
  unresolved token in place and never raises for a missing parameter or an
  unknown formatter. In the code, a token that gets no entry stays a field of
  `str.format_map`, which raises KeyError for it. The model follows the code
  (`Templates.FormatMapField`, `Templates.MissingKeyRaises`).
