# stitch-cafe VK bot: order logic, command handlers and long-poll loop

This project is a Dafny model of the core of the VK edition of the
stitch-cafe embroidery game bot. Players take "orders" of dishes. Each dish
is worth a number of points (crosses). Players finish orders to gain levels.

The model covers:

- the order generator `generate_regular_order`;
- the order number `_order_index`;
- the special-order rules of `_vk_new_order_logic`: suppression after a special order, double the previous order, half an order, a fixed dish;
- the guards and totals of the `/new`, `/my` and `/done` handlers, and the milestone suffixes of `/done`;
- the long-poll loop `longpoll_loop`: how the `(server, key, ts)` cursor follows each response, which updates reach a handler, and the order of the command-routing chain;
- the `ADMIN_IDS` parsing of `config.py`;
- the VK mention markup of `format_vk_user_mention`.

Modules:

- `Wrappers`: `Option`, for Python's `None`.
- `PyStr`: `strip`, `lower`, `startswith` and `split` on ASCII text. `Split` is proved to invert `Join`.
- `Config`: `ADMIN_IDS`.
- `VkUtils`: `str(int)` and the mention markup. `int(str(n)) == n`, and mentions are injective.
- `Orders`: the generator, the order number, and the new-order decision. It is written as a specification function `NewOrderSpec` plus the imperative `NewOrderLogic`.
- `Handlers`: the `OrderStore` class holds the active orders. Its methods `New`, `My` and `Done` model the three handlers.
- `LongPoll`: the classifier, the update filters, one loop iteration `Step`, a finite run `Run`, and the `Poller` class with its loop.

Randomness, the database and the VK API become inputs:

- `random.choice` becomes the index `choice`.
- `random.shuffle` becomes the sequence `shuffled`, which must be a permutation of the pool.
- `check_special_order` and `finish_order_and_level` become function parameters.
- Each HTTP response and each `get_longpoll_server()` result becomes an element of a finite trace.

Where the code and its documentation disagree, the model follows the code:

- A failure of `get_longpoll_server()` after a `failed` code other than 1 is not caught. It ends the loop (`running == false`). It does not retry.
- The half order's reported `half_crosses` is not always the sum of the saved dishes. `HalfOrderSpec` states exactly when it is, and `HalfOrderOverReports` gives an input where it is not.
- For a non-negative level, the backfill loop of `generate_regular_order` can never add a dish. When it is entered it would run forever (`BackfillIsDead`). The generator is therefore modelled for pools with three distinct dishes. Only the paths that call it need such a pool (`Orders.Generates`).

## Model

| member | source | states |
|---|---|---|
| PyStr.SpaceRunFrom | config.py:23 | the whitespace run starting at a position: all of it is whitespace and the character after it is not |
| PyStr.SpaceRunTo | config.py:23 | the whitespace run ending at a position: all of it is whitespace and the character before it is not |
| PyStr.StripLeft | config.py:23 | the result is a suffix of the input; the dropped prefix is all whitespace; the result does not start with whitespace |
| PyStr.StripRight | config.py:23 | the result is a prefix of the input; the dropped suffix is all whitespace; the result does not end with whitespace |
| PyStr.IsSpace | config.py:23 | the ASCII characters `str.isspace` accepts (computes only; used by the strip lemmas) |
| PyStr.Strip | config.py:23 | a non-empty result neither starts nor ends with whitespace; the result is empty exactly when the input is all whitespace; it is no longer than the input and uses only the input's characters |
| PyStr.RightOfSuffix | config.py:23 | cutting the trailing whitespace off a suffix leaves an infix followed only by whitespace |
| PyStr.StripInfix | config.py:23 | the stripped text is exactly the infix between the leading whitespace run and a trailing whitespace run |
| PyStr.LowerChar | vk_lp_main.py:631 | ASCII upper-case letters map to their lower-case letters; every other character is unchanged |
| PyStr.Lower | vk_lp_main.py:631 | same length; no upper-case letter is left; upper-case letters become their lower-case letters and every other character is kept |
| PyStr.LowerIdempotent | vk_lp_main.py:631 | lowering twice is lowering once |
| PyStr.StartsWith | vk_lp_main.py:632-660 | `startswith` (computes only; the routing lemmas state what matching it means) |
| PyStr.Join | config.py:23 | `sep.join` (computes only; the partner of `Split`, see `Split` and `SplitJoin`) |
| PyStr.IndexOf | config.py:23 | the first position of the separator |
| PyStr.Split | config.py:23 | one more field than there are separators; no field contains the separator; joining the fields back gives the input |
| PyStr.IndexOfAfter | config.py:23 | in `a + sep + b` where `a` has no separator, the first separator is the one right after `a` |
| PyStr.SplitCons | config.py:23 | a separator-free head followed by the separator becomes the first field, and the rest splits on its own |
| PyStr.SplitJoin | config.py:23 | splitting the join of separator-free fields gives those fields back |
| Config.NonBlank | config.py:23 | the filtered list is no longer than the fields, and none of its entries is empty |
| Config.Picks | config.py:23 | one source-field index per kept entry |
| Config.PicksMatch | config.py:23 | each kept entry is the cleaned field its index names |
| Config.PicksIncreasing | config.py:23 | kept entries keep the fields' left-to-right order |
| Config.PicksComplete | config.py:23 | every field that does not clean to empty is kept |
| Config.NonBlankOrigin | config.py:23 | every kept entry is one of the fields, cleaned |
| Config.StrippedEntries | config.py:23 | stripped non-blank comma-free fields give non-empty entries with no outer whitespace and no comma |
| Config.CleanShape | config.py:23 | what a cleaned field must satisfy (computes only) |
| Config.StripShape | config.py:23 | `strip` cleans every field into that shape |
| Config.CleanedEntries | config.py:23 | any cleaning with that shape gives non-empty, outer-whitespace-free, comma-free entries |
| Config.AdminIds | config.py:22-26 | an empty string gives no admins; every id is non-empty, has no outer whitespace and no comma; there are at most (commas + 1) ids |
| Config.AdminIdsOrder | config.py:22-26 | the ids are the non-blank stripped comma fields, all of them, in their order |
| VkUtils.NatDigits | vk_utils.py:14 | a non-empty string of decimal digits with no leading zero |
| VkUtils.IntToString | vk_utils.py:14 | non-empty, and contains no vertical bar and no closing bracket |
| VkUtils.DigitsValue | vk_utils.py:14 | the value of a digit string (computes only; the reading back that `DigitsRoundTrip` inverts) |
| VkUtils.ParseInt | vk_utils.py:14 | `int(s)` for signed digit strings (computes only; see `IntRoundTrip`) |
| VkUtils.DigitsRoundTrip | vk_utils.py:14 | reading the digits of `n` back gives `n` |
| VkUtils.IntRoundTrip | vk_utils.py:14 | `int(str(n)) == n` for every integer, negatives included |
| VkUtils.Mention | vk_utils.py:14 | the markup is `[id`, the decimal id, a vertical bar, the name, `]`: length, delimiters and both slices |
| VkUtils.MentionInjective | vk_utils.py:14 | equal mentions come from equal ids and equal names, whatever the name contains |
| Orders.DishLevel | vk_lp_main.py:194 | `min(level, 3)` for a non-negative level |
| Orders.LevelDishes | vk_lp_main.py:197 | `DISHES_BY_LEVEL.get(lv, [])`: a missing level contributes no dishes (computes only; see `UnlockedBelow`) |
| Orders.UnlockedBelow | vk_lp_main.py:195-197 | a dish is in the unlocked pool if and only if it is listed at some level in range |
| Orders.Unlocked | vk_lp_main.py:194-197 | `opened`, the dishes of levels 0 up to the capped level (computes only; see `UnlockedBelow`, `AnchorPool`) |
| Orders.AnchorPool | vk_lp_main.py:198 | the pool of the capped level, or level 0's pool when that level is missing; every candidate is unlocked |
| Orders.Without | vk_lp_main.py:200 | a dish is kept if and only if it is in the pool and differs from the anchor |
| Orders.Keep | vk_lp_main.py:204-205 | one step of the greedy loop (computes only; see `FillSpec`) |
| Orders.Fill | vk_lp_main.py:202-205 | the greedy loop over the shuffled pool (computes only; see `FillSpec`, `GreedyMembers`, `GreedyFull`) |
| Orders.FillSpec | vk_lp_main.py:202-205 | the greedy loop keeps its start as a prefix and collects at most three distinct dishes from its input; if it collects fewer than three, it has every input dish |
| Orders.ThreeNeedThree | vk_lp_main.py:206 | a sequence holding three distinct dishes has length at least three |
| Orders.ValidDraw | vk_lp_main.py:198-201 | what `random.choice` and `random.shuffle` may return: an index into the anchor pool and a permutation of the unlocked pool without the anchor (computes only; see `ShuffledMembers`) |
| Orders.Greedy | vk_lp_main.py:202-205 | `take` after the greedy loop, started from the drawn anchor (computes only; see `GreedyMembers`, `GreedyFull`, `BackfillIsDead`, `GenerateRegularOrder`) |
| Orders.ShuffledMembers | vk_lp_main.py:199-201 | the shuffled pool holds exactly the unlocked dishes other than the anchor |
| Orders.GreedyMembers | vk_lp_main.py:199-205 | the anchor comes first; the dishes are distinct and unlocked; a short result holds every unlocked dish |
| Orders.GreedyFull | vk_lp_main.py:202-206 | the greedy loop fills all three slots if and only if the unlocked pool has three distinct dishes |
| Orders.BackfillPass | vk_lp_main.py:207-211 | one pass of the backfill's inner loop (computes only; see `BackfillPassStalls`, `BackfillIsDead`) |
| Orders.BackfillPassStalls | vk_lp_main.py:207-211 | a pass over dishes that are all already taken changes nothing |
| Orders.BackfillIsDead | vk_lp_main.py:206-211 | whenever the backfill loop would be entered, its body adds nothing |
| Orders.GenerateRegularOrder | vk_lp_main.py:188-212 | three distinct unlocked dishes, the drawn anchor first, equal to the greedy specification |
| Orders.Sum | vk_lp_main.py:280 | the total of an order's values (computes only; see `SumUpdateFirst`, `DoubledSum`, `HalfOrderSpec`) |
| Orders.SumUpdateFirst | vk_lp_main.py:287 | replacing the first dish changes the total by the difference of the two values |
| Orders.OrderIndex | vk_lp_main.py:183-185 | the next order number: completed count + 1, with a missing count read as 0 |
| Orders.Doubled | vk_lp_main.py:269 | same names in the same order, each value doubled |
| Orders.DoubledSum | vk_lp_main.py:269-270 | the doubled order is worth twice the order it doubles |
| Orders.Max1 | vk_lp_main.py:282-287 | `max(1, x)` (computes only; see `Halved`, `HalfOrderSpec`) |
| Orders.Halved | vk_lp_main.py:282 | same names, each value `max(1, v // 2)` |
| Orders.CorrectionFits | vk_lp_main.py:284-287 | the first-dish correction `val0 + diff` stays at least 1 without the clamp, or no correction is made (computes only; `HalfOrderSpec` states that the saved sum equals the reported one exactly when it holds) |
| Orders.HalfOrder | vk_lp_main.py:280-288 | the halved dishes with the first-dish correction, and the reported total (computes only; see `HalfOrderSpec`) |
| Orders.HalfOrderSpec | vk_lp_main.py:280-288 | names kept; every value at least 1; the reported total is `total // 2`; the real sum equals it exactly when the correction needs no clamp, and is never below it |
| Orders.HalfOrderOverReports | vk_lp_main.py:280-288 | three one-point dishes report 1 but are worth 3 |
| Orders.Truthy | vk_lp_main.py:243 | Python truthiness of the stored tag (computes only) |
| Orders.LastWasSpecial | vk_lp_main.py:239-244 | the last order counts as special only after completed orders and with a truthy tag (computes only; see `SuppressionIgnoresCheck`) |
| Orders.SpecialResult | vk_lp_main.py:246-256 | `check_special_order` consulted only when the last order was not special (computes only; see `SuppressionIgnoresCheck`) |
| Orders.RegularOrder | vk_lp_main.py:305-318 | the fall-through order (computes only; see `RegularOrderSpec`) |
| Orders.NewOrderSpec | vk_lp_main.py:235-319 | the whole decision (computes only; its branches are stated by the lemmas that follow) |
| Orders.SuppressionIgnoresCheck | vk_lp_main.py:239-256 | after a special order, the decision does not depend on `check_special_order`, and the new order is the generated one, untagged |
| Orders.DoublePreviousSpec | vk_lp_main.py:264-276 | doubles the last order value by value, under the directive's tag, and is worth twice as much |
| Orders.FallThroughSpec | vk_lp_main.py:260-318 | `double_previous` without a last order, and an unknown type, both give the regular untagged order |
| Orders.HalfNewOrderSpec | vk_lp_main.py:277-298 | the halved generated order under the tag, the reply reporting `total // 2`, and when the saved sum matches it |
| Orders.FixedDishSpec | vk_lp_main.py:299-303 | a `regular` directive saves its one fixed dish under the directive's tag, whatever the generator would draw |
| Orders.Generates | vk_lp_main.py:260-306 | the paths that call `generate_regular_order`: all but `double_previous` with a last order and the fixed dish (computes only) |
| Orders.NoDrawNeeded | vk_lp_main.py:264-303 | on the paths that do not call the generator, the decision does not depend on the draw, and the order is tagged |
| Orders.Drawn | vk_lp_main.py:279 | the generated order when the decision calls the generator (computes only) |
| Orders.RegularOrderSpec | vk_lp_main.py:305-318 | the generated dishes, untagged, numbered completed count + 1 |
| Orders.NewOrderLogic | vk_lp_main.py:235-319 | the imperative decision equals `NewOrderSpec` applied to the generated order; the generator's requirements on the catalog and the draw apply only on the paths that call it |
| Handlers.MilestoneSuffix | vk_lp_main.py:423-428 | a suffix exactly at 40, 100 and 200 completed orders, and the right one for each |
| Handlers.OrderStore.constructor | vk_lp_main.py:327 | a store with no active orders |
| Handlers.OrderStore.New | vk_lp_main.py:322-341 | refused with the store unchanged when the player has an active order, whatever the catalog; otherwise the decided order becomes the player's one active order |
| Handlers.OrderStore.My | vk_lp_main.py:344-372 | shows the active order and its total exactly when there is one; changes nothing |
| Handlers.OrderStore.Done | vk_lp_main.py:375-430 | without an active order nothing changes; otherwise the progression receives the tag and the order's sum, the player's active order is cleared, and the reply carries the progression's result and the milestone |
| Handlers.NewMyDone | vk_lp_main.py:322-430 | `/new`, `/my`, `/done` in a row: `/my` shows the new order and its total, `/done` credits exactly that total, and the store ends as it began |
| LongPoll.Classify | vk_lp_main.py:620-669 | the routing chain (computes only; see `PayloadRouting`, `IgnoreRouting`, `TopRouting`, `UnknownRouting`, `ClassifyIgnoresCase`) |
| LongPoll.ClassifyIgnoresCase | vk_lp_main.py:627-631 | routing does not depend on letter case, in the text or in the payload command |
| LongPoll.PayloadRouting | vk_lp_main.py:621-642 | a `new` payload always routes to `/new`; `my` and `done` payloads lose only to earlier text commands; any other payload routes as if there were none |
| LongPoll.IgnoreRouting | vk_lp_main.py:631-666 | without a payload, text is ignored exactly when it does not start with `/` |
| LongPoll.TopRouting | vk_lp_main.py:644-655 | `/top10` routes to the top-10 handler, and `/top` not followed by `10` routes to the top handler |
| LongPoll.UnknownRouting | vk_lp_main.py:631-666 | the unknown-command reply is given exactly when the text starts with `/` and with none of the command prefixes |
| LongPoll.Route | vk_lp_main.py:601-669 | the filters and the classifier for one update (computes only; see `RouteFilters`) |
| LongPoll.RouteFilters | vk_lp_main.py:601-666 | an update is routed exactly when it is a `message_new` with non-blank text, integer ids, the allowed peer if one is set, and a command other than plain text; the routed message carries the classified command and both ids |
| LongPoll.RouteAll | vk_lp_main.py:601-669 | the routed messages of a batch (computes only; see `RouteAllAppend`, `RouteAllFiltered`, `DispatchUpdates`) |
| LongPoll.RouteAllAppend | vk_lp_main.py:601 | routing preserves the order of the update batch |
| LongPoll.RouteAllFiltered | vk_lp_main.py:601-616 | every routed message passes the filters; no more messages than updates |
| LongPoll.Step | vk_lp_main.py:568-599 | one iteration of the loop (computes only; see `StepCursor`, `StepKeys`) |
| LongPoll.StepCursor | vk_lp_main.py:568-599 | only a refetch replaces server and key; `failed == 1` and a normal response change only `ts`; only normal responses route messages, and every other response routes none; only a failed refetch after another `failed` code ends the loop; transport errors do not count a cycle |
| LongPoll.StepKeys | vk_lp_main.py:568-599 | one iteration keeps the server and key or adopts the refetched cursor |
| LongPoll.Run | vk_lp_main.py:568-599 | the loop over a finite trace, stopping once it has ended (computes only; see `RunStep`, `RunStopped`, `RunKeyProvenance`) |
| LongPoll.RunStep | vk_lp_main.py:568-599 | while the loop runs, one more response is one more `Step` |
| LongPoll.RunKeyProvenance | vk_lp_main.py:565-599 | over any trace, the server and key are the initial ones or came from a refetch |
| LongPoll.RunStopped | vk_lp_main.py:593-595 | once the loop has ended, later responses change nothing |
| LongPoll.Poller.constructor | vk_lp_main.py:565-566 | starts at the fetched cursor with cycle 0 |
| LongPoll.Poller.Iterate | vk_lp_main.py:568-669 | one iteration updates the fields and routes the messages as `Step` specifies |
| LongPoll.Poller.Loop | vk_lp_main.py:562-669 | the loop over a finite trace reaches the state and routes the messages given by `Run` |
| LongPoll.DispatchUpdates | vk_lp_main.py:601-669 | the loop over the updates routes exactly `RouteAll` of the batch |

## Left out

- HTTP and the VK API (`vk_api_call`, `send_message`, `get_user_first_name`, `get_longpoll_server`) are not modelled. Their results are inputs.
- `time.sleep`, the heartbeat log line and other logging are left out: they have no effect on state.
- The database layer is not part of this model.
  - The player record, the last order, `get_active_order`, `save_active_order` and `clear_active_order` become fields or parameters.
  - `finish_order_and_level` is an opaque function. The points it adds, the level and title it computes, and the achievement flags it sets are not modelled.
- `check_special_order` and the special-order table are not part of this model. They are a function parameter returning a tag and a directive.
- `fetch_user` creating a missing player is not modelled. Its result is a parameter.
- Reply texts, templates, the dish line format and the keyboard are left out. The replies are modelled by their template parameters.
- `handle_start`, `handle_top`, `handle_top10`, `handle_reset` and `is_admin` are outside this core. Routing reaches them, but their effects are not modelled.
- `asyncio.run` and handler exceptions are left out. An exception raised inside a handler would end the loop; the model assumes handlers return.
- Reading the environment (`ADMIN_ID` and the VK settings) and converting the group and peer ids with `int` are left out. `AdminIds` takes the string, and `allowedPeer` is given already converted.
- `str.strip`, `str.lower` and `str.isspace` are modelled on ASCII only. Unicode whitespace and case mappings are not modelled.
- `json.loads` of the payload is not modelled. An update carries the `cmd` string already decoded, or `None` when the payload is not a JSON object.
- `isinstance(x, int)` also accepts `bool` ids. The model takes ids as integers.
- `Orders.GenerateRegularOrder`: requires at least three distinct unlocked dishes. With fewer, `generate_regular_order` never returns (`BackfillIsDead`).
- `Orders.GenerateRegularOrder`: a negative level is not modelled. Levels are `nat`. With a negative level the unlocked pool is empty and the backfill would add level-0 dishes.
- `Orders.ValidDraw`: an empty anchor pool (the capped level present in the catalog with no dishes) is not modelled. There `random.choice` raises IndexError and `generate_regular_order` fails; `ValidDraw` admits no draw for it.
- `Orders.AnchorPool`: requires level 0 in the catalog, because the default `DISHES_BY_LEVEL[0]` is evaluated even when unused.
- `Handlers.OrderStore.New`: the `is not None` guard of `/new` and the truthiness guards of `/my` and `/done` are both modelled as map membership. `get_active_order` is not part of this model. It is taken to return `None` or a record, and a record is truthy even when its dish list is empty, which `double_previous` can store.
- `LongPoll.Poller.Loop`: the endless loop is modelled on a finite trace of responses and refetch results.
- `LongPoll.Poller.Loop`: an uncaught refetch failure is modelled as `running` becoming false.
- `LongPoll.Step`: a `ts` that is present but `null` in a response is not distinguished from a missing one.
- `LongPoll.Step`: a `failed` value that is not an integer (or is `True`, which Python treats as 1) is not modelled.
- A failure of the first `get_longpoll_server()` before the loop starts is not modelled. `Poller` starts from a cursor.
- `LongPoll.Response`: a poll response that is valid JSON but not an object is not modelled. `data.get` and `data["failed"]` would raise outside the `try` and end the loop.
- `LongPoll.Update`: an update, an `object` or a `message` that is not a JSON object, and a text that is not a string, are not modelled. `upd.get`, `obj.get` and `.strip()` would raise outside the `try` and end the loop.
