# void: a Dafny model of the Bedwars void-stats bot

The bot answers the chat command `void <player>` with a card of the
player's Bedwars "void" counters (kills, deaths, final kills, final deaths
and the two ratios). A menu on the card switches between game modes. This
project models the logic in `index.js` that does not depend on the chat
platform or the HTTP clients:

- **Registry** (`registry.dfy`): the mode registry `MODES` in declaration order.
  It also holds the two tier lists: the normal modes and the merge modes.
- **Stats** (`stats.dfy`): aggregation of the raw Bedwars object into
  per-mode counters. `overall` reads unprefixed fields. A normal mode reads
  `<mode>_void_*_bedwars`. A merge mode sums the counters read under
  `eight_two_<mode>` and `four_four_<mode>`. A missing field counts as 0.
  `FetchStats` builds the result with the source's two loops and is proved
  equal to the pure `Aggregate`.
- **Strings** (`strings.dfy`): how a number is interpolated into text, and
  the removal of every backtick from a card title.
- **Presenter** (`presenter.dfy`): the card, the cooldown notice, the
  cooldown duration text and the mode menu, all as plain records.
- **Cooldown** (`cooldown.dfy`): the per-user rate limit. `CooldownTable`
  is a class whose `map` field its method `Check` updates in place. `Check`
  is proved against the pure `Decide` and `Record`.
- **Cache** (`cache.dfy`): the response cache. `ResponseCache` is a class
  whose `map` field is updated in place, proved against the pure `LookupStep`.
- **Bot** (`bot.dfy`): the command handler and the menu-selection handler,
  as methods of `Bot`. Each is proved against a pure function of the old
  tables (`Command`, `Select`).

The current time, the premium user list and the outcome of the HTTP
lookups are parameters. `Upstream.Failed` stands for any request that threw.
`Upstream.Answered(player)` carries the stats provider's player record,
which may be absent.

Three behaviours of the code are easy to miss:

- An unknown username makes the identity request throw, so the command
  answers `Error occurred`. Only an empty `player` in the stats response
  gives `Player not found.`.
- Two invocations in the same millisecond leave a remaining wait of exactly
  `COOLDOWN`. `Cooldown.Decide` proves `0 < remaining`, and proves
  `remaining <= COOLDOWN` when the stored time is not later than `now`. If
  the clock is set back, the code shows a wait longer than `COOLDOWN`.
- The condition `last && now - last < COOLDOWN` treats a stored time of 0
  as "no entry", and `Cooldown.Decide` does the same.

## Model

| member | source | states |
|---|---|---|
| Registry.Label | index.js:28-44 | a key has a label exactly when it is registered, and that label is its registry entry's |
| Registry.RegistryOrder | index.js:28-44 | the registry lists `overall`, then the six normal modes, then the six merge modes |
| Registry.RegistryDistinct | index.js:28-44 | no mode key is registered twice |
| Registry.TiersDisjoint | index.js:90-110 | `overall`, the normal modes and the merge modes do not overlap |
| Registry.TiersCover | index.js:28-110 | a key is registered exactly when it is `overall`, a normal mode or a merge mode |
| Stats.GetModeStats | index.js:46-53 | each counter is the field `key + "_void_<counter>_bedwars"` when present, 0 otherwise |
| Stats.OverallStats | index.js:83-88 | the overall counters are the unprefixed `void_*_bedwars` fields, 0 when absent |
| Stats.Merge | index.js:55-62 | each of the four counters is the sum of the two inputs' counters |
| Stats.MergeZero | index.js:55-62 | merging is commutative and all-zero counters are its identity |
| Stats.Aggregate | index.js:79-116 | the result has exactly the registered mode keys; overall, normal and merge modes get their tier's counters |
| Stats.AggregateUnique | index.js:81-118 | any map holding exactly the registered modes with their tier's counters is the aggregate |
| Stats.FetchStats | index.js:76-118 | no player record gives no statistics; otherwise the two loops produce exactly `Aggregate` of the Bedwars object (the empty object when absent) |
| Stats.EmptyBlobIsZero | index.js:79-116 | an empty Bedwars object gives all-zero counters for every mode |
| Stats.AggregateReadsOnly | index.js:83-116 | two objects that agree on the 76 field names read aggregate alike |
| Strings.NatToString | index.js:145-150 | a number renders as a non-empty digit string without leading zeros |
| Strings.NatToStringValue | index.js:145-150 | reading the rendered digits back gives the number |
| Strings.NatToStringInjective | index.js:145-150 | distinct numbers render differently |
| Strings.IntToString | index.js:174 | the rendering is non-empty, starts with a minus sign exactly for a negative number, and is otherwise digits |
| Strings.IntToStringValue | index.js:174 | reading a rendered integer back (sign, then digits) gives the integer |
| Strings.StripBackticks | index.js:270 | the result has no backtick and keeps every other character: its multiset of characters is the input's with the backticks removed, and it is the input when that had none |
| Strings.StripConcat | index.js:270 | stripping a concatenation strips each part |
| Presenter.CardFields | index.js:130-151 | six fields in fixed order; a ratio over zero deaths shows exactly the kill count, otherwise the two-decimal quotient |
| Presenter.BuildEmbed | index.js:121-154 | title is the username in double backticks; a mode missing from the stats shows zeros; otherwise the fields show that mode's counters |
| Presenter.ShowsDetermines | index.js:144-151 | the counters shown on a card are determined by its fields |
| Presenter.TitleRoundTrip | index.js:270 | stripping backticks from the title gives back the username exactly when it has no backtick |
| Presenter.Milliseconds | index.js:171-175 | the split `formatCooldown` prints: for a non-negative duration, seconds * 1000 + milliseconds equals it with 0 <= milliseconds < 1000; for a negative one the remainder lies in (-1000, 0] and differs from the duration by a multiple of 1000 (truncating remainder) |
| Presenter.FormatCooldown | index.js:171-175 | for a non-negative wait the text is `<seconds>s, <milliseconds>ms` in plain digits, whose values give back the wait, with at most three millisecond digits |
| Presenter.CooldownNotice | index.js:197-204 | the notice is titled `Cooldown`, red, without fields, and its description quotes the formatted wait and the command name |
| Presenter.Options | index.js:161-166 | one option per entry in order, with the entry's label and key, default exactly when the key is selected |
| Presenter.BuildMenu | index.js:156-169 | the menu `mode_select` lists every registered mode in order, default exactly on the selected key |
| Presenter.DefaultCountOptions | index.js:162-166 | over distinct keys, the number of default options is 1 if the selected key is listed and 0 otherwise |
| Presenter.ExactlyOneDefault | index.js:156-169 | exactly one option is default when the selection is a registered mode, none otherwise |
| Cooldown.Decide | index.js:189-195 | premium users are never throttled; a throttled user waits `COOLDOWN - (now - last)`, which is positive, and at most `COOLDOWN` when the stored time is not later than `now` |
| Cooldown.Record | index.js:189-211 | the table changes only when a non-premium user goes ahead, and then only that user's entry, set to `now` |
| Cooldown.SecondCallWithinWindow | index.js:191-210 | a user accepted at t1 is throttled at any t2 in [t1, t1 + COOLDOWN) for the rest of the window |
| Cooldown.SecondCallAfterWindow | index.js:191-210 | after the window the user is accepted again and the entry moves to the new time |
| Cooldown.CooldownTable.constructor | index.js:26 | the table starts empty |
| Cooldown.CooldownTable.Check | index.js:189-211 | the decision is `Decide` and the new table is `Record` of the old one |
| Cache.LookupStep | index.js:217-233 | a fresh entry (age at most `CACHE_TIME`) is returned unchanged; otherwise the upstream outcome decides, and only a successful fetch writes the username's entry stamped `now` |
| Cache.LookupIsTotal | index.js:217-233 | statistics from the cache or a fetch always cover every registered mode |
| Cache.RepeatWithinWindow | index.js:217-233 | a second lookup within the window after a fetch returns the same statistics from the cache, whatever upstream would answer |
| Cache.StaleRefetches | index.js:219-230 | a stale entry is refetched, and a successful refetch restamps it with `now` |
| Cache.FailureIsNotCached | index.js:221-225 | a missing player or an error leaves the cache unchanged, so the next lookup asks upstream again |
| Cache.ResponseCache.constructor | index.js:25 | the cache starts empty |
| Cache.ResponseCache.GetOrFetch | index.js:217-233 | result and new cache are those of `LookupStep` |
| Bot.CommandReplyFor | index.js:221-255 | a lookup with statistics gives the overall card titled with the username, showing the overall counters (zeros when absent), with the overall menu; otherwise exactly `Player not found.` or `Error occurred` |
| Bot.SelectReplyFor | index.js:280-312 | a lookup with statistics redraws the card for the chosen mode (zeros for an unknown mode) with that mode selected; otherwise exactly `Refetch failed` or `Error` |
| Bot.Command | index.js:181-256 | other commands are ignored; a throttled user gets only the cooldown notice for `Decide`'s remaining wait and this command's name, and no table changes; premium users are never throttled; when the command goes ahead, the invoking user's entry becomes `now`, the cache becomes the lookup's, and the reply is the overall card or the exact message for a missing player or an error |
| Bot.Select | index.js:264-315 | other menus are ignored; the username is the title without backticks; the cache becomes the lookup's; the reply is the card and menu for the chosen mode, or exactly `Refetch failed` or `Error` |
| Bot.SelectAfterCommand | index.js:270-295 | a selection within the window on a freshly fetched card redraws the same player from the same cache entry |
| Bot.CardOfAggregate | index.js:121-138 | a registered mode's card shows its aggregated counters; for a merge mode without deaths the KDR shown is the summed kill count |
| Bot.PlayerNotFoundReply | index.js:210-225 | whenever the command goes ahead without a fresh cache entry, a missing player record yields exactly `Player not found.`, records the invocation and leaves the cache unchanged |
| Bot.Bot.constructor | index.js:21-26 | the bot starts with the given premium list and two empty tables |
| Bot.Bot.HandleCommand | index.js:181-256 | reply and both new tables are those of `Command` |
| Bot.Bot.HandleSelect | index.js:264-315 | reply and new cache are those of `Select` |

## Left out

- The HTTP requests to the identity and stats services (index.js:66-74) are not modelled. Their outcome is the `Upstream` parameter.
- The chat client, login, event dispatch and the builder classes are not modelled. The model does not show acknowledging, editing, updating or following up an interaction; cards and menus are plain records.
- The 300-second component collector and the teardown of the menu (index.js:242-252) are not modelled. They are timer-driven and ignore their only error.
- Concurrent handlers are not modelled. Each handler runs as one atomic step, so two overlapping misses for the same name are not shown.
- The quotient `(k / d).toFixed(2)` is floating-point formatting. It stays uninterpreted as `FieldValue.TwoDecimals(k, d)`.
- Reading `premium.json`, the environment variables and `Date.now()` are not modelled; these values are parameters.
- The model reads the clock once per event. The command handler reads it at index.js:193, 195, 210, 219 and 229, four times on a path that refetches (193, 210, 219, 229); the selection handler reads it at index.js:276 and 289. Two effects are lost:
  - The source stamps a refetched entry (index.js:229) after the two HTTP awaits, later than the freshness test. The model stamps it with the same `now`.
  - The source computes a notice's wait (index.js:195) from a second clock reading, so it can print a zero or negative wait such as `-1s, -1ms`. The model's wait is always positive.
- The card timestamp (`setTimestamp`) and console logging are not modelled.
- Blob values are modelled as whole numbers. JavaScript's exponent notation for numbers of 1e21 and above, and non-numeric field values, are not modelled.
- Lookups whose key names a JavaScript object prototype property (such as `constructor`) are not modelled. The model treats those keys as absent.
- Exceptions thrown by the chat client after the cache is written (for example a failed `editReply`) are not modelled.
- `deploy.js` only registers the command with the chat platform and is not part of this model.
