# sopel-search, modelled in Dafny

A model of the command-handling core of the sopel-search plugin for the Sopel
IRC bot. The plugin answers two chat commands with one line each:

- `search` (aliases `ddg`, `g`) asks a DuckDuckGo search client (DDGS), held in
  the bot's shared memory, for one result. It says `title — link` in the channel, or replies
  with a "no results" apology, or, when the provider is rate limited or times
  out, replies with an apology and then refreshes the held client.
- `gsuggest` (also bound to `suggest`) asks Google's autocomplete endpoint,
  normalises the parsed XML answer to a list, and says up to three quoted
  suggestions joined as `'a', 'b' and 'c'`.

The held client has a small lifecycle: `setup` creates it, an hourly timer
replaces it, a failed search replaces it, and `shutdown` deletes it.

Modules, one per concern:

- `Wrappers` (`wrappers.dfy`): `Option`, standing for Python's `None`.
- `Text` (`text.dfy`): Python's `sep.join`, `str.partition` (built on a
  first-occurrence search) and `str.lower`.
- `Config` (`config.py`'s constants, in `config.dfy`): the SafeSearch levels
  `on`/`moderate`/`off`, the default region `us-en` and the default level `moderate`.
- `ClientSlot` (`client_slot.dfy`): the `ddg_search_client` slot. A client is
  identified by its generation: the n-th client ever created is generation n.
  The holder also counts the clients created so far, so "a fresh client" means
  one newer than all of them.
- `Bot` (`bot.dfy`): the trigger (`group(1)` is the command, `group(2)` the
  argument), the core settings (`help_prefix`, `owner`), and the effects a
  handler produces in order (`Reply`, `Say`, `RefreshClient`). It also holds the
  handler's return value (`NOLIMIT` or `None`) and the effect of a list of
  effects on the slot.
- `Search` (`search.dfy`): the `search` handler, as a pure function. Its inputs
  are the settings, the trigger, the provider's outcome (`RateLimited`,
  `TimedOut` or `Results`) and the slot. It returns the request it made, if any,
  the effects, the return value and the slot afterwards.
- `Suggest` (`suggest.dfy`): the `gsuggest` handler, the language derivation,
  the answer-shape normalisation and the top-three formatting.

The network is not executed. The provider's answer, and the parsed
autocomplete answer, are inputs. Each handler's output records the request it
would have sent: the client generation, query, region, SafeSearch name, backend
list and `max_results=1` for `search`; the URL, `output=toolbar`, `hl` and `q`
for `gsuggest`.

## Behaviour worth noting

- Language hint: `(region.partition('-')[1] or 'en').lower()` takes index 1 of
  the partition, which is the separator itself. Any region containing `-` gives
  the hint `-`, and only a region without `-` gives `en`; the default region
  `us-en` gives `-`. `Suggest.Language` and `Suggest.DefaultRegionLanguage`
  state this.
- Absent query: `not trigger.group(2)` is Python truthiness, so only `None` and
  the empty string count as absent. A whitespace-only argument is a query.
- `suggest` and `gsuggest` are bound to the same Google-based handler.
- `gsuggest`'s usage reply always says `gsuggest what?`, even when the user
  typed `suggest`, and the handler returns `None`, not `NOLIMIT`.
- The title/link separator is space, U+2014 EM DASH, space.

## Model

| member | source | states |
|---|---|---|
| ClientSlot.Refresh | sopel_search/plugin.py:39-45 | the slot afterwards holds a client newer than every client created before, in particular newer than the one it replaces, and the slot stays valid |
| ClientSlot.Setup | sopel_search/plugin.py:26-28 | after set-up the slot holds a valid client newer than any created before |
| ClientSlot.Shutdown | sopel_search/plugin.py:31-32 | shutdown succeeds exactly when a client is stored (deleting a missing key raises `KeyError`), and leaves the slot empty |
| ClientSlot.RunPreservesValid | sopel_search/plugin.py:26-45 | any sequence of set-ups, timer ticks, failure refreshes and shutdowns keeps the slot holding only a created client, and never decreases the creation count |
| ClientSlot.RunNeverReinstalls | sopel_search/plugin.py:26-45 | at the end of any such sequence the stored client is either the one there at the start or one created during the sequence |
| ClientSlot.RefreshingRunEndsNewer | sopel_search/plugin.py:26-45 | a sequence containing any set-up or refresh that ends holding a client ends holding one newer than every client existing at its start: a replaced client never comes back |
| ClientSlot.RefreshTwiceDistinct | sopel_search/plugin.py:42-44 | two refreshes in a row install two distinct clients, each newer than the last |
| ClientSlot.SetupThenShutdown | sopel_search/plugin.py:26-32 | set-up followed by shutdown leaves the slot empty with one more client created |
| Bot.Apply | sopel_search/plugin.py:81-88 | effects without a refresh leave the slot unchanged; effects with a refresh leave a client newer than any before; validity is kept |
| Search.Search | sopel_search/plugin.py:50-101 | a request is made exactly when a query is present, and it goes to the held client with the query, region, SafeSearch name, the fixed backend list and one result; the SafeSearch name it sends reads back as the configured level. `NOLIMIT` is returned exactly when the query is absent. Exactly one line is spoken. The slot afterwards is what the effects do to it. A refresh happens exactly on a rate limit or timeout, and the slot is otherwise unchanged. A `say` happens exactly when results are non-empty |
| Search.SearchWithoutQuery | sopel_search/plugin.py:52-57 | with no query the only effect is the reply `<help_prefix><command> what?`, the result is `NOLIMIT`, no request is made, the slot is untouched, and the provider's behaviour makes no difference |
| Search.SearchRateLimited | sopel_search/plugin.py:69-82 | a rate limit gives one apology reply naming the owner, then a refresh that installs a newer client; nothing is said and `None` is returned |
| Search.RateLimitReplyNamesOwner | sopel_search/plugin.py:70-73 | the rate-limit apology contains the configured owner |
| Search.SearchTimedOut | sopel_search/plugin.py:83-89 | a timeout gives exactly the reply "Sorry, the search request timed out. Try again later." and a refresh to a newer client |
| Search.SearchNoResults | sopel_search/plugin.py:91-93 | an empty result list gives exactly "Sorry, no results found for '<query>'." and the slot is unchanged |
| Search.SearchFirstResult | sopel_search/plugin.py:95-101 | non-empty results give exactly one `say` of the first title, the em dash and the first link; later results make no difference; no reply and the slot is unchanged |
| Search.SearchExampleLine | sopel_search/plugin.py:95-101 | a single result titled `T` linking `U` is said as `T — U` |
| Search.FailureThenNextSearchUsesNewClient | sopel_search/plugin.py:61-89 | after a rate-limited or timed-out search, the next search's request goes to a different client, newer than any that existed before the failure |
| Suggest.NormaliseShapeOf | sopel_search/plugin.py:140-149 | normalisation gives back every list of entries from the shape the XML converter produces for it (nothing, a bare mapping, or a list); a list is passed through unchanged whatever its length; only an absent answer or an empty list gives no entries |
| Suggest.Language | sopel_search/plugin.py:129 | the language hint is `-` when the region contains `-` and `en` otherwise, and nothing else |
| Suggest.DefaultRegionLanguage | sopel_search/plugin.py:129 | the default region `us-en` gives the hint `-` |
| Suggest.JoinTopMatchesReference | sopel_search/plugin.py:151-158 | for every non-empty suggestion list the quote, truncate and join steps give the case-by-case form: `'a'` for one, `'a' and 'b'` for two, `'a', 'b' and 'c'` for three or more |
| Suggest.OnlyFirstThreeMatter | sopel_search/plugin.py:151-152 | suggestions after the third do not affect the quoted top three |
| Suggest.AnswerLine | sopel_search/plugin.py:151-160 | the line for a list of answers is a `say` exactly when the list is non-empty, the reply "Sorry, no result." when it is empty, and never a refresh |
| Suggest.Gsuggest | sopel_search/plugin.py:120-160 | `None` is always returned. A request is made exactly when a query is present, with `output=toolbar`, the derived language and the query. Exactly one line and no refresh. With no query the reply is `<help_prefix>gsuggest what?`. Otherwise a `say` happens exactly when there are suggestions, and with none the reply is "Sorry, no result." |
| Suggest.GsuggestSaysReference | sopel_search/plugin.py:151-158 | with suggestions, the one line said is the case-by-case form of the first three |
| Suggest.SuggestIsGsuggest | sopel_search/plugin.py:117-126 | `suggest` and `gsuggest` give identical results for every argument and answer |
| Suggest.FourSuggestionsExample | sopel_search/plugin.py:151-158 | suggestions a, b, c, d are said as `'a', 'b' and 'c'` |
| Suggest.SingleSuggestionExample | sopel_search/plugin.py:147-158 | a single suggestion delivered as a bare mapping is wrapped and said as `'x'` |
| Text.Partition | sopel_search/plugin.py:129 | the three parts concatenate to the input; the middle part is the separator exactly when it occurs, and is empty otherwise; the head contains no occurrence, so the split is at the first occurrence; when the separator is absent the head is the whole input |
| Text.FindFrom | sopel_search/plugin.py:129 | the index found is an occurrence of the separator with none before it; when nothing is found there is no occurrence at all |
| Text.JoinEmptyIff | sopel_search/plugin.py:155-157 | joining with `", "` is empty exactly for no items or one empty item, which is what the `if start:` test distinguishes |
| Text.Lower | sopel_search/plugin.py:129 | lower-casing keeps the length, maps each ASCII capital to its own lower-case letter (`A` to `a`, ..., `Z` to `z`) and leaves every other character alone, so no capital remains and text without one is unchanged |
| Config.ParseLevel | sopel_search/config.py:20-41 | a SafeSearch value reads as the level whose name it is, and as nothing when it names none of the three choices; `Search.Search` uses it to state that the value sent with a request is the configured level's |
| Config.ParseLevelName | sopel_search/config.py:20-41 | every level's name reads back as that level, and every level is one of the listed choices |

## Left out

- Network I/O: the DDGS `text` call and the autocomplete `requests.get` are not executed. Their results are inputs (`Search.Outcome`, `Suggest.Parsed`), and the requests are recorded as data.
- XML parsing: only the shape the converter produces for `toplevel.CompleteSuggestion` is modelled. An entry is reduced to its `suggestion`/`@data` text. Entries lacking those keys raise an uncaught `KeyError` in the code, and the `Entry` type excludes them.
- Search.Search: requires a stored client when a query is present. The code reads `bot.memory['ddg_search_client']` without a default, and a missing key would raise an uncaught `KeyError`.
- Result mappings lacking `title` or `href` also raise `KeyError` in the code. `SearchResult` always has both.
- Logging (`LOGGER.error`, `LOGGER.debug`): these side effects have no behavioural contract.
- Sopel glue is not modelled: command and interval registration, `example`, the `[search] ` output prefix and how Sopel applies it, `define_section`, and the interactive `configure`/`configure_plugin` wizard. The hourly timer appears only as the `IntervalTick` event; its period is not modelled.
- Sopel's validation of the configured values is not part of this model. `Config.ParseLevel` only states which names the three choices have.
- Text.Lower: lower-cases ASCII letters only. Python's `str.lower` follows Unicode case mapping. Here it is only ever applied to `-` or `en`, where the two agree.
- Text.Partition: requires a non-empty separator. Python raises `ValueError` for an empty one, and the plugin always passes `-`.
- Concurrency of the bot's dispatch and timer: the slot is sequential state.
