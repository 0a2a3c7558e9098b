/**
 * The `search` command (aliases `ddg` and `g`): validate the query, ask the
 * held client for one text result, and turn the provider's answer or failure
 * into one line of output, refreshing the client after a failure.
 */
module Search {
  import opened Wrappers
  import opened Bot
  import Config
  import ClientSlot
  import Text

  /** The ordered backend list passed to the provider. */
  const BACKEND: string := "duckduckgo, google, brave, bing"
  /** The number of results requested. */
  const MAX_RESULTS: nat := 1
  /** Space, U+2014 EM DASH, space: the separator between title and link. */
  const EM_DASH_SEPARATOR: string := " \U{2014} "
  const TIMEOUT_REPLY: string := "Sorry, the search request timed out. Try again later."

  /** One provider result; the handler reads only its `title` and `href` keys. */
  datatype SearchResult = SearchResult(title: string, href: string)

  /** What the client's text search does: raise one of its two exceptions, or return results. */
  datatype Outcome = RateLimited | TimedOut | Results(items: seq<SearchResult>)
  {
    predicate Failed() { RateLimited? || TimedOut? }
  }

  /** The arguments of the text-search call, and the generation of the client it goes to. */
  datatype TextRequest = TextRequest(
    client: nat,
    query: string,
    region: string,
    safesearch: string,
    backend: string,
    maxResults: nat)

  /** Everything one invocation does: the call it makes (if any), its effects, its return value, the slot after. */
  datatype SearchStep = SearchStep(
    request: Option<TextRequest>,
    effects: seq<Effect>,
    ret: Return,
    holder: ClientSlot.Holder)

  function UsageReply(core: CoreSettings, t: Trigger): string
  {
    core.helpPrefix + t.command + " what?"
  }

  function RateLimitReply(owner: string): string
  {
    "Sorry, I can't search right now. If this error persists, ask " + owner + " to check my logs."
  }

  function NoResultsReply(query: string): string
  {
    "Sorry, no results found for '" + query + "'."
  }

  function ResultLine(result: SearchResult): string
  {
    result.title + EM_DASH_SEPARATOR + result.href
  }

  /**
   * The `search` handler. The provider's behaviour is the input `outcome`; it is
   * consulted only when a request is made. With a query present, the source reads
   * the slot without a default, so a missing client is an uncaught `KeyError`.
   */
  function Search(
    core: CoreSettings,
    settings: Config.Settings,
    t: Trigger,
    outcome: Outcome,
    h: ClientSlot.Holder): (r: SearchStep)
    requires HasArgument(t) ==> h.slot.Some?
    ensures r.request.Some? <==> HasArgument(t)
    ensures r.request.Some? ==>
              && r.request.value.client == h.slot.value
              && r.request.value.query == t.argument.value
              && r.request.value.region == settings.region
              && r.request.value.safesearch == Config.LevelName(settings.safesearch)
              && Config.ParseLevel(r.request.value.safesearch) == Some(settings.safesearch)
              && r.request.value.backend == "duckduckgo, google, brave, bing"
              && r.request.value.maxResults == 1
    ensures r.ret == NoLimit <==> !HasArgument(t)
    ensures |Spoken(r.effects)| == 1
    ensures r.holder == Apply(h, r.effects)
    ensures Refreshes(r.effects) <==> HasArgument(t) && outcome.Failed()
    ensures r.holder == h <==> !Refreshes(r.effects)
    ensures Says(r.effects) <==> HasArgument(t) && outcome.Results? && |outcome.items| > 0
  {
    if !HasArgument(t) then
      SearchStep(None, [Reply(UsageReply(core, t))], NoLimit, h)
    else
      var query := t.argument.value;
      var request := TextRequest(
        h.slot.value, query, settings.region, Config.LevelName(settings.safesearch),
        BACKEND, MAX_RESULTS);
      match outcome
      case RateLimited =>
        SearchStep(Some(request), [Reply(RateLimitReply(core.owner)), RefreshClient],
                   NoValue, ClientSlot.Refresh(h))
      case TimedOut =>
        SearchStep(Some(request), [Reply(TIMEOUT_REPLY), RefreshClient],
                   NoValue, ClientSlot.Refresh(h))
      case Results(items) =>
        if |items| == 0 then
          SearchStep(Some(request), [Reply(NoResultsReply(query))], NoValue, h)
        else
          SearchStep(Some(request), [Say(ResultLine(items[0]))], NoValue, h)
  }

  /** Without a query: only the usage hint, `NOLIMIT`, no call, and the slot untouched,
      whatever the provider would have done. */
  lemma SearchWithoutQuery(
    core: CoreSettings, settings: Config.Settings, t: Trigger, o1: Outcome, o2: Outcome,
    h: ClientSlot.Holder)
    requires !HasArgument(t)
    ensures Search(core, settings, t, o1, h)
         == Search(core, settings, t, o2, h)
         == SearchStep(None, [Reply(core.helpPrefix + t.command + " what?")], NoLimit, h)
  {
  }

  /** Rate limited: one reply naming the owner, then a refresh that installs a newer client;
      nothing is said to the channel. */
  lemma SearchRateLimited(
    core: CoreSettings, settings: Config.Settings, t: Trigger, h: ClientSlot.Holder)
    requires HasArgument(t) && h.slot.Some? && ClientSlot.Valid(h)
    ensures var r := Search(core, settings, t, RateLimited, h);
      && r.effects == [Reply(RateLimitReply(core.owner)), RefreshClient]
      && r.ret == NoValue
      && r.holder.slot.Some? && r.holder.slot.value > h.slot.value
      && ClientSlot.Valid(r.holder)
  {
  }

  /** The owner's name appears in the rate-limit reply. */
  lemma RateLimitReplyNamesOwner(owner: string)
    ensures exists k :: Text.OccursAt(RateLimitReply(owner), owner, k)
  {
    var prefix := "Sorry, I can't search right now. If this error persists, ask ";
    var k := |prefix|;
    assert RateLimitReply(owner) == prefix + owner + " to check my logs.";
    assert RateLimitReply(owner)[k..k + |owner|] == owner;
    assert Text.OccursAt(RateLimitReply(owner), owner, k);
  }

  /** Timed out: exactly the timeout apology and a refresh; nothing else is said. */
  lemma SearchTimedOut(
    core: CoreSettings, settings: Config.Settings, t: Trigger, h: ClientSlot.Holder)
    requires HasArgument(t) && h.slot.Some? && ClientSlot.Valid(h)
    ensures var r := Search(core, settings, t, TimedOut, h);
      && r.effects == [Reply("Sorry, the search request timed out. Try again later."), RefreshClient]
      && r.ret == NoValue
      && r.holder.slot.value > h.slot.value
  {
  }

  /** No results: exactly the "no results" reply quoting the query; the slot is unchanged. */
  lemma SearchNoResults(
    core: CoreSettings, settings: Config.Settings, t: Trigger, h: ClientSlot.Holder)
    requires HasArgument(t) && h.slot.Some?
    ensures var r := Search(core, settings, t, Results([]), h);
      && r.effects == [Reply("Sorry, no results found for '" + t.argument.value + "'.")]
      && r.ret == NoValue
      && r.holder == h
  {
  }

  /** Results: exactly one `say` of the first result's title, the em dash and its link;
      later results make no difference and the slot is unchanged. */
  lemma SearchFirstResult(
    core: CoreSettings, settings: Config.Settings, t: Trigger, items: seq<SearchResult>,
    h: ClientSlot.Holder)
    requires HasArgument(t) && h.slot.Some? && |items| > 0
    ensures var r := Search(core, settings, t, Results(items), h);
      && r.effects == [Say(items[0].title + " \U{2014} " + items[0].href)]
      && r.ret == NoValue
      && r.holder == h
      && r == Search(core, settings, t, Results(items[..1]), h)
  {
  }

  /** A single result with title "T" and link "U" gives exactly "T — U". */
  lemma SearchExampleLine(core: CoreSettings, settings: Config.Settings, h: ClientSlot.Holder)
    requires h.slot.Some?
    ensures Search(core, settings, Trigger("search", Some("q")),
                   Results([SearchResult("T", "U")]), h).effects
         == [Say("T \U{2014} U")]
  {
    assert ResultLine(SearchResult("T", "U")) == "T \U{2014} U";
  }

  /**
   * After a failed search, the next search goes to a different, newer client than
   * the one that failed: the refresh is visible to the following invocation.
   */
  lemma FailureThenNextSearchUsesNewClient(
    core: CoreSettings, settings: Config.Settings, t1: Trigger, failure: Outcome,
    t2: Trigger, next: Outcome, h: ClientSlot.Holder)
    requires HasArgument(t1) && HasArgument(t2) && h.slot.Some? && ClientSlot.Valid(h)
    requires failure.Failed()
    ensures var first := Search(core, settings, t1, failure, h);
      var second := Search(core, settings, t2, next, first.holder);
      && second.request.value.client != first.request.value.client
      && second.request.value.client > h.created
  {
    var first := Search(core, settings, t1, failure, h);
    assert first.holder == ClientSlot.Refresh(h);
  }
}
