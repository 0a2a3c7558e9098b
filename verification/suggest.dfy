/**
 * The `gsuggest` command (also bound to `suggest`): derive a language hint from
 * the configured region, ask Google's autocomplete endpoint, normalise the
 * parsed answer to a list, and say up to three quoted suggestions joined as
 * `'a', 'b' and 'c'`.
 */
module Suggest {
  import opened Wrappers
  import opened Bot
  import Config
  import Text

  const SUGGEST_URL: string := "https://suggestqueries.google.com/complete/search"
  const OUTPUT_FORMAT: string := "toolbar"
  const NO_RESULT_REPLY: string := "Sorry, no result."
  /** The language used when the region yields nothing. */
  const FALLBACK_LANGUAGE: string := "en"

  /** The query parameters of the autocomplete GET request. */
  datatype SuggestRequest = SuggestRequest(url: string, output: string, hl: string, q: string)
  datatype SuggestStep = SuggestStep(request: Option<SuggestRequest>, effects: seq<Effect>, ret: Return)

  /** One `CompleteSuggestion` element, reduced to its `suggestion` child's `@data` attribute. */
  datatype Entry = Entry(data: string)

  /**
   * The shape the XML-to-mapping conversion gives `toplevel.CompleteSuggestion`:
   * no `toplevel` content at all, a single mapping, or a list of mappings.
   */
  datatype Parsed = Absent | Single(entry: Entry) | Many(entries: seq<Entry>)

  /**
   * The cardinality-dependent shape the converter produces for a list of
   * entries: nothing for none, a bare mapping for one, a list for more.
   */
  function ShapeOf(entries: seq<Entry>): Parsed
  {
    if |entries| == 0 then Absent
    else if |entries| == 1 then Single(entries[0])
    else Many(entries)
  }

  /** The handler's normalisation of the parsed answer to a list of entries. */
  function Normalise(p: Parsed): seq<Entry>
  {
    match p
    case Absent => []
    case Single(e) => [e]
    case Many(es) => es
  }

  /**
   * Normalisation undoes the converter's shape choice: every list of entries
   * comes back intact, a list is passed through whatever its length, and only
   * an absent answer or an empty list yields no entries.
   */
  lemma NormaliseShapeOf(entries: seq<Entry>, p: Parsed)
    ensures Normalise(ShapeOf(entries)) == entries
    ensures Normalise(Many(entries)) == entries
    ensures Normalise(p) == [] <==> p.Absent? || p == Many([])
  {
  }

  /** The language hint: `(region.partition('-')[1] or 'en').lower()`. */
  function Language(region: string): (r: string)
    ensures r == "-" || r == "en"
    ensures r == "-" <==> '-' in region
  {
    var separator := Text.Partition(region, "-").1;
    Text.OccursAtSingle(region, '-');
    Text.Lower(if separator != "" then separator else FALLBACK_LANGUAGE)
  }

  /** For the default region the hint is the separator itself, not the language part after it. */
  lemma DefaultRegionLanguage()
    ensures Language(Config.DEFAULTS.region) == "-"
  {
    assert Config.DEFAULTS.region[2] == '-';
  }

  function Quote(s: string): string
  {
    "'" + s + "'"
  }

  /** Each entry's text in single quotes, in order. */
  function QuoteAll(entries: seq<Entry>): seq<string>
  {
    seq(|entries|, i requires 0 <= i < |entries| => Quote(entries[i].data))
  }

  /** Python's `xs[:3]`. */
  function TopThree<T>(xs: seq<T>): (r: seq<T>)
    ensures |r| == if |xs| < 3 then |xs| else 3
    ensures forall i :: 0 <= i < |r| ==> r[i] == xs[i]
  {
    if |xs| < 3 then xs else xs[..3]
  }

  /**
   * The handler's joining of the (non-empty) top three: all but the last joined
   * with ", ", then " and " if that is non-empty, then the last.
   */
  function JoinTop(top: seq<string>): string
    requires |top| > 0
  {
    var start := Text.Join(", ", top[..|top| - 1]);
    (if start != "" then start + " and " else start) + top[|top| - 1]
  }

  /** The promised reply for one, two, or three suggestions, spelled out case by case. */
  function ReferenceList(texts: seq<string>): string
    requires 1 <= |texts| <= 3
  {
    if |texts| == 1 then Quote(texts[0])
    else if |texts| == 2 then Quote(texts[0]) + " and " + Quote(texts[1])
    else Quote(texts[0]) + ", " + Quote(texts[1]) + " and " + Quote(texts[2])
  }

  function Texts(entries: seq<Entry>): seq<string>
  {
    seq(|entries|, i requires 0 <= i < |entries| => entries[i].data)
  }

  /**
   * The handler's quote-truncate-join agrees with the case-by-case reference on
   * every non-empty list: because each item is quoted, the joined start is never
   * empty once there are two items, so " and " is always inserted then.
   */
  lemma {:induction false} JoinTopMatchesReference(entries: seq<Entry>)
    requires |entries| > 0
    ensures JoinTop(TopThree(QuoteAll(entries))) == ReferenceList(TopThree(Texts(entries)))
  {
    var top := TopThree(QuoteAll(entries));
    var texts := TopThree(Texts(entries));
    var init := top[..|top| - 1];
    Text.JoinEmptyIff(", ", init);
    if |top| == 1 {
      assert init == [];
    } else if |top| == 2 {
      assert init == [top[0]];
      assert Text.Join(", ", init) == Quote(texts[0]);
    } else {
      assert init == [top[0], top[1]];
      assert init[1..] == [top[1]];
      assert Text.Join(", ", init) == Quote(texts[0]) + ", " + Quote(texts[1]);
    }
  }

  /** Only the first three entries matter. */
  lemma OnlyFirstThreeMatter(entries: seq<Entry>)
    requires |entries| >= 3
    ensures TopThree(QuoteAll(entries)) == TopThree(QuoteAll(entries[..3]))
  {
  }

  /**
   * The line for the parsed answer: all quoted answers, and if there are any,
   * a `say` of the first three joined; otherwise the "no result" reply.
   */
  function AnswerLine(entries: seq<Entry>): (e: Effect)
    ensures e.Say? <==> |entries| > 0
    ensures |entries| == 0 ==> e == Reply("Sorry, no result.")
    ensures !e.RefreshClient?
  {
    var answers := QuoteAll(entries);
    assert |answers| == |entries|;
    if |answers| > 0 then Say(JoinTop(TopThree(answers))) else Reply(NO_RESULT_REPLY)
  }

  /**
   * The `gsuggest` handler. The endpoint's reply, already parsed, is the input
   * `parsed`; it is consulted only when a request is made.
   */
  function Gsuggest(core: CoreSettings, settings: Config.Settings, t: Trigger, parsed: Parsed): (r: SuggestStep)
    ensures r.ret == NoValue
    ensures r.request.Some? <==> HasArgument(t)
    ensures r.request.Some? ==>
              r.request.value == SuggestRequest(SUGGEST_URL, "toolbar", Language(settings.region), t.argument.value)
    ensures |r.effects| == 1 && !r.effects[0].RefreshClient?
    ensures !HasArgument(t) ==> r.effects == [Reply(core.helpPrefix + "gsuggest what?")]
    ensures HasArgument(t) ==> (r.effects[0].Say? <==> |Normalise(parsed)| > 0)
    ensures HasArgument(t) && |Normalise(parsed)| == 0 ==> r.effects == [Reply("Sorry, no result.")]
  {
    if !HasArgument(t) then
      SuggestStep(None, [Reply(core.helpPrefix + "gsuggest what?")], NoValue)
    else
      var request := SuggestRequest(SUGGEST_URL, OUTPUT_FORMAT, Language(settings.region), t.argument.value);
      SuggestStep(Some(request), [AnswerLine(Normalise(parsed))], NoValue)
  }

  /** With suggestions, the one line said is the reference list of the first three. */
  lemma GsuggestSaysReference(core: CoreSettings, settings: Config.Settings, t: Trigger, parsed: Parsed)
    requires HasArgument(t) && |Normalise(parsed)| > 0
    ensures Gsuggest(core, settings, t, parsed).effects
         == [Say(ReferenceList(TopThree(Texts(Normalise(parsed)))))]
  {
    JoinTopMatchesReference(Normalise(parsed));
  }

  /** `suggest` and `gsuggest` behave identically: the handler never reads the command name. */
  lemma SuggestIsGsuggest(
    core: CoreSettings, settings: Config.Settings, argument: Option<string>, parsed: Parsed)
    ensures Gsuggest(core, settings, Trigger("suggest", argument), parsed)
         == Gsuggest(core, settings, Trigger("gsuggest", argument), parsed)
  {
  }

  /** Suggestions a, b, c, d give exactly 'a', 'b' and 'c'. */
  lemma FourSuggestionsExample(core: CoreSettings, settings: Config.Settings)
    ensures Gsuggest(core, settings, Trigger("gsuggest", Some("q")),
                     Many([Entry("a"), Entry("b"), Entry("c"), Entry("d")])).effects
         == [Say("'a', 'b' and 'c'")]
  {
    var parsed := Many([Entry("a"), Entry("b"), Entry("c"), Entry("d")]);
    assert TopThree(Texts(Normalise(parsed))) == ["a", "b", "c"] by {
      var texts := TopThree(Texts(Normalise(parsed)));
      assert |texts| == 3 && texts[0] == "a" && texts[1] == "b" && texts[2] == "c";
    }
    assert ReferenceList(["a", "b", "c"]) == "'a', 'b' and 'c'" by {
      assert "'a'" + ", " == "'a', ";
      assert "'a', " + "'b'" == "'a', 'b'";
      assert "'a', 'b'" + " and " == "'a', 'b' and ";
    }
    GsuggestSaysReference(core, settings, Trigger("gsuggest", Some("q")), parsed);
  }

  /** A single suggestion, delivered as a bare mapping, is still said on its own. */
  lemma SingleSuggestionExample(core: CoreSettings, settings: Config.Settings)
    ensures Gsuggest(core, settings, Trigger("gsuggest", Some("q")), Single(Entry("x"))).effects
         == [Say("'x'")]
  {
    var parsed := Single(Entry("x"));
    assert TopThree(Texts(Normalise(parsed))) == ["x"] by {
      var texts := TopThree(Texts(Normalise(parsed)));
      assert |texts| == 1 && texts[0] == "x";
    }
    assert ReferenceList(["x"]) == "'x'";
    GsuggestSaysReference(core, settings, Trigger("gsuggest", Some("q")), parsed);
  }
}
