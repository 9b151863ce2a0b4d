/**
  `Brain.ask` (homelab_brain/brain.py:27-82) and the `Response` it returns
  (homelab_brain/models.py:8-15). The outcomes of the language-model client
  enter as inputs: what `ensure_available` does (reports the server up or
  down, or raises), and what `generate` does with the query and the system
  prompt.
 */
module Brain {
  import opened Text
  import opened ContextModel
  import opened Routing
  import opened Prompt

  /** `Response` without its clock fields: the answer, the confidence, the
      gathered context and its keys. */
  datatype Response = Response(answer: string, confidence: real, metrics: Context, contextGathered: seq<string>)
  {
    /** The `ge=0.0, le=1.0` constraint on `confidence`. */
    predicate ConfidenceInRange() {
      0.0 <= confidence <= 1.0
    }
  }

  /** What `ensure_available` does: returns `True` or `False`, or raises with
      a message (its `print` calls are outside any `try`). */
  datatype Availability = Up | Down | Fails(message: string)

  /** What `generate` does: returns the model's answer, or raises with a message. */
  datatype Generated = Reply(text: string) | Raised(message: string)

  const BlankAnswer: string := "I didn't catch that. What would you like to know?"
  const UnavailableAnswer: string := "Winston is currently unavailable (AI inference server not responding)"

  const Preamble: string :=
    "You are Winston, a helpful AI assistant for homelab management. "
    + "Be concise and direct. Use the system context provided to give accurate answers. "

  /** The system prompt: the fixed instructions, a blank line, the context block. */
  function SystemPrompt(contextText: string): string {
    Preamble + "\n\n" + contextText
  }

  /** The prompt `ask` sends for `query`. */
  function PromptFor(query: string, readings: Readings): string {
    SystemPrompt(PromptText(RoutedContext(query, readings)))
  }

  /** `list(sys_context.keys())`. */
  function KeyNames(keys: seq<Category>): (names: seq<string>)
    ensures |names| == |keys|
    ensures forall i :: 0 <= i < |keys| ==> names[i] == KeyName(keys[i])
  {
    seq(|keys|, i requires 0 <= i < |keys| => KeyName(keys[i]))
  }

  /** The reply to a "Winston is currently unavailable" exception. */
  function FailureAnswer(message: string): string {
    "Winston is currently unavailable (" + message + ")"
  }

  /** The answer an available model's outcome leads to. */
  function ReplyAnswer(g: Generated): string {
    match g
    case Reply(text) => text
    case Raised(message) => FailureAnswer(message)
  }

  /** No name occurs twice. */
  predicate NoRepeats(names: seq<string>) {
    forall i, j :: 0 <= i < j < |names| ==> names[i] != names[j]
  }

  /** `ask`: a blank query is answered at once; otherwise the routed context is
      rendered into the system prompt and the model is asked when it is
      available, with confidence 0.8 for its answer and 0.0 when it is down
      or when `ensure_available` or `generate` raises. */
  function Ask(query: string, readings: Readings, available: Availability, generate: (string, string) -> Generated): (r: Response)
    ensures r.ConfidenceInRange()
    ensures |r.contextGathered| == |r.metrics|
  {
    if Strip(query) == [] then
      Response(BlankAnswer, 1.0, [], [])
    else
      var context := RoutedContext(query, readings);
      ContextOfKeys(RoutedKeys(query), readings);
      var keys := KeyNames(Keys(context));
      match available
      case Fails(message) => Response(FailureAnswer(message), 0.0, context, keys)
      case Down => Response(UnavailableAnswer, 0.0, context, keys)
      case Up =>
        match generate(query, SystemPrompt(PromptText(context)))
        case Reply(text) => Response(text, 0.8, context, keys)
        case Raised(message) => Response(FailureAnswer(message), 0.0, context, keys)
  }

  // ------------------------------------------------------------ properties

  /** An empty or all-whitespace query gets the fixed reply with full
      confidence and no context, whatever the readings and the model do. */
  lemma BlankQuery(query: string, readings: Readings, available: Availability, generate: (string, string) -> Generated)
    requires AllSpace(query)
    ensures Ask(query, readings, available, generate) == Response(BlankAnswer, 1.0, [], [])
  {
  }

  /** Any other query carries the routed context and its key names, in
      insertion order. */
  lemma AnsweredQueryContext(query: string, readings: Readings, available: Availability, generate: (string, string) -> Generated)
    requires !AllSpace(query)
    ensures Ask(query, readings, available, generate).metrics == RoutedContext(query, readings)
    ensures Ask(query, readings, available, generate).contextGathered == KeyNames(RoutedKeys(query))
  {
    ContextOfKeys(RoutedKeys(query), readings);
  }

  /** The confidence is 1.0 exactly for a blank query, 0.8 exactly when the
      model is available and answers, and 0.0 exactly when it is down or
      `ensure_available` or `generate` raises. */
  lemma ConfidenceCases(query: string, readings: Readings, available: Availability, generate: (string, string) -> Generated)
    ensures Ask(query, readings, available, generate).confidence == 1.0 <==> AllSpace(query)
    ensures Ask(query, readings, available, generate).confidence == 0.8
        <==> !AllSpace(query) && available == Up && generate(query, PromptFor(query, readings)).Reply?
    ensures Ask(query, readings, available, generate).confidence == 0.0
        <==> !AllSpace(query) && (available != Up || generate(query, PromptFor(query, readings)).Raised?)
  {
  }

  /** The answer for a non-blank query: the unavailable notice when the
      server is down, the message of an exception from `ensure_available` in
      parentheses, or else what the model's outcome leads to. */
  lemma AnswerCases(query: string, readings: Readings, available: Availability, generate: (string, string) -> Generated)
    requires !AllSpace(query)
    ensures available == Down ==> Ask(query, readings, available, generate).answer == UnavailableAnswer
    ensures available.Fails? ==> Ask(query, readings, available, generate).answer == FailureAnswer(available.message)
    ensures available == Up ==> Ask(query, readings, available, generate).answer == ReplyAnswer(generate(query, PromptFor(query, readings)))
  {
  }

  /** `generate` is called only when `ensure_available` returns `True`: in
      every other case the response does not depend on it. */
  lemma GenerateOnlyWhenUp(query: string, readings: Readings, available: Availability,
                           generate: (string, string) -> Generated, other: (string, string) -> Generated)
    requires available != Up
    ensures Ask(query, readings, available, generate) == Ask(query, readings, available, other)
  {
  }

  /** The system prompt ends with the rendered context, which opens with the
      state header. */
  lemma PromptCarriesContext(query: string, readings: Readings)
    ensures Preamble + "\n\n" + Header <= PromptFor(query, readings)
  {
    var text := PromptText(RoutedContext(query, readings));
    PromptStartsWithHeader(RoutedContext(query, readings));
    assert text[..|Header|] == Header;
    assert PromptFor(query, readings)[..|Preamble| + 2 + |Header|] == Preamble + "\n\n" + Header;
  }

  /** A non-blank query always gathers some context, each key at most once,
      and never a `network` key. */
  lemma GatheredKeys(query: string, readings: Readings, available: Availability, generate: (string, string) -> Generated)
    requires !AllSpace(query)
    ensures |Ask(query, readings, available, generate).contextGathered| > 0
    ensures "network" !in Ask(query, readings, available, generate).contextGathered
    ensures NoRepeats(Ask(query, readings, available, generate).contextGathered)
  {
    AnsweredQueryContext(query, readings, available, generate);
    RoutedNonEmpty(query);
    RoutedInOrder(query);
    var keys := RoutedKeys(query);
    var names := KeyNames(keys);
    forall k | 0 <= k < |names| ensures names[k] != "network" {
      KeyNamesDistinct(keys[k], keys[k]);
    }
    forall i, j | 0 <= i < j < |names| ensures names[i] != names[j] {
      KeyNamesDistinct(keys[i], keys[j]);
    }
  }

  /** Every routed category is among the gathered keys, under its name. */
  lemma GatheredName(query: string, readings: Readings, available: Availability, generate: (string, string) -> Generated, c: Category)
    requires !AllSpace(query) && c in RoutedKeys(query)
    ensures KeyName(c) in Ask(query, readings, available, generate).contextGathered
  {
    AnsweredQueryContext(query, readings, available, generate);
    var keys := RoutedKeys(query);
    var i :| 0 <= i < |keys| && keys[i] == c;
    assert KeyNames(keys)[i] == KeyName(c);
  }

  /** "What's my CPU usage?" gathers the CPU section. */
  lemma CpuQuestion(readings: Readings, available: Availability, generate: (string, string) -> Generated)
    ensures "cpu" in Ask("What's my CPU usage?", readings, available, generate).contextGathered
  {
    var query := "What's my CPU usage?";
    assert query == "What's my " + "CPU" + " usage?";
    assert Lower("CPU") == "cpu";
    KeywordAnywhere(Cpu, "cpu", "What's my ", "CPU", " usage?");
    assert !AllSpace(query) by { assert !IsSpace(query[0]); }
    GatheredName(query, readings, available, generate, Cpu);
  }

  /** "How much disk space?" gathers the disk section and no `network` key. */
  lemma DiskQuestion(readings: Readings, available: Availability, generate: (string, string) -> Generated)
    ensures "disk" in Ask("How much disk space?", readings, available, generate).contextGathered
    ensures "network" !in Ask("How much disk space?", readings, available, generate).contextGathered
  {
    var query := "How much disk space?";
    assert query == "How much " + "disk" + " space?";
    assert Lower("disk") == "disk";
    KeywordAnywhere(Disk, "disk", "How much ", "disk", " space?");
    assert !AllSpace(query) by { assert !IsSpace(query[0]); }
    GatheredName(query, readings, available, generate, Disk);
    GatheredKeys(query, readings, available, generate);
  }
}
