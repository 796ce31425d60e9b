/**
 * The orchestrator of the poetry assistant: one call to the poet, routing on
 * its output, one call to the chosen analyst, whose output is the reply.
 * The language-model calls are parameters: `generate` stands for the poet
 * agent and `analyst(c)` for the analyst agent of category `c`.
 */
module Pipeline {
  import opened Router

  /** The outcome of a model call: its text, or the message of the error it raised. */
  datatype Result<T> = Ok(value: T) | Err(message: string)

  /** What a successful run hands back: the analyst's text and the category the poem was routed to. */
  datatype Reply = Reply(finalOutput: string, category: Category)

  /**
   * The name shown as the last agent used, taken to be the analyst of the
   * category the poem was routed to.
   */
  function LastAgentName(reply: Reply): string {
    AnalystName(reply.category)
  }

  /**
   * One run of the orchestrator. A failing poet call ends the run with its
   * error before anything is routed or analysed; otherwise the poet's output
   * is routed on its lowercased copy and handed, as written, to the one
   * chosen analyst, whose result (text or error) is the run's result.
   */
  function Run(input: string, generate: string -> Result<string>,
               analyst: Category -> string -> Result<string>): (r: Result<Reply>)
    ensures generate(input).Err? ==> r == Err(generate(input).message)
    ensures generate(input).Ok? ==>
      var poem := generate(input).value;
      var chosen := Classify(poem);
      && (r.Ok? <==> analyst(chosen)(poem).Ok?)
      && (r.Ok? ==> r.value == Reply(analyst(chosen)(poem).value, chosen))
      && (r.Err? ==> r.message == analyst(chosen)(poem).message)
  {
    match generate(input)
    case Err(e) => Err(e)
    case Ok(poetOutput) =>
      var next := Classify(poetOutput);
      match analyst(next)(poetOutput)
      case Err(e) => Err(e)
      case Ok(finalOutput) => Ok(Reply(finalOutput, next))
  }

  /**
   * When the poet fails no analyst is consulted: the run ends with the poet's
   * error, whatever the analysts would have done.
   */
  lemma PoetFailureSkipsAnalysts(input: string, generate: string -> Result<string>,
                                 analyst1: Category -> string -> Result<string>,
                                 analyst2: Category -> string -> Result<string>)
    requires generate(input).Err?
    ensures Run(input, generate, analyst1) == Run(input, generate, analyst2)
    ensures Run(input, generate, analyst1) == Err(generate(input).message)
  {
  }

  /**
   * Only the chosen analyst, and only on the poet's original text, matters:
   * two analyst tables that agree on that one call give the same run, however
   * they differ on the other categories or on other (say, lowercased) texts.
   */
  lemma OnlyChosenAnalystConsulted(input: string, generate: string -> Result<string>,
                                   analyst1: Category -> string -> Result<string>,
                                   analyst2: Category -> string -> Result<string>)
    requires generate(input).Ok?
    requires var poem := generate(input).value;
      analyst1(Classify(poem))(poem) == analyst2(Classify(poem))(poem)
    ensures Run(input, generate, analyst1) == Run(input, generate, analyst2)
  {
  }

  /**
   * A successful run always names one of the three analysts as the last
   * agent, never the poet, and it is the analyst the router chose.
   */
  lemma LastAgentIsRoutedAnalyst(input: string, generate: string -> Result<string>,
                                 analyst: Category -> string -> Result<string>)
    requires Run(input, generate, analyst).Ok?
    ensures generate(input).Ok?
    ensures LastAgentName(Run(input, generate, analyst).value)
         == AnalystName(Classify(generate(input).value))
    ensures LastAgentName(Run(input, generate, analyst).value) != PoetName
  {
    AnalystNamesDistinct(Run(input, generate, analyst).value.category, Lyric);
  }

  /**
   * Poet outputs that differ only in ASCII case are routed to the same
   * analyst, whether or not that analyst then succeeds; each analyst receives
   * its own poet's text unchanged.
   */
  lemma RoutingIgnoresCaseOfPoem(input: string, generate1: string -> Result<string>,
                                 generate2: string -> Result<string>,
                                 analyst: Category -> string -> Result<string>)
    requires generate1(input).Ok? && generate2(input).Ok?
    requires Text.Lower(generate1(input).value) == Text.Lower(generate2(input).value)
    ensures Classify(generate1(input).value) == Classify(generate2(input).value)
    ensures Run(input, generate1, analyst).Ok? && Run(input, generate2, analyst).Ok? ==>
      Run(input, generate1, analyst).value.category
        == Run(input, generate2, analyst).value.category
  {
    ClassifyIgnoresCase(generate1(input).value, generate2(input).value);
  }

  /**
   * A poet output with a Dramatic keyword anywhere in it (for instance the
   * word "stage") is analysed by the Dramatic analyst, regardless of the rest;
   * that analyst's text, or its error, is the run's result.
   */
  lemma StageGoesToDramaticAnalyst(input: string, generate: string -> Result<string>,
                                   analyst: Category -> string -> Result<string>,
                                   before: string, after: string)
    requires generate(input) == Ok(before + "stage" + after)
    ensures Run(input, generate, analyst) ==
      match analyst(Dramatic)(before + "stage" + after)
      case Ok(text) => Ok(Reply(text, Dramatic))
      case Err(e) => Err(e)
  {
    assert "stage" == DramaticKeywords[2];
    EmbeddedDramaticKeyword(before, 2, after);
  }

  /**
   * A poet output without any keyword is analysed by the Lyric analyst; if
   * that analyst fails, the run fails with its message and the poem is dropped.
   */
  lemma NoKeywordGoesToLyricAnalyst(input: string, generate: string -> Result<string>,
                                    analyst: Category -> string -> Result<string>)
    requires generate(input).Ok?
    requires !Mentions(Text.Lower(generate(input).value), DramaticKeywords)
    requires !Mentions(Text.Lower(generate(input).value), NarrativeKeywords)
    ensures var poem := generate(input).value;
      Run(input, generate, analyst) ==
        match analyst(Lyric)(poem)
        case Ok(text) => Ok(Reply(text, Lyric))
        case Err(e) => Err(e)
  {
    LyricIsDefault(generate(input).value);
  }
}
