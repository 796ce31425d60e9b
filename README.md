# Poetry agent orchestrator: a Dafny model

The poetry assistant takes a user's message and runs it through a fixed
two-stage pipeline. First a poet agent writes or processes a poem. Then one of
three analyst agents (Lyric, Narrative or Dramatic) analyses that poem. The
analyst is chosen by a keyword router. The router lowercases the poet's output
and tests for Dramatic keywords (`dialogue`, `voice`, `stage`, `guftagu`,
`aawaz`). If none occurs, it tests for Narrative keywords (`story`,
`character`, `event`, `kahani`, `kirdar`). If neither list matches, it falls
back to the Lyric analyst. The chosen analyst receives the poet's text as
written, and its output is the run's result.

The model is made of functions and lemmas, in three modules:

- `Text` (`text.dfy`): ASCII case folding (`Lower`, and `Upper` for stating
  case-insensitivity) and Python's substring test `sub in text` (`Contains`),
  proved equal to "occurs at some position" (`OccursAt`).
- `Router` (`router.dfy`): the `Category` datatype, the two keyword lists, the
  analyst names, and the router `Classify`. Its lemmas cover the priority
  order, the Lyric default, case-insensitivity, and substring matching inside
  longer words.
- `Pipeline` (`pipeline.dfy`): `Run`, the orchestrator. It is composed from two
  function parameters that stand for the model calls: `generate` (the poet) and
  `analyst(c)` (the analyst of category `c`). Each returns `Ok(text)` or
  `Err(message)`. Its lemmas cover error propagation, the single analyst
  consulted, and the name of the last agent.

Routing is a total function into a three-valued datatype. So every text,
including the empty one, selects exactly one analyst, and routing cannot fail.
`Classify` and `Run` are functions, so runs are deterministic. Given the same
poet and analyst results, `Run` always returns the same reply.

The orchestrator's instructions (main.py:80) say to delegate to all analysts
when the type is unclear. The code always picks exactly one analyst, and the
model follows the code.

Errors are not wrapped or tagged by stage. The code lets the underlying
exception pass through unchanged, and the chat handler shows its message
(main.py:127-129). `Run` therefore returns the failing stage's message
verbatim.

## Model

| member | source | states |
|---|---|---|
| Text.Lower | main.py:58 | the folded text has the same length as the input; each character is folded on its own; no ASCII capital letter is left |
| Text.LowerOfUpper | main.py:58 | folding an upper-cased text gives the same result as folding the original text |
| Text.Contains | main.py:61-63 | Python's `sub in text`; no contract of its own; specified by Text.ContainsIffOccurs |
| Text.ContainsIffOccurs | main.py:61 | the `in` test on strings holds exactly when the keyword occurs at some position of the text |
| Text.ContainsInfix | main.py:61-63 | a keyword with any text before and after it is contained in the whole text |
| Router.AnalystName | main.py:23-49 | the display names "Lyric Analyst Agent", "Narrative Analyst Agent" and "Dramatic Analyst Agent" (main.py:24, 34, 43); no contract of its own; specified by Router.AnalystNamesDistinct |
| Router.AnalystNamesDistinct | main.py:23-49 | the three analyst names are pairwise different and differ from the poet's name |
| Router.KeywordsAreLowercase | main.py:61-63 | every keyword is written in small letters, so it can match the lowercased poem |
| Router.ContainsAny | main.py:61-63 | the left-to-right `or` chain of `in` tests over one keyword list; no contract of its own; specified by Router.ContainsAnyIffMentions |
| Router.ContainsAnyIffMentions | main.py:61-63 | a chain of `or`-ed `in` tests over a keyword list succeeds exactly when some keyword of the list occurs in the text |
| Router.Classify | main.py:57-66 | the router: lowercase, test the constants DramaticKeywords (main.py:61), then NarrativeKeywords (main.py:63), else Lyric; no contract of its own; specified by Router.ClassifySpec |
| Router.ClassifySpec | main.py:57-66 | Dramatic iff a Dramatic keyword occurs in the lowercased text; Narrative iff no Dramatic keyword occurs and a Narrative keyword does; Lyric iff neither list occurs |
| Router.DramaticOutranksNarrative | main.py:61-64 | with both a Dramatic and a Narrative keyword present, Dramatic is chosen |
| Router.LyricIsDefault | main.py:65-66 | with no keyword from either list, Lyric is chosen |
| Router.EmptyIsLyric | main.py:58-66 | the empty text is routed to Lyric |
| Router.ClassifyIgnoresCase | main.py:58 | two texts that are equal up to ASCII case are routed alike |
| Router.ClassifyCaseInsensitive | main.py:58-66 | routing a text, its lowercase form and its uppercase form gives the same analyst |
| Router.EmbeddedDramaticKeyword | main.py:61-62 | a Dramatic keyword with any text around it routes to Dramatic, even inside a longer word |
| Router.EmbeddedNarrativeKeyword | main.py:63-64 | a Narrative keyword with any text around it routes to Narrative when no Dramatic keyword occurs |
| Router.BackstageIsDramatic | main.py:61-62 | "backstage" is routed to Dramatic because it contains "stage" |
| Router.StorybookIsNarrative | main.py:63-64 | "storybook" is routed to Narrative because it contains "story" and no Dramatic keyword |
| Pipeline.LastAgentName | main.py:122 | the name shown as the last agent used, taken to be the analyst of the reply's routed category (an assumption about the agents library, see Left out); no contract of its own; specified by Pipeline.LastAgentIsRoutedAnalyst |
| Pipeline.Run | main.py:53-70 | a poet failure is the run's error; otherwise the run succeeds iff the chosen analyst does on the poet's original text; success returns that analyst's text and its category; failure returns that analyst's message |
| Pipeline.PoetFailureSkipsAnalysts | main.py:55 | when the poet fails, the result is the poet's error and does not depend on any analyst |
| Pipeline.OnlyChosenAnalystConsulted | main.py:69-70 | the run depends on only one analyst call: the routed category applied to the original poem |
| Pipeline.LastAgentIsRoutedAnalyst | main.py:61-70 | a successful run names the routed analyst as the last agent, never the poet |
| Pipeline.RoutingIgnoresCaseOfPoem | main.py:58-69 | poet outputs that differ only in ASCII case are routed to the same analyst, whether or not that analyst then succeeds |
| Pipeline.StageGoesToDramaticAnalyst | main.py:61-70 | a poem containing "stage" anywhere is analysed by the Dramatic analyst; that analyst's text is the reply, or its error is the run's error |
| Pipeline.NoKeywordGoesToLyricAnalyst | main.py:65-70 | a poem with no keyword is analysed by the Lyric analyst; that analyst's error, if any, is the run's error |

## Left out

- Pipeline.LastAgentName: the overridden `run` returns only the analyst's output (main.py:70) and no category. The name shown at main.py:122 is `result.last_agent.name`, which the agents library's `Runner.run` fills in (main.py:114-118). `Reply`'s category stands for that `last_agent`, and the model assumes the library reports the routed analyst there. `Pipeline.LastAgentIsRoutedAnalyst` rests on the same assumption.
- Text.Lower: folds only the ASCII letters A-Z. Python's `str.lower()` folds all of Unicode. Some non-ASCII characters lowercase to ASCII letters in Python (the Kelvin sign U+212A becomes `k`), so Python can route such text differently. All keywords are ASCII.
- The chat handlers `start` and `main_chainlit_runner` (main.py:91-129) only display messages. The part that matters is that an error reaches the user as its message, and `Run`'s `Err` case covers it.
- The poet and analyst agents' `run` calls (main.py:55, 69) are language-model calls into libraries that are not part of this model. They are the parameters `generate` and `analyst`. The shared run configuration `config` is folded into them.
- The agents' natural-language instructions (main.py:11-19, 25-30, 35-39, 44-48, 75-85) are prompt text, not logic.
- The `handoffs` list of the parent agent (main.py:86) is not used by its overridden `run`. Whether `Runner.run` dispatches to that `run` (main.py:114-118) is library behaviour and is not part of this model.
- `async`/`await`: each run executes its stages strictly one after another. The model is a plain sequential composition.
