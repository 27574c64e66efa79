# GenAI course scripts: a Dafny model of their pure logic

The repository is a set of small, independent teaching scripts. Three of
them contain logic that does not depend on a network service, and this
project models that logic and proves properties of it:

- **Word-frequency counter** (`HW_01_Python_review/text_processor.py`).
  `clean_text` deletes URLs, email addresses and punctuation. `str.split()`
  then tokenises the text on whitespace. `remove_stopwords` drops a fixed set
  of 29 Persian stop words, and `count_word_frequencies` turns the remaining
  words into a word → count dictionary (`dict(Counter(words))`).
- **Meal recommender** (`iranian_meal_bot_01/streamlit_food_recommend_app.py`).
  `info_score` rates how much the user wrote in the form: up to five points
  for comma-separated ingredients, plus one point for each select box that
  is not `"any"`. A score below 2 means no language model is asked. Instead
  the bot answers with a fixed-format "FALLBACK RECOMMENDATION" naming a meal
  drawn from the `IRANIAN_MEALS` table.
- **Healthcare RAG script** (`RAG_02/healthcare_app_RAG.py`).
  `build_context` serialises the retrieved `{content, source}` records into
  one text, one `Source: …\nContent: …\n\n` block per document. `main`
  stops early when retrieval returns no document.

Layout, one Dafny module per file:

- `seqs.dfy` (`Seqs`): the list-comprehension filter, `sep.join`, `s.split(sep)`
  and the laws they obey.
- `strings.dfy` (`Strings`): Python's whitespace class, `str.strip()` and the
  argument-less `str.split()`.
- `text_processor.dfy` (`TextProcessor`), `meal_bot.dfy` (`MealBot`),
  `healthcare_rag.dfy` (`HealthcareRag`): the three scripts.

Modelling choices:

- Strings are `seq<char>` and integers are unbounded. No operation here
  depends on integer width.
- Python's `str.isspace()`, the regex class `\s` on `str`, and the
  splitting done by `str.split()` and `str.strip()` all use one set of
  whitespace characters. `Strings.IsSpace` lists that set explicitly.
- The regex class `\w` (Unicode letters, digits and underscore) is a
  parameter `isWord: char -> bool`. The URL and email substitutions are
  parameters `string -> string` (`TextProcessor.Patterns`). Properties that
  hold for every choice of these parameters hold for Python's choice.
- `random.choice(IRANIAN_MEALS)` becomes a parameter `pick`, an arbitrary
  valid index into the table.
- `Counter` is modelled as the left-to-right loop it runs. The loop adds 1
  to a word's count, or creates the entry at 1 (`TextProcessor.Bump`).
- `build_context` is modelled twice: as the loop it is
  (`HealthcareRag.BuildContext`), and as a reference definition
  (`HealthcareRag.Context`). The proofs show the two agree.
- The code and its documentation disagree in two places, and the model
  follows the code in both. First, the counter writes its output to the
  fixed name `word_frequencies.json`, whatever output path it was given;
  the model leaves file names out. Second, the comments of the meal bot
  say the local answer may also be enriched by a call to the model
  (`streamlit_food_recommend_app.py` lines 230 and 233), but
  `st.experimental_rerun()` at line 237 ends the run first, so no such call
  is made; `MealBot.Recommend` returns either the local answer or a model
  request, never both.

## Model

| member | source | states |
|---|---|---|
| Seqs.Filter | HW_01_Python_review/text_processor.py:42 | the comprehension keeps exactly the input elements satisfying the predicate, and never produces more elements than it was given |
| Seqs.SplitOn | iranian_meal_bot_01/streamlit_food_recommend_app.py:73 | `s.split(",")` always yields at least one piece, and no piece contains a comma |
| Seqs.SplitOnPiecesFrom | iranian_meal_bot_01/streamlit_food_recommend_app.py:73 | every character of every comma-separated piece comes from the split text |
| Seqs.JoinSplitOn | iranian_meal_bot_01/streamlit_food_recommend_app.py:73 | joining the comma-split pieces with "," gives the original text back (nothing is lost by splitting) |
| Seqs.SplitOnAppend | iranian_meal_bot_01/streamlit_food_recommend_app.py:73 | splitting `a + "," + b` gives the pieces of `a` followed by those of `b` |
| Strings.Strip | iranian_meal_bot_01/streamlit_food_recommend_app.py:71 | a non-empty `strip()` result neither starts nor ends with whitespace |
| Strings.StripIsSlice | iranian_meal_bot_01/streamlit_food_recommend_app.py:71 | `s.strip()` is the slice of `s` that starts where the leading whitespace ends |
| Strings.StripCutsWhitespace | iranian_meal_bot_01/streamlit_food_recommend_app.py:71 | everything `s.strip()` cuts away, before and after the kept slice, is whitespace |
| Strings.TrimStart | iranian_meal_bot_01/streamlit_food_recommend_app.py:71 | the left strip is a suffix of the input; everything it cut was whitespace; it starts with a non-space |
| Strings.TrimEnd | iranian_meal_bot_01/streamlit_food_recommend_app.py:71 | the right strip is a prefix of the input; everything it cut was whitespace; it ends with a non-space |
| Strings.StripEmptyIff | iranian_meal_bot_01/streamlit_food_recommend_app.py:71 | `s.strip()` is falsy exactly when every character of `s` is whitespace, in both directions |
| Strings.SplitWhitespace | HW_01_Python_review/text_processor.py:67 | `split()` yields only non-empty tokens without whitespace, made of characters of the text |
| Strings.SplitWhitespaceKeepsText | HW_01_Python_review/text_processor.py:67 | the tokens glued together are the text with its whitespace removed: no other character is lost, added or reordered |
| Strings.SplitWhitespaceOfToken | HW_01_Python_review/text_processor.py:67 | a single whitespace-free, non-empty word splits into itself |
| Strings.SplitWhitespaceAppend | HW_01_Python_review/text_processor.py:67 | every whitespace character separates tokens: splitting `a`, a whitespace character, `b` gives the tokens of `a` followed by those of `b` |
| Strings.SplitJoinRoundTrip | HW_01_Python_review/text_processor.py:67 | splitting well-formed tokens joined by single spaces gives those tokens back |
| TextProcessor.StripPunctuation | HW_01_Python_review/text_processor.py:36 | after removing `[^\w\s]`, only word characters and whitespace remain; each of them occurs as often as in the input, every other character occurs zero times |
| TextProcessor.StripPunctuationFixpoint | HW_01_Python_review/text_processor.py:36 | the punctuation step leaves a text unchanged exactly when the text holds only word characters and whitespace |
| TextProcessor.StripPunctuationIdempotent | HW_01_Python_review/text_processor.py:36 | removing punctuation twice is the same as removing it once |
| TextProcessor.StripPunctuationAppend | HW_01_Python_review/text_processor.py:36 | punctuation removal works character by character, distributing over concatenation, so the kept characters stay in order |
| TextProcessor.CleanText | HW_01_Python_review/text_processor.py:26-37 | whatever the URL and email substitutions do, the cleaned text holds only word characters and whitespace |
| TextProcessor.RemoveStopwords | HW_01_Python_review/text_processor.py:39-44 | the result holds no stop word; every non-stop word of the input is kept with its full multiplicity; no word is invented |
| TextProcessor.RemoveStopwordsAppend | HW_01_Python_review/text_processor.py:42 | stop-word removal distributes over concatenation, which together with the membership facts fixes the result as the in-order filter |
| TextProcessor.RemoveStopwordsIdempotent | HW_01_Python_review/text_processor.py:42 | applying stop-word removal twice gives the same list as applying it once |
| TextProcessor.RemoveStopwordsFixpoint | HW_01_Python_review/text_processor.py:42 | a word list is left unchanged exactly when it contains no stop word |
| TextProcessor.CountWordFrequencies | HW_01_Python_review/text_processor.py:46-51 | the keys are exactly the distinct words; each count is the word's number of occurrences, hence at least 1 |
| TextProcessor.CountsSumToLength | HW_01_Python_review/text_processor.py:49-50 | the counts of the dictionary add up to the number of words counted |
| TextProcessor.CountWordFrequenciesExample | HW_01_Python_review/text_processor.py:49-50 | the list hello, hello, world is counted as hello: 2, world: 1 |
| TextProcessor.WordFrequencies | HW_01_Python_review/text_processor.py:65-69 | every key of the final dictionary is a non-empty, whitespace-free run of word characters that is not a stop word |
| TextProcessor.WordFrequenciesSum | HW_01_Python_review/text_processor.py:67-69 | end to end, the counts add up to the number of tokens of the cleaned text minus the number of stop-word tokens |
| MealBot.TableIsTraditional | iranian_meal_bot_01/streamlit_food_recommend_app.py:54-66 | the table has ten meals, every one of kind "traditional", every one served with rice or bread |
| MealBot.TableBasesHaveNoDash | iranian_meal_bot_01/streamlit_food_recommend_app.py:54-66 | no base of the table contains the em dash that the local answer puts between name and base |
| MealBot.IngredientTokens | iranian_meal_bot_01/streamlit_food_recommend_app.py:73 | every counted ingredient is a non-blank piece without a comma |
| MealBot.InfoScore | iranian_meal_bot_01/streamlit_food_recommend_app.py:69-83 | the score lies in 0..9, and it is at most 4 when the ingredient text is empty or only whitespace |
| MealBot.BlankHasNoTokens | iranian_meal_bot_01/streamlit_food_recommend_app.py:71-73 | text that is only whitespace has no non-blank comma-separated piece |
| MealBot.IngredientContribution | iranian_meal_bot_01/streamlit_food_recommend_app.py:71-74 | with every select box at "any", the score is 0 for empty or whitespace-only ingredients, and otherwise the number of non-blank comma-separated pieces capped at 5 |
| MealBot.IngredientPointsAreCappedTokens | iranian_meal_bot_01/streamlit_food_recommend_app.py:71-74 | the ingredient points always equal the non-blank piece count capped at 5, whether or not the text is blank |
| MealBot.EachFieldAddsOneWhenSet | iranian_meal_bot_01/streamlit_food_recommend_app.py:75-82 | each of meal time, cuisine type, heaviness and base adds exactly 1 when it is neither empty nor "any", and 0 otherwise, whatever the other inputs are |
| MealBot.IngredientTokensAppend | iranian_meal_bot_01/streamlit_food_recommend_app.py:73 | the ingredients of `a + "," + t` are those of `a` followed by those of `t` |
| MealBot.AddingIngredientNeverLowersScore | iranian_meal_bot_01/streamlit_food_recommend_app.py:73-74 | appending another comma-separated ingredient never lowers the score |
| MealBot.AddingIngredientBelowCapAddsOne | iranian_meal_bot_01/streamlit_food_recommend_app.py:73-74 | below the cap of five, one more non-blank ingredient without a comma raises the score by exactly one |
| MealBot.SparseFormFallsBack | iranian_meal_bot_01/streamlit_food_recommend_app.py:216-218 | empty ingredients with every select box at "any" score 0, and the local answer is taken |
| MealBot.FallbackText | iranian_meal_bot_01/streamlit_food_recommend_app.py:234 | the local answer begins with "FALLBACK RECOMMENDATION:" |
| MealBot.ParseFramedRoundTrip | iranian_meal_bot_01/streamlit_food_recommend_app.py:234 | for any header and tail, any name and a base without an em dash can be read back from the framed text |
| MealBot.ParseFallbackText | iranian_meal_bot_01/streamlit_food_recommend_app.py:234 | the meal name and base can be read back from the local answer for any meal whose base has no em dash |
| MealBot.Recommend | iranian_meal_bot_01/streamlit_food_recommend_app.py:214-244 | the local answer is given if and only if the score is below 2; it starts with the fallback header and names the picked table meal together with its base; otherwise the five text fields reach the prompt unchanged and the recipe flag as Python's `str` of the boolean ("True" or "False") |
| HealthcareRag.Block | RAG_02/healthcare_app_RAG.py:51 | a document's block starts with "Source: " and is 20 characters longer than its source and content together |
| HealthcareRag.ContextAppend | RAG_02/healthcare_app_RAG.py:48-52 | the context of `a + b` is the context of `a` followed by the context of `b` |
| HealthcareRag.ContextLength | RAG_02/healthcare_app_RAG.py:51 | the context length is 20 per document plus the lengths of all sources and contents |
| HealthcareRag.ContextEmptyIff | RAG_02/healthcare_app_RAG.py:48-52 | the context is the empty string exactly when there are no documents |
| HealthcareRag.BuildContext | RAG_02/healthcare_app_RAG.py:48-52 | the appending loop produces the in-order concatenation of the per-document blocks, with the length that implies |
| HealthcareRag.Answer | RAG_02/healthcare_app_RAG.py:137-147 | no context is built and no answer is requested exactly when retrieval returned no document; otherwise the model gets the question and the non-empty context of all documents |

## Left out

- File input and output: `read_file`, `close_file` and `save_to_json` are
  side effects. `save_to_json` writes to the fixed name
  `word_frequencies.json` and ignores the configured output path. The model
  treats the text as an input and the dictionary as the output.
- The effect of `" ".join(...)` inside `remove_stopwords`: it is computed
  and then discarded.
- The URL and email regular expressions (`text_processor.py` lines 30-34):
  each substitution is an uninterpreted `string -> string` parameter. The
  class `\w` is an uninterpreted `char -> bool` parameter, because Unicode's
  letter and digit tables are not written out.
- TextProcessor.CleanText: states only the character-class guarantee of
  the result, because the URL and email substitutions are not modelled.
- JSON serialisation, including the order and indentation of keys.
- The Streamlit page: widgets, the session-state history, the display of
  the last ten messages, `st.experimental_rerun` and `st.stop`. After the
  local answer, `st.experimental_rerun` ends the run before the model is
  called, so the model treats the two branches as exclusive.
- `init_llm`, the provider selection by environment variables, the prompt
  template text, the LangChain chain and its memory, and the model call and
  its error message: these are foreign services.
- MealBot.Recommend: `random.choice` is replaced by an arbitrary valid index
  `pick`, so nothing is stated about how often each meal is chosen.
- In the RAG script: the embedding call, the Weaviate insert and
  near-vector query, the ingestion of the sample documents, the
  `generate_answer` prompt template and the completion call, and the
  console input and output. These are foreign services or I/O. Retrieval
  is represented by its result, the document list handed to
  `HealthcareRag.Answer`.
- `HW_01_Python_review/class_template.py` and `iranian_meal_bot_01/streamlit_simple.py`
  hold no logic (`pass` stubs and a widget demo).
