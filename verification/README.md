# Legal message classifier: the decision engine in Dafny

This project models the decision engine of a classification service for
legal messages. The service sorts a message into one of six categories:
Processual, Financeiro, Suporte Técnico, Comercial, Administrativo and
Outros. It works in one of two ways:

* **Remote strategy.** When an API key is configured, the message goes to a
  remote language model. The model gets a system prompt that lists the
  categories. Its JSON answer (`category`, `reasoning`) is then mapped back
  onto the category set, ignoring case. A category it does not recognise
  becomes `Outros`.
* **Keyword heuristic.** This is the fallback: there is no key, the remote
  call failed with an HTTP status, or it failed in any other way. The text is
  lowered and each category is scored by how many of its keywords occur in
  it. If the highest score is positive, the earliest category in table
  order that reaches it wins; otherwise the answer is `Outros`. The reasoning starts with the reason for
  the fallback and then reports the number of matches.

Modules:

| file | module | what it holds |
|---|---|---|
| `wrappers.dfy` | `Wrappers` | `Option` and `Result` |
| `text.dfy` | `Text` | the string operations the engine uses, with Python's meaning: `lower` (ASCII and Latin-1), `in`, `str(int)` and `join`; also `split`, which the engine never calls, as the inverse of `join` |
| `schemas.dfy` | `Schemas` | the category enumeration and its labels, the case-insensitive lookup by label, the request length rule and the response record |
| `keywords.dfy` | `Keywords` | the keyword table, exactly as written, one row per source line |
| `prompt.dfy` | `Prompt` | the system prompt template, and the part of Python's `str.format` the template uses |
| `classifier.dfy` | `Classifier` | the heuristic, the reading of the remote answer, and the orchestrator |

The remote call is not modelled. Its outcome is a parameter of `Classify`:
* an answer whose content parsed as a JSON object;
* an HTTP error status;
* any other failure.

A JSON object is a map from keys to `Some(text)` for string values and
`None` for values of any other JSON type.

## Model

| member | source | states |
|---|---|---|
| `Text.Lower` | app/classifier.py:144 | lowering keeps the length, maps each upper-case letter to its lower-case letter, leaves every other character alone, and leaves no upper-case letter |
| `Text.LowerIdempotent` | app/classifier.py:144 | lowering an already lowered text changes nothing |
| `Text.LowerSlice` | app/classifier.py:144 | lowering commutes with taking a slice |
| `Text.ContainsIffOccurs` | app/classifier.py:149 | the substring test `t in s` holds exactly when `t` occurs at some position of `s` (both directions) |
| `Text.ContainsTransitive` | app/classifier.py:149 | a text contains whatever its substrings contain |
| `Text.Contains` | app/classifier.py:149 | the empty string is contained in every text (Python's `"" in s`) |
| `Text.ContainsFits` | app/classifier.py:149 | a string is found in a text only if it is no longer than the text |
| `Text.ContainsLower` | app/classifier.py:144-149 | a substring found before lowering is still found after both strings are lowered |
| `Text.ShowNat` | app/classifier.py:155 | the count in the reasoning is written as at least one decimal digit, with no leading zero, and as "0" exactly for zero |
| `Text.ShowNatRoundTrip` | app/classifier.py:155 | reading the written digits back gives the number |
| `Text.ShowNatInjective` | app/classifier.py:51 | different status codes or counts are written differently |
| `Text.JoinContains` | app/classifier.py:76 | every element occurs in the joined string |
| `Text.Join` | app/classifier.py:76 | a non-empty list's join starts with its first element |
| `Text.JoinSix` | app/classifier.py:76 | joining six elements puts the separator between each pair and nowhere else |
| `Text.SplitJoin` | app/classifier.py:76 | splitting the joined string on the separator gives back the elements, provided no element holds the separator's first character |
| `Schemas.AllCategoriesEnumerates` | app/schemas.py:7-13 | the enumeration lists all six categories, each exactly once |
| `Schemas.Label` | app/schemas.py:8-13 | every label is non-empty, starts with a capital letter, and has no comma, so a list joined with ", " can be split back |
| `Schemas.LabelsDistinctIgnoringCase` | app/schemas.py:7-13 | no two categories have labels that are equal ignoring case, so a lookup by label is never ambiguous |
| `Schemas.FindLabel` | app/classifier.py:114-117 | a found category is in the searched list and its label equals the answer ignoring case; when none is found, no label in the list matches |
| `Schemas.Resolve` | app/classifier.py:114-117 | an answer resolves to a non-`Outros` category exactly when it equals that category's label ignoring case, and to `Outros` exactly when it matches no other label |
| `Schemas.ResolveLabel` | app/classifier.py:115 | every label, in any capitalisation, resolves to its own category |
| `Schemas.ResolveLowerCaseFinanceiro` | app/classifier.py:115 | "financeiro" resolves to Financeiro |
| `Schemas.ResolveUnknown` | app/classifier.py:114-117 | "Unknown" resolves to Outros |
| `Schemas.ValidateRequest` | app/schemas.py:17-24 | a request is accepted exactly when its text has 3 to 2000 characters; a rejection says whether the text was too short or too long and gives its length |
| `Keywords.Position` | app/resources.py:7-43 | a category has an entry in the table exactly when it is not Outros, and its position is that entry's position |
| `Keywords.TableShape` | app/resources.py:7-43 | the table has five entries, in the order Financeiro, Processual, Suporte Técnico, Comercial, Administrativo; Outros has none and no category has two |
| `Keywords.TermCounts` | app/resources.py:8-42 | the categories have 25, 26, 24, 23 and 25 terms |
| `Keywords.TermsAreLowerCase` | app/resources.py:7-43 | every term in the table is non-empty and has no upper-case letter |
| `Keywords.SharedTerms` | app/resources.py:12-39 | "orçamento" is listed under both Financeiro and Comercial, and "recurso" under both Processual and Administrativo |
| `Keywords.NestedTerms` | app/resources.py:20-41 | "citação" (Processual) occurs inside "licitação" (Comercial) and "solicitação" (Administrativo), and "licitação" occurs inside "solicitação" |
| `Prompt.FormatEscaped` | app/resources.py:65 | `str.format` turns every doubled brace back into a single one, so escaped text comes out as it was written |
| `Prompt.Format` | app/classifier.py:77 | a string without braces formats to itself |
| `Prompt.FormatPlaceholder` | app/classifier.py:77 | for a keyword field name `n` (letters, digits and underscores, not all digits), the field `{n}` is replaced by the argument's value when `n` is the argument's name, and is an unknown-field error otherwise |
| `Prompt.FormatPositional` | app/classifier.py:77 | a field that is empty or all digits is a positional index; with keyword arguments only it is an error, whatever the argument's name |
| `Prompt.FormatSource` | app/classifier.py:77 | for every template, formatting its source text gives exactly its rendering, errors included |
| `Prompt.TemplatePlaceholders` | app/resources.py:48-84 | the template has exactly one placeholder, `categories` |
| `Prompt.TemplateFormatting` | app/resources.py:48-84 | formatting the template with `categories` succeeds and gives the preamble with single braces, the value, and the closing request; formatting with any other name fails on the `categories` field |
| `Prompt.ExampleCategoriesCanonical` | app/resources.py:60-73 | there are five worked examples, and each answer names a category other than Outros by its exact label |
| `Classifier.CategoryScore` | app/classifier.py:149 | a score never exceeds the number of terms; it is zero exactly when no term occurs, and full exactly when every term occurs |
| `Classifier.ScoreCountsPresentTerms` | app/classifier.py:149 | the score is the number of listed terms present in the text: the size of the set of positions whose term occurs |
| `Classifier.ScoreMonotone` | app/classifier.py:149 | a text holding every term another text holds scores at least as high |
| `Classifier.ScoreDependsOnlyOnPresence` | app/classifier.py:149 | two texts that hold the same terms score the same, however often the terms occur |
| `Classifier.Scan` | app/classifier.py:148-152 | the scan never lowers its leader's count, ends with a count no entry beats, and keeps the starting leader when nothing beats it |
| `Classifier.ScanPicksFirstMaximum` | app/classifier.py:148-152 | when the scan improves on its start, the winner is the earliest entry that reaches the final count, and every entry before it scores less |
| `Classifier.HeuristicReasoning` | app/classifier.py:154-158 | the heuristic's reasoning starts with the caller's reason, cites "Identificados n termos chave" for a positive count n, and cites "Nenhum termo chave relevante" for zero |
| `Classifier.CountNoteInjective` | app/classifier.py:154-158 | different counts give different notes |
| `Classifier.CountNoteZeroDiffers` | app/classifier.py:154-158 | the note for no matches differs from every note for a positive count |
| `Classifier.ReasoningDeterminesCount` | app/classifier.py:154-158 | with the same reason, equal reasonings mean equal counts, so the count can be read back from the text |
| `Classifier.CountNote` | app/classifier.py:154-158 | the note starts "Identificados n termos chave" for a positive count n and "Nenhum termo chave relevante" for zero |
| `Classifier.Heuristic` | app/classifier.py:130-167 | the heuristic's answer is tagged with the keyword model and the fallback strategy, its reasoning starts with the reason, and its category is Outros exactly when no term occurs in the lowered text |
| `Classifier.HeuristicChoiceUnique` | app/classifier.py:145-152 | at most one category is highest-scoring, earliest among ties at a positive maximum, and Outros only at zero |
| `Classifier.FinalLeaderIsMaximal` | app/classifier.py:148-152 | no category scores more than the final leader |
| `Classifier.FinalLeaderIsFirst` | app/classifier.py:148-152 | a leader with matches is the first table entry to reach its count |
| `Classifier.HeuristicChoosesFirstMaximum` | app/classifier.py:144-158 | the heuristic's category is that unique choice, and its reasoning reports the category's score |
| `Classifier.EmptyTextIsOutros` | app/classifier.py:144-152 | an empty text is classified Outros |
| `Classifier.TermMatchesInAnyCase` | app/classifier.py:144-149 | a term written in the text in any capitalisation is found after lowering, because every term is stored lower-case |
| `Classifier.SharedTermsScoreTwice` | app/classifier.py:148-149 | one occurrence of "recurso" or "orçamento" scores for both categories that list it |
| `Classifier.SolicitacaoScoresThrice` | app/classifier.py:148-149 | a text containing "solicitação" scores for Processual, Comercial and Administrativo |
| `Classifier.CategoryLabels` | app/classifier.py:76 | the labels are "Processual", "Financeiro", "Suporte Técnico", "Comercial", "Administrativo" and "Outros", in that order |
| `Classifier.CategoriesList` | app/classifier.py:76 | the list is the six labels in enumeration order, separated by ", " |
| `Classifier.CategoriesListRoundTrip` | app/classifier.py:76 | splitting the category list on ", " gives back the labels, and the list names every category |
| `Classifier.SystemPrompt` | app/classifier.py:76-77 | formatting the template with a category list never fails and puts the list between the preamble and the closing request |
| `Classifier.SystemPromptNamesEveryCategory` | app/classifier.py:76-77 | the prompt sent to the remote model names every category by its label |
| `Classifier.Get` | app/classifier.py:112-121 | `content.get(key, default)` is the default when the key is absent, the stored value when it is a string, and not a string exactly when the key holds a non-string value |
| `Classifier.Interpret` | app/classifier.py:112-126 | an answer is usable exactly when its category and reasoning, if present, are strings; a missing category reads as Outros; a present one is matched ignoring case; the reasoning defaults to "Classificação via IA"; the result is tagged with the configured model and the remote strategy |
| `Classifier.Classify` | app/classifier.py:27-58 | with a key, an answered call and a usable answer, the result is exactly the reading of that answer, tagged with the configured model and the remote strategy; otherwise it is exactly the heuristic's result for the text, with the no-key reason, the reason naming the HTTP status, or the unavailability reason |
| `Classifier.WithoutKeyRemoteIsNotUsed` | app/classifier.py:38-43 | without a key the result does not depend on the remote outcome or the model name, and comes from the heuristic |
| `Classifier.HttpErrorReason` | app/classifier.py:49-51 | the HTTP fallback reason starts "Erro HTTP na IA " and names the status code in parentheses |
| `Classifier.HttpErrorCitesStatus` | app/classifier.py:49-51 | an HTTP failure's reasoning names the status code in parentheses |
| `Classifier.HttpTooManyRequestsCited` | app/classifier.py:49-51 | status 429 is cited as "(429)" |
| `Classifier.RemoteLowerCaseCategory` | app/classifier.py:112-126 | the answer "financeiro" gives Financeiro from the remote strategy, tagged with the configured model |
| `Classifier.RemoteUnknownCategory` | app/classifier.py:112-126 | the answer "Unknown" gives Outros from the remote strategy, with the default reasoning; it does not count as a failure |
| `Classifier.RemoteNonTextCategory` | app/classifier.py:53-58 | a category that is not a string makes the engine fall back to the heuristic, with the unavailability reason |

## Left out

- The HTTP request is not modelled: payload, headers, temperature, response format, the 8-second timeout and the response body. `Classify` takes the outcome as a parameter.
- JSON parsing is not modelled. A body that does not parse, or content that is not a JSON object, is covered by the "any other failure" outcome.
- Logging, timing, async execution, the web layer and the settings loader are not modelled. Settings are represented only by the `Settings` record: the API key, whose emptiness selects the mode, and the model name. The service fixes the model name to "llama-3.3-70b-versatile" as a class constant of its settings (app/config.py:31), which nothing overrides; the model keeps it a parameter.
- Determinism is not stated as a lemma. Every operation of the model is a pure function, so equal inputs give equal results by construction.
- Concrete heuristic runs on literal sentences are not modelled, e.g. that "bom dia" gives Outros. The general theorems cover them: `Heuristic`, `HeuristicChoosesFirstMaximum` and `EmptyTextIsOutros`.
- Text.Lower: models Python's `str.lower` only for ASCII and the Latin-1 supplement. Letters outside these ranges are left unchanged, and so are the characters whose lower-case form is longer than one character.
- Prompt.FormatSource: `Format` supports only what the template uses: a replacement field that is a plain name. Nested fields, `!` conversions, `:` format specifications, and attribute and index lookups are not modelled.
- Classifier.Interpret: a reasoning that is not a string is treated as a failure. This follows the response record, which is declared with a string field. It assumes pydantic version 2, which does not coerce a number to a string. The source does not pin a version, and pydantic version 1 would coerce a numeric reasoning to a string and return it.
- Prompt.TemplateFormatting: the template is given as pieces, and its text is the source rendering of those pieces. The equality of that text with the literal at app/resources.py:48-84 is checked by reading, not proved: the prose holds braces (the JSON of the five worked examples), which `Source` writes doubled, as the literal does.
- Prompt.Format: a field that is empty or all digits is reported as `PositionalField`, where Python raises an index error; any other field that names no argument is `UnknownField`, where Python raises a key error. The model does not tell the exception types apart beyond that. A field holding `.`, `[`, `!` or `:` is compared with the argument's name as a whole, where Python would look up an attribute or index, or apply a conversion or a format specification.

## Design notes

The model reproduces one behaviour of the keyword table as written: "solicitação" contains both "citação" and "licitação". A request for documents therefore also scores for Processual and Comercial; see `SolicitacaoScoresThrice`.
