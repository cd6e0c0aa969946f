# MedChat core, modelled in Dafny

MedChat is a small health chat service. It has an Express backend and a React
frontend. This project models the three pieces of plain logic in it:

- **Query resolver** (`/api/health-query`). The server lower-cases the question
  and deletes every character that is not `a`-`z` or whitespace. It then looks
  the result up, by exact match, in a static phrase table keyed by language
  code and then by question. On a miss it answers with a templated apology
  that names the language.
- **Symptom advisor** (`/api/symptom-checker`). An ordered chain of membership
  tests over the submitted symptom tokens chooses one of six pieces of advice.
  The answer is `Based on your symptoms: ` followed by that advice. The model
  writes the chain as an ordered list of rules with a catch-all, evaluated
  first-match. It proves that this list is the handler's `if`/`else if` chain.
- **Chat page helpers**. These are the symptom checkbox toggle, the mapping from
  language code to speech-recognition locale, and the guards that stop
  `handleSend`, `submitSymptoms` and `handleClinicFinder` from posting a
  request. React state becomes arguments and results. A handler returns the
  transcript right after its synchronous part and the request it would post.

Modules:

- `Collections` holds an `Option` type, order-preserving subsequences and
  duplicate-free lists.
- `Text` holds the JavaScript whitespace class `\s`, ASCII lower-casing and
  `trim`.
- `QueryResolver`, `SymptomAdvisor` and `ChatClient` hold the three parts
  above.

Notable results:

- Normalisation is idempotent.
- Normalisation keeps exactly the allowed characters, in order.
- The Igbo entry of the phrase table can never be served. Its key is spelt
  with `ọ` and `ụ`, and normalisation always deletes those letters
  (`IgboEntryUnreachable`). Every other entry is served for its own key, in
  any capitalisation and with trailing punctuation (`TypedQuestionHits`).
- The symptom answer depends only on which of `fever`, `chills`, `headache`
  and `fatigue` are present. Each of the six answers has an exact condition.
- From an empty selection, a series of checkbox clicks selects exactly the
  symptoms clicked an odd number of times. No symptom is listed twice.

Behaviour of the code that the model keeps:

- The lookup answer is `entry || fallback`. So an entry that is the empty
  string also falls back. `Resolve` models this. It makes no difference for
  the compiled-in table, whose entries are all non-empty.
- The symptom list is a JavaScript array, not a set. The model takes a
  sequence and proves that order, duplicates and unknown tokens do not
  matter.
- A request without a `language` field does not crash. JavaScript
  interpolates `undefined`, and looks that text up in the table.
  `AnswerHealthQuery` models that, and `MissingLanguageFallsBack` shows the
  answer is then always the apology. A request
  without `query` does crash, so `query` is a precondition.
- `backend/server.js` has no clinic-finder handler. Only the page's guard in
  front of that request is modelled.

## Model

| member | source | states |
|---|---|---|
| Text.LowerChar | backend/server.js:36 | lower-casing turns `A`-`Z` into the matching `a`-`z` letter and leaves every other character alone |
| Text.ToLower | backend/server.js:36 | `toLowerCase` keeps the length and lower-cases character by character |
| Text.ToLowerAppend | backend/server.js:36 | lower-casing distributes over concatenation |
| Text.SkipForward | frontend/src/App.jsx:59 | the leading scan of `trim` stops at the first character that is not whitespace, having passed only whitespace |
| Text.SkipBackward | frontend/src/App.jsx:59 | the trailing scan of `trim` stops just after the last character that is not whitespace, having passed only whitespace |
| Text.Trim | frontend/src/App.jsx:59 | `trim` returns a slice of the input with only whitespace on either side, and the slice neither starts nor ends with whitespace |
| Text.BlankIffAllWhitespace | frontend/src/App.jsx:114 | `!s.trim()` holds exactly when every character of `s` is whitespace (empty string included) |
| Collections.SubsequenceNotLonger | backend/server.js:36 | an order-preserving subsequence is never longer than its source, so the normalised query is no longer than the query |
| QueryResolver.Strip | backend/server.js:36 | the result has only `a`-`z` and whitespace, holds each of those characters as often as the input, and keeps the input's order |
| QueryResolver.Normalize | backend/server.js:36 | the normalised query has only `a`-`z` and whitespace, keeps every `a`-`z` and whitespace character of the lower-cased query as often as it occurs there, is an order-preserving subsequence of the lower-cased query, and is no longer than the query |
| QueryResolver.StripFixpoint | backend/server.js:36 | stripping leaves a string unchanged if and only if it contains only `a`-`z` and whitespace |
| QueryResolver.StripRemovesAll | backend/server.js:36 | a string with no letter or whitespace strips to the empty string |
| QueryResolver.StripAppend | backend/server.js:36 | stripping distributes over concatenation |
| QueryResolver.NormalizeFixpoint | backend/server.js:36 | a string is its own normal form if and only if it contains only `a`-`z` and whitespace |
| QueryResolver.NormalizeIdempotent | backend/server.js:36 | normalising an already normalised query returns it unchanged |
| QueryResolver.NormalizeAppend | backend/server.js:36 | normalisation distributes over concatenation |
| QueryResolver.Fallback | backend/server.js:39 | the miss answer is the fixed apology head, then the language verbatim, then the fixed apology tail |
| QueryResolver.FallbackNamesLanguage | backend/server.js:39 | two requests whose languages differ never get the same apology: the apology determines the language it names |
| QueryResolver.Resolve | backend/server.js:38-39 | on a hit (language present, normalised query present, entry non-empty) the answer is exactly that entry; otherwise it is the fallback naming the language |
| QueryResolver.AnswerHealthQuery | backend/server.js:35-41 | on a hit for the language (or `undefined` when the field is missing) and the normalised query, the handler answers with that entry; otherwise with the apology naming that language; a missing query is excluded, because the handler throws |
| QueryResolver.MissingLanguageFallsBack | backend/server.js:35-39 | with the server's table, a request without a language always gets the apology naming `undefined` |
| QueryResolver.ResolveIgnoresCaseAndPunctuation | backend/server.js:36-39 | the answer does not change when the query is lower-cased or gets a suffix with no letter or whitespace |
| QueryResolver.IgboQuestionNotNormal | backend/server.js:22 | the Igbo key contains a character outside `a`-`z` and whitespace |
| QueryResolver.IgboEntryUnreachable | backend/server.js:21-23 | for every query, asking in `ig` returns the fallback: the Igbo entry is never served |
| QueryResolver.EnglishKeysPlain | backend/server.js:9-13 | every English key is lower-case letters and spaces, and every English entry is non-empty |
| QueryResolver.YorubaKeysPlain | backend/server.js:14-17 | every Yoruba key is lower-case letters and spaces, and every Yoruba entry is non-empty |
| QueryResolver.HausaKeysPlain | backend/server.js:18-20 | the Hausa key is lower-case letters and spaces, and its entry is non-empty |
| QueryResolver.PidginKeysPlain | backend/server.js:24-27 | every Pidgin key is lower-case letters and spaces, and every Pidgin entry is non-empty |
| QueryResolver.KeysNormal | backend/server.js:8-28 | every key outside the Igbo table is already normalised, and every entry is non-empty |
| QueryResolver.EntriesReachable | backend/server.js:8-39 | every entry outside the Igbo table is served when its own key is asked |
| QueryResolver.TypedQuestionHits | backend/server.js:34-41 | any capitalisation of a non-Igbo key, followed by any punctuation, gets that key's entry |
| SymptomAdvisor.FirstFiring | backend/server.js:48-60 | returns the position of the first rule whose tokens are all present, and none exactly when no rule fires |
| SymptomAdvisor.Evaluate | backend/server.js:48-60 | first-match evaluation: the advice of the earliest firing rule with every earlier rule not firing, or the catch-all when none fires |
| SymptomAdvisor.CheckSymptoms | backend/server.js:44-63 | every answer is `Based on your symptoms: ` followed by exactly one of the six pieces of advice |
| SymptomAdvisor.ChainIsIfElse | backend/server.js:48-60 | the ordered rule list gives the same answer as the handler's `if`/`else if` chain, for every list of tokens |
| SymptomAdvisor.AdviceDistinct | backend/server.js:49-59 | the six pieces of advice are pairwise different |
| SymptomAdvisor.BranchConditions | backend/server.js:48-60 | each of the six answers is given if and only if its membership condition holds (for example: unclear exactly when neither `fever` nor `fatigue` is present) |
| SymptomAdvisor.MalariaTakesPriority | backend/server.js:48-51 | any list containing `fever` and `chills` gets the malaria advice, whatever else it contains |
| SymptomAdvisor.MembershipOnly | backend/server.js:48-59 | two lists that agree on the presence of the four known symptoms get the same answer |
| SymptomAdvisor.OrderAndDuplicatesIgnored | backend/server.js:48-59 | lists holding the same tokens, in any order and with any repetition, get the same answer |
| SymptomAdvisor.UnknownTokenIgnored | backend/server.js:48-59 | inserting an unknown token anywhere does not change the answer |
| SymptomAdvisor.UnclearSelections | backend/server.js:58-59 | the empty list, `headache` alone, `chills` alone and the two together get the unclear advice |
| ChatClient.RemoveAll | frontend/src/App.jsx:90 | the filter removes every occurrence of the symptom, keeps every other element as often as before, and keeps their order |
| ChatClient.Toggle | frontend/src/App.jsx:88-92 | toggling flips the symptom's membership and no other; an absent symptom is appended at the end; a present one is filtered out exactly as `RemoveAll` describes |
| ChatClient.ToggleRemovesInOrder | frontend/src/App.jsx:90 | unticking a selected symptom keeps the others in their order and makes the list strictly shorter |
| ChatClient.ToggleFlips | frontend/src/App.jsx:88-92 | after a toggle, a symptom is selected exactly when it was selected before or it is the toggled one, but not both |
| ChatClient.RemoveAbsent | frontend/src/App.jsx:90 | filtering out an absent symptom leaves the list unchanged |
| ChatClient.RemoveAppend | frontend/src/App.jsx:90 | filtering distributes over concatenation |
| ChatClient.ToggleTwiceRestores | frontend/src/App.jsx:90 | toggling an absent symptom twice returns the original list |
| ChatClient.ToggleKeepsNoDuplicates | frontend/src/App.jsx:90 | toggling a duplicate-free list keeps it duplicate-free |
| ChatClient.RemoveKeepsNoDuplicates | frontend/src/App.jsx:90 | filtering a duplicate-free list keeps it duplicate-free |
| ChatClient.ClicksKeepNoDuplicates | frontend/src/App.jsx:88-92 | any series of clicks on a duplicate-free selection leaves it duplicate-free |
| ChatClient.OddTimesIsOddCount | frontend/src/App.jsx:88-92 | the running click parity is odd exactly when the click count is odd |
| ChatClient.ClicksFlipParity | frontend/src/App.jsx:88-92 | after a series of clicks, a symptom is selected exactly when its initial selection differs from the parity of its clicks |
| ChatClient.ClicksSelectOddCounts | frontend/src/App.jsx:88-92 | from an empty selection, a series of clicks selects exactly the symptoms clicked an odd number of times, with no duplicates |
| ChatClient.SpeechLocale | frontend/src/App.jsx:23 | `en`, `yo`, `ha` and `ig` get `en-US`, `yo-NG`, `ha-NG` and `ig-NG`; every other code, `pi` included, gets `en-US`; every locale is language, dash and region |
| ChatClient.HandleSend | frontend/src/App.jsx:58-68 | no request and no new message exactly when the input is all whitespace; otherwise the untrimmed input is shown as a user message and posted with the language |
| ChatClient.SubmitSymptoms | frontend/src/App.jsx:94-104 | an empty selection appends exactly one prompt message and posts nothing; otherwise the selection is posted and no message is added |
| ChatClient.FindClinics | frontend/src/App.jsx:113-120 | an all-whitespace city appends exactly one prompt message and posts nothing; otherwise the untrimmed city is posted |

## Left out

- HTTP plumbing is not modelled: Express bootstrap, `cors()`, JSON body parsing, `res.json`/`res.send`, the liveness route, `app.listen` and the `PORT` environment read. These are I/O.
- Text.LowerChar: models lower-casing of ASCII `A`-`Z` only. JavaScript's `toLowerCase` is full Unicode. For normalisation this differs only on the Kelvin sign (U+212A, lower-cased to `k`) and the capital I with dot above (U+0130, lower-cased to `i` plus a combining dot). There the server keeps an ASCII letter that the model deletes.
- Text.IsWhitespace: is a fixed character set, the WhiteSpace and LineTerminator characters of ECMAScript as of Unicode 15. A JavaScript engine uses the space separators of the Unicode version it ships.
- QueryResolver.Resolve: the table is a plain map. JavaScript prototype lookups are not modelled. A `language` such as `constructor` finds an inherited property on the object literal. So does a query that normalises to an inherited name, such as `Constructor?`, in every language, `ig` included: the `||` keeps the inherited function, and the JSON reply then carries no `answer`. `IgboEntryUnreachable` and the other lookup lemmas hold of the plain-map model only; the Igbo entry itself is still never served.
- QueryResolver.AnswerHealthQuery: a body field of another JSON type (a number, an array) is not modelled. Fields are a string or absent. A non-string `query` makes the server throw like a missing one.
- SymptomAdvisor.CheckSymptoms: `symptoms` is a list of strings. A missing field makes the server throw. A string sent instead of an array would make `includes` a substring test. Neither is modelled.
- The clinic-finder lookup is not modelled. `backend/server.js` has no `/api/clinic-finder` handler and no clinic directory. Only the page's guard before that request is modelled (`FindClinics`).
- The page's asynchronous parts are not modelled: the axios calls, what they append on success or failure, clearing the input and the selection afterwards, and the loading flag. They depend on the network.
- `handleSymptomChecker` (it only appends a greeting) and the React rendering are not modelled. They are UI.
- The browser SpeechRecognition integration (`handleVoiceInput` and the recognition callbacks) is not modelled: it is a foreign browser API. Only the locale choice is modelled.
