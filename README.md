# Jungle of Agents — a Dafny model of the agent orchestrator

Jungle of Agents answers a user request through a master agent. The master
agent first asks a language model to analyse the request. When the analysis
says the request needs a specialist, the master agent looks for a stored agent
whose description is lexically similar to the one the analysis asks for. If
none is similar enough, it asks the model to invent a new agent, saves it to
a JSON registry file, and delegates the request to it.

This project models that core in Dafny and proves properties of it:

- `values.dfy` (`Values`): the dynamic data the program passes around. JSON
  objects are maps from string keys to `null`, booleans and strings. The file
  also holds Python's `dict.get`, truthiness, `str()` and the texts of the
  `AttributeError` and `KeyError` messages the code can surface.
- `text.dfy` (`Text`): ASCII character classes, lower-casing, prefix and
  substring tests.
- `normalization.dfy` (`Normalization`): `_normalize_text` and `str.split()`.
  It proves that the normal form is idempotent and ignores case and
  punctuation, that collapsing and stripping whitespace keep the words, and
  that splitting a normal text and joining its words with single spaces are
  inverse to each other.
- `metrics.dfy` (`Metrics`): the Jaccard, keyword-overlap and cosine
  similarities and their 0.4/0.3/0.3 weighting. All are exact reals. The
  Euclidean norm's square root is a parameter constrained by `IsSqrt`. The
  proofs include Cauchy–Schwarz, which puts the cosine in [0, 1]. For
  Jaccard and keyword overlap they give the exact conditions for 0 and for
  1. For the cosine they give the exact condition for 0 and show that
  identical word lists score 1; other lists can score 1 too, such as
  `[a, b]` against `[a, b, a, b]`.
- `ranking.dfy` (`Ranking`): the best-match selection of `find_similar_agent`
  (the first strictly-best score above the 0.09 floor, then the threshold)
  and the stable descending sort of `get_similarity_scores`. The sort is
  proved to be a permutation, descending and stable, and unique with those
  properties. The picked agent is proved to head the ranking.
- `similarity_search.dfy` (`Similarity`): the `SimilaritySearch` class. Its
  loops are proved against the functions above.
- `agent_storage.dfy` (`Storage`): the `AgentStorage` registry.
  - The file is abstract state: missing, unreadable, or a JSON object whose
    `agents` list may be absent.
  - Covered: saving (replace the first record with the same name, or
    append), lookup, deletion, filtering by type, and the type statistics.
  - A write may fail; the failure is a parameter of the operation.
- `base_agent.dfy` (`Agents`): `SpecializedAgent` and its inherited
  `BaseAgent` methods. The `to_dict`/`from_dict` round trip is proved.
- `utils.dfy` (`Utils`): `truncate_text`, `sanitize_agent_name`,
  `handle_error` and `format_agent_info`.
- `master_agent.dfy`: two modules.
  - `Orchestrator` holds the decision logic of `MasterAgent` as pure
    functions over the outcomes of the model calls.
  - `Master` holds the `MasterAgent` class that wires it to its registry
    and its matcher.
  - Each language-model call is an oracle parameter: the parsed JSON or
    the text the call produced, or the failure it raised.

## Model

| member | source | states |
|---|---|---|
| Normalization.SkipSpaces | similarity_search.py:200 | `lstrip`: the result is a suffix of the input that starts with a non-space, and only whitespace was dropped |
| Normalization.StripTrailing | similarity_search.py:200 | `rstrip`: the result is a prefix of the input that ends with a non-space, and only whitespace was dropped |
| Normalization.Scrub | similarity_search.py:197 | the same length as the input; letters, digits and whitespace are kept in place, and every other character becomes a space |
| Normalization.Strip | similarity_search.py:200 | `strip()`: no longer than the input, and no whitespace at either end |
| Normalization.SplitStrip | similarity_search.py:200 | `strip()` keeps the words of the text |
| Normalization.Collapse | similarity_search.py:198 | `re.sub(r'\s+', ' ', ...)`: never longer than the input, and a text starting with whitespace starts with one space, otherwise with its own first character |
| Normalization.CollapseIsCollapsed | similarity_search.py:198 | the collapsed text has no two spaces in a row, and every other character is a non-space character of the input |
| Normalization.CollapseWord | similarity_search.py:198 | the characters of a word pass through the collapse unchanged |
| Normalization.CollapseLast | similarity_search.py:198 | the collapsed text ends in one space when the input ends in whitespace, and otherwise in the input's last character |
| Normalization.CollapsedChars | similarity_search.py:194-198 | after lower-casing, scrubbing and collapsing, only `a-z`, `0-9` and spaces remain |
| Normalization.StripIsNormal | similarity_search.py:200 | stripping such a text leaves no space at either end |
| Normalization.Normalize | similarity_search.py:183-200 | every output of `_normalize_text` has only `a-z`, `0-9` and single inner spaces |
| Normalization.CollapseFixed | similarity_search.py:198 | a text with only single spaces is left alone by the whitespace collapse |
| Normalization.NormalIsFixedPoint | similarity_search.py:183-200 | a normal text is its own normal form |
| Normalization.NormalizeIdempotent | similarity_search.py:183-200 | normalising twice equals normalising once |
| Normalization.WordLength | similarity_search.py:160-161 | the first word of a text is the longest run of non-space characters at its start |
| Normalization.Split | similarity_search.py:160-161 | `split()` yields words that are non-empty and free of whitespace, and at least one word when the text starts with a non-space; the round-trip and invariance lemmas below pin the words down |
| Normalization.WordLengthOf | similarity_search.py:160-161 | the first word of `w + t` is `w` when `t` is empty or starts with whitespace |
| Normalization.SplitWord | similarity_search.py:160-161 | a word followed by whitespace or nothing is the first word of the split |
| Normalization.SplitSpace | similarity_search.py:160-161 | leading whitespace does not change the words |
| Normalization.SplitSkipSpaces | similarity_search.py:160-161 | `lstrip` keeps the words |
| Normalization.SplitSnocSpace | similarity_search.py:160-161 | trailing whitespace does not change the words |
| Normalization.SplitStripTrailing | similarity_search.py:160-161 | `rstrip` keeps the words |
| Normalization.SplitCollapse | similarity_search.py:198 | collapsing whitespace keeps the words |
| Normalization.JoinSplit | similarity_search.py:183-200 | a normal text is its words joined by single spaces |
| Normalization.SplitJoin | similarity_search.py:160-161 | joining words with single spaces and splitting gives back the same words |
| Normalization.Tokens | similarity_search.py:108-109 | the tokens are words, and joined with single spaces they give back the normal form |
| Normalization.TokensEmptyIff | similarity_search.py:108-114 | a text has no tokens exactly when its normal form is empty |
| Normalization.LowerIdempotent | similarity_search.py:194 | lower-casing twice is lower-casing once |
| Normalization.NormalizeIgnoresCase | similarity_search.py:183-200 | a text and its lower-cased form have the same normal form |
| Normalization.NormalizeIgnoresPunctuation | similarity_search.py:197 | replacing a character that is not a letter, digit or whitespace by a space does not change the normal form |
| Metrics.JaccardOfSets | similarity_search.py:108-120 | the result is in [0, 1]; it is 1 exactly when the token sets are equal (both empty included) and 0 exactly when they are disjoint and not both empty |
| Metrics.Jaccard | similarity_search.py:96-120 | `_jaccard_similarity` is in [0, 1]; it is 1 exactly when the two texts have the same token set, and 0 exactly when they share no token and are not both without tokens |
| Metrics.JaccardSymmetric | similarity_search.py:96-120 | Jaccard similarity does not depend on argument order |
| Metrics.OverlapOfSets | similarity_search.py:134-146 | overlap over the larger keyword set is in [0, 1]; it is 1 exactly for equal sets and 0 exactly for disjoint sets not both empty |
| Metrics.KeywordOverlap | similarity_search.py:122-146 | `_keyword_overlap_similarity` is in [0, 1]; it is 1 exactly when the two texts have the same keywords, and 0 exactly when they share none and are not both without |
| Metrics.KeywordsAreLongTokens | similarity_search.py:134-135 | a keyword is exactly a token longer than three characters |
| Metrics.OverlapSymmetric | similarity_search.py:122-146 | keyword overlap does not depend on argument order |
| Metrics.Vocabulary | similarity_search.py:164 | `list(set(words))` holds each word of the input exactly once |
| Metrics.Frequencies | similarity_search.py:170-171 | there is one count per vocabulary word |
| Metrics.FrequencyPositive | similarity_search.py:170-171 | a word's count is positive exactly when the word occurs |
| Metrics.DotOfNaturals | similarity_search.py:174 | the dot product of count vectors is non-negative, and 0 exactly when no position is non-zero in both |
| Metrics.CauchySchwarz | similarity_search.py:174-181 | (u·v)² ≤ (u·u)(v·v) |
| Metrics.ZeroNormIffEmpty | similarity_search.py:175-179 | a count vector has zero norm exactly when its word list is empty |
| Metrics.ZeroDotIffDisjoint | similarity_search.py:174 | the dot product is 0 exactly when the word lists share no word |
| Metrics.CosineOfVectors | similarity_search.py:170-181 | the cosine is in [0, 1]; it is 0 exactly when a norm or the dot product is 0; a non-zero vector against itself gives 1 |
| Metrics.Cosine | similarity_search.py:148-181 | the result is in [0, 1]; two empty texts give 1 and exactly one empty text gives 0; otherwise it is 0 exactly when no word is shared; identical word lists give 1 |
| Metrics.AgentText | similarity_search.py:81 | the compared text is the description, task type and name, each defaulting to empty, joined by spaces; its properties are in the next row |
| Metrics.AgentTextIgnoresOtherKeys | similarity_search.py:81 | keys other than `description`, `task_type` and `name` do not change the compared text |
| Metrics.Score | similarity_search.py:69-94 | the score is the 0.4/0.3/0.3 weighted sum of the three metrics on description + task type + name; it lies in [0, 1], so the `min(..., 1.0)` clamp never changes it |
| Metrics.ScoreOneIffAllOne | similarity_search.py:84-94 | the score is 1 exactly when all three metrics are 1 |
| Metrics.ScoreIgnoresQueryCase | similarity_search.py:69-94 | the score does not depend on the case of the query |
| Metrics.ScoreIgnoresQueryPunctuation | similarity_search.py:69-94 | the score does not change when a punctuation character of the query becomes a space |
| Ranking.FirstBestUnique | similarity_search.py:49-58 | there is only one earliest position holding the largest score |
| Ranking.Scan | similarity_search.py:43-59 | after the loop, no agent is held exactly when no score exceeds the 0.09 floor; otherwise the held agent is the earliest with the largest score, and `best_score` is its score |
| Ranking.ScanSnoc | similarity_search.py:56-58 | a new score replaces the best only when it is strictly higher |
| Ranking.Pick | similarity_search.py:28-67 | an agent is returned exactly when the earliest best-scoring agent beats the floor, meets the threshold and is non-empty; it is that agent; an empty list gives None |
| Ranking.Rank | similarity_search.py:213-221 | there is one entry per agent |
| Ranking.RankAt | similarity_search.py:215-221 | entry j pairs agent j with its score and with `score >= threshold` |
| Ranking.RankSnoc | similarity_search.py:215-221 | one more loop iteration appends that agent's entry |
| Ranking.Insert | similarity_search.py:224 | insertion adds exactly one entry and keeps a descending list descending |
| Ranking.SortByScore | similarity_search.py:224 | the sort is a permutation of the entries, in descending score order |
| Ranking.InsertWithScore | similarity_search.py:224 | an inserted entry goes in front of the entries with its own score; the other scores' entries are untouched |
| Ranking.SortStable | similarity_search.py:224 | entries with equal scores keep their original relative order |
| Ranking.DescendingUnique | similarity_search.py:224 | two descending lists whose equal-score entries appear in the same order are equal |
| Ranking.StableSortIsUnique | similarity_search.py:224 | any descending, stable rearrangement is exactly the modelled sort |
| Ranking.PickedAgentRanksFirst | similarity_search.py:202-226 | the agent `find_similar_agent` returns heads the `get_similarity_scores` ranking and is marked as meeting the threshold |
| Similarity.Scores | similarity_search.py:215-216 | there is one score per agent |
| Similarity.ScoresAt | similarity_search.py:49-52 | score j is the score of agent j |
| Similarity.ScoresSnoc | similarity_search.py:49-52 | scoring one more agent appends its score |
| Similarity.RankScoresSnoc | similarity_search.py:215-221 | scoring and ranking one more agent appends its entry |
| Similarity.SimilaritySearch.constructor | similarity_search.py:18-26 | the threshold is the one given |
| Similarity.SimilaritySearch.FindSimilarAgent | similarity_search.py:28-67 | the loop returns the agent `Ranking.Pick` chooses from the agents' scores |
| Similarity.SimilaritySearch.ScoreAgents | similarity_search.py:213-221 | the loop builds one entry per agent, in list order, each with its score and threshold flag |
| Similarity.SimilaritySearch.GetSimilarityScores | similarity_search.py:202-226 | the result is those entries, stably sorted by descending score |
| Storage.Healed | agent_storage.py:28-47 | a missing or unreadable file becomes `{"agents": []}`; an object without `agents` gains an empty list and keeps its other keys; a registry is left alone |
| Storage.HealedIdempotent | agent_storage.py:28-47 | healing an already healed file changes nothing |
| Storage.HealingKeepsAgents | agent_storage.py:28-47 | healing the file does not change the listed records |
| Storage.StoredAgents | agent_storage.py:114-129 | `list_agents` returns the list the healed file would hold: the stored list, or `[]` when the file has none or cannot be read |
| Storage.FindIndex | agent_storage.py:64-69 | the search loop finds the first record with the agent's name, or none when no record has it |
| Storage.FirstNamed | agent_storage.py:104-108 | the record returned is stored, carries the name, and no earlier record carries it; None exactly when no record has the name |
| Storage.Upsert | agent_storage.py:71-78 | the saved agent is in the new list |
| Storage.UpsertReplaces | agent_storage.py:71-74 | a present name: the first record with it is replaced in place and nothing else changes |
| Storage.UpsertAppends | agent_storage.py:75-78 | a new name: the agent is appended after the unchanged records |
| Storage.UpsertThenFind | agent_storage.py:64-78 | after saving, looking the agent's name up returns exactly the saved agent |
| Storage.UpsertKeepsNamesDistinct | agent_storage.py:64-78 | saving keeps the stored names pairwise distinct |
| Storage.RemoveNamed | agent_storage.py:146-148 | deletion never lengthens the list |
| Storage.RemoveNamedMembers | agent_storage.py:147-148 | a record is kept exactly when it was stored and has a different name |
| Storage.RemoveNamedAppend | agent_storage.py:147-148 | the filter distributes over concatenation, so kept records stay in order |
| Storage.RemoveNamedShrinks | agent_storage.py:146-150 | the list shrinks exactly when some record has the name |
| Storage.RemoveAbsent | agent_storage.py:150-160 | deleting an absent name leaves the list unchanged |
| Storage.OfType | agent_storage.py:178-181 | the type filter never lengthens the list |
| Storage.OfTypeMembers | agent_storage.py:178-181 | a record is kept exactly when its task type is a string equal, ignoring case, to the one asked for |
| Storage.OfTypeAppend | agent_storage.py:178-181 | the type filter keeps the stored order |
| Storage.AgentsOfType | agent_storage.py:176-187 | a task type that is not a string makes `.lower()` raise, so the whole answer is `[]` |
| Storage.AgentsOfTypeMembers | agent_storage.py:178-181 | when all task types are strings, exactly the records whose type matches ignoring case are returned |
| Storage.Bump | agent_storage.py:202-203 | incrementing adds one to that key's count, leaves the other counts alone, adds the key if new, and keeps keys distinct |
| Storage.TypeCounts | agent_storage.py:200-203 | the counts add up to the number of agents, keys are distinct, and each key's count is its number of occurrences |
| Storage.MissingTypeCountsAsUnknown | agent_storage.py:202-203 | a record without `task_type` is counted under "unknown" |
| Storage.UntypedOccurs | agent_storage.py:202 | a record without `task_type` is an occurrence of "unknown" |
| Storage.SavedThenFound | agent_storage.py:59-84 | after a successful save, a lookup of the agent's name returns that agent |
| Storage.Saved | agent_storage.py:59-84 | a successful save lists the upserted records and keeps the other keys; a failed one leaves the file as it was; names that were distinct stay distinct |
| Storage.AgentStorage.constructor | agent_storage.py:17-26 | the registry file is healed on construction |
| Storage.AgentStorage.EnsureStorageFile | agent_storage.py:28-47 | the file becomes its healed form |
| Storage.AgentStorage.ListAgents | agent_storage.py:114-129 | the records returned are those the healed file holds |
| Storage.AgentStorage.SaveAgent | agent_storage.py:49-88 | returns True exactly when the file holds a registry and the write succeeds; the list is then upserted, otherwise the file is unchanged |
| Storage.AgentStorage.GetAgent | agent_storage.py:90-112 | the loop returns the first record with the name, or None |
| Storage.AgentStorage.DeleteAgent | agent_storage.py:131-164 | returns True exactly when a record had the name and the write succeeds; every such record is then removed, otherwise the file is unchanged |
| Storage.AgentStorage.GetAgentsByType | agent_storage.py:166-187 | `[]` when some task type is not a string; never more records than are stored |
| Storage.AgentStorage.GetStorageStats | agent_storage.py:189-220 | the stats give the number of agents, the per-type counts of the counting loop, the file name and whether the file exists |
| Agents.Encode | base_agent.py:108-120 | `to_dict` has the base keys plus `system_prompt` and `task_type`, and agrees with the base map on the base keys |
| Agents.Decode | base_agent.py:133-141 | the attributes `from_dict` assigns; its contract is given by the round trip and default rows below |
| Agents.DecodeEncode | base_agent.py:122-143 | decoding an encoded agent gives back every attribute |
| Agents.EncodeDecodeAgrees | base_agent.py:115-141 | a key that `from_dict` reads and `to_dict` writes keeps its value through decode and encode |
| Agents.DecodeDefaults | base_agent.py:133-141 | an empty dictionary decodes to `UnknownAgent`, empty strings, no timestamps and `general` |
| Agents.SpecializedAgent.constructor | base_agent.py:80-92 | the four given attributes are stored and both timestamps are None |
| Agents.SpecializedAgent.GetInfo | base_agent.py:31-44 | the info has exactly the five base keys, and its `type` is the class name |
| Agents.SpecializedAgent.BaseToDict | base_agent.py:46-59 | the base dictionary has exactly the five base keys |
| Agents.SpecializedAgent.ToDict | base_agent.py:108-120 | the base dictionary is extended with the two specialised fields |
| Agents.SpecializedAgent.FromDict | base_agent.py:122-143 | a fresh agent whose attributes are the dictionary's values, or the defaults for missing keys |
| Agents.InfoIsBaseDict | base_agent.py:31-59 | `get_info` and the base `to_dict` agree |
| Agents.ObjectRoundTrip | base_agent.py:108-143 | `from_dict(a.to_dict())` reproduces every attribute of `a` |
| Agents.ProcessRequestInjective | base_agent.py:94-106 | one agent gives different replies to different requests |
| Utils.SliceTo | utils.py:140 | Python's `text[:stop]` is a prefix of the text: `stop` characters when `0 <= stop <= len`, the whole text past the end, `len + stop` characters for a negative stop, and empty below `-len` |
| Utils.TruncateText | utils.py:126-140 | a fitting text is unchanged; otherwise a prefix of it followed by `...`, exactly `max_length` long when `max_length >= 3`; the result fits exactly when the text does or `max_length >= 3` |
| Utils.TruncateTextDefault | utils.py:126-140 | with the default `max_length` of 100, the result is at most 100 characters, and the text is unchanged exactly when it fits |
| Utils.KeepWordChars | utils.py:155 | only `[a-zA-Z0-9_]` remain, and every such character of the input remains |
| Utils.KeepWordCharsAppend | utils.py:155 | the filter distributes over concatenation, so kept characters stay in order |
| Utils.KeepWordCharsSingle | utils.py:155 | a single character is kept exactly when it is in `[a-zA-Z0-9_]` |
| Utils.KeepWordCharsFixed | utils.py:155 | a text of word characters passes the filter unchanged |
| Utils.Prefixed | utils.py:157-163 | the kept characters, possibly behind `Agent` |
| Utils.SanitizeAgentName | utils.py:143-165 | the name has only word characters, at least three of them, and starts with a letter; it is `Agent` when no valid character remains |
| Utils.DefaultAgentUnreachable | utils.py:165 | the `DefaultAgent` fallback is never taken |
| Utils.SanitizeKeepsWordChars | utils.py:155-163 | `Agent` is put in front of the kept characters exactly when they are not already three or more starting with a letter |
| Utils.SanitizeIdempotent | utils.py:143-165 | sanitising a sanitised name changes nothing |
| Utils.SanitizeValid | utils.py:143-165 | a name that is already valid is returned unchanged |
| Utils.HandleError | utils.py:192-216 | the reply is one of the three fixed messages or the error text behind the generic prefix |
| Utils.FixedMessagesAreNotGeneric | utils.py:209-216 | the three fixed messages differ from every generic message |
| Utils.HandleErrorEchoesIff | utils.py:209-216 | the error text is echoed exactly when no keyword matches |
| Utils.HandleErrorPriority | utils.py:209-214 | an error mentioning `API` or `key` gets the API message whatever else it says; timeout beats JSON |
| Utils.FormatUsesDefaults | utils.py:72-92 | missing keys show their defaults; an empty record shows `Unknown`, `general`, `No description`, `Unknown` |
| Utils.FormatAgentInfo | utils.py:72-92 | the four-line card of name, type, description and creator; its properties are in the rows around it |
| Utils.FormatIgnoresOtherKeys | utils.py:82-92 | keys other than the four shown do not change the card |
| Orchestrator.FallbackAgent | master_agent.py:204-210 | the fallback record has exactly five keys and is created by `MasterAgent` |
| Orchestrator.RequiresDelegation | master_agent.py:131 | the analysis flag read with Python truthiness and a default of False; its cases are in the next row |
| Orchestrator.DelegationFlagTruthiness | master_agent.py:131 | a missing flag, `null`, `false` and `""` keep the request at the master; `true` and every non-empty string, even `"false"`, delegate it |
| Orchestrator.CreateNewAgent | master_agent.py:158-210 | a parsed object gains `created_by`; anything else gives the fallback record |
| Orchestrator.FallbackAgentNamed | master_agent.py:204-210 | the fallback is always named; for an empty analysis its fields are `GeneralAgent`, the general description and prompt, and `general` |
| Orchestrator.DelegateTask | master_agent.py:212-249 | the reply is the model's text, a fixed message for an empty reply, or an error naming the agent; it is never empty |
| Orchestrator.HandleDirectly | master_agent.py:251-282 | the reply is the model's text, a fixed message for an empty reply, or the error; it is never empty |
| Orchestrator.PlanFor | master_agent.py:121-156 | no delegation means a direct answer; a non-object analysis aborts with the `.get` error; a raising lookup aborts with its message; a non-empty match is reused when it has a name and aborts with `KeyError('name')` otherwise; an agent is created exactly when the lookup found nothing |
| Orchestrator.ErrorReply | master_agent.py:67-69 | the reply to an exception that reaches `process_request`'s handler; see the next row |
| Orchestrator.ErrorReplyInjective | master_agent.py:67-69 | the reply carries the whole exception message: different messages give different replies |
| Orchestrator.Respond | master_agent.py:50-69 | the reply always exists: direct, delegated, or the error reply for the plan's exception |
| Orchestrator.AfterRequest | master_agent.py:148-156 | only creation touches storage, and a successful save leaves the new agent stored |
| Orchestrator.FailedAnalysisAnswersDirectly | master_agent.py:71-131 | a failed analysis yields the fallback analysis, whose flag is False, so the request is answered directly and nothing is stored |
| Orchestrator.FailedCreationDelegatesToFallback | master_agent.py:194-210 | a failed creation call delegates to the fallback agent |
| Orchestrator.CreatedAgentIsStored | master_agent.py:148-156 | after a successful creation, the registry returns the new agent for its name |
| Master.Lookup | master_agent.py:134-140 | an empty registry gives None; a returned agent is a non-empty stored record |
| Master.ReusedAgentIsBestMatch | master_agent.py:134-145 | a reused agent is the earliest best-scoring stored agent, over the floor and the threshold |
| Master.CreateOnlyWithoutMatch | master_agent.py:134-156 | a new agent is created only when the matcher picks no stored agent |
| Master.MasterAgent.constructor | master_agent.py:23-36 | name, description, a healed default registry and the default threshold |
| Master.MasterAgent.SearchRegistry | master_agent.py:134-140 | the call to the matcher gives the modelled lookup on the current registry |
| Master.MasterAgent.FindOrCreateAgent | master_agent.py:121-156 | the returned agent or exception follows the plan; storage changes only on the creation path |
| Master.MasterAgent.ProcessRequest | master_agent.py:38-69 | the reply is the planned response, never an exception; storage changes only by a created agent |

## Left out

- Language-model calls: the prompts, the model name and the network are not
  modelled. Each call is a parameter holding its outcome: `JsonReply` for
  the two structured calls and `TextReply` for the two free-text ones. The
  request text reaches the model only through those prompts, so it is not
  a parameter of `Master.MasterAgent.ProcessRequest`.
- File input and output: the registry file is the abstract `Storage.StoreFile`.
  - JSON serialisation, indentation and `os.path.exists` are not modelled.
  - Whether a rewrite succeeds is a `writeOk` parameter.
  - A failed rewrite is modelled as leaving the file as it was. A write that
    truncates the file and then fails is not captured.
  - The writes of `_ensure_storage_file` are assumed to succeed.
  - A file whose top-level JSON value is not an object is not modelled;
    on such a file `_ensure_storage_file` can raise.
- JSON values inside records are limited to null, booleans and strings.
  Numbers, lists and nested objects are not modelled.
- The `agents` entry of the registry file is always a list of objects.
  A file whose `agents` value is some other JSON value is not modelled.
  On such a file, `len(agents)` or `agent.get` raises and
  `get_storage_stats` takes its error branch (agent_storage.py:212-221).
  An unhashable task type, which cannot occur with the modelled values,
  reaches that branch too. So the error branch is not modelled.
- Similarity arithmetic uses exact reals rather than floating point.
  `numpy` and `math` rounding are not modelled. The square root is a
  parameter satisfying `Metrics.IsSqrt`.
- `Metrics.Score`: the `min(weighted, 1.0)` clamp is kept, but it is proved
  to have no effect on reals. With floats it might round a sum a hair above 1.
- `Utils.TruncateText`: the `max_length` parameter is explicit.
  `Utils.TruncateTextDefault` is the call that relies on its default of 100.
- Text handling is ASCII only. `str.lower()`, `isalpha()`, `\s` and
  `str.split()` on non-ASCII characters are not modelled.
- Logging, `print` and the emoji progress messages are left out.
  - `handle_error`'s `context` argument only reaches the log, so it is not
    a parameter of `Utils.HandleError`.
  - The messages of exceptions other than the `AttributeError` and
    `KeyError` the core can raise itself come in through the oracles.
- `BaseAgent.process_request` is abstract and has no behaviour to model.
  `BaseAgent`'s other methods are modelled through `SpecializedAgent`.
- The other helpers of utils.py are not part of this model:
  - `setup_logging`, `validate_environment`, `print_system_stats`,
    `get_timestamp` and `print_welcome_banner` are logging, environment,
    clock and console code.
  - main.py, demo.py, examples.py, setup.py and test_system.py are
    drivers and scripts.
- Concurrency: two processes sharing the registry file are not modelled.
