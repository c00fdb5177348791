# YesCity recommendation core in Dafny

This project models the deterministic core of the YesCity recommendation
assistant and proves properties of it. It covers the logic that sits
between the language model and the MongoDB database:

- how a user query is classified into a category and a city, including the
  keyword fallback used when the model's reply cannot be used;
- how the agents' free text is parsed into recommendation records, by a
  chain of JSON and regular-expression strategies;
- how those picks are hydrated against a collection, and how the service
  wraps the crew's answer;
- how the query tools build their MongoDB filters and shape the documents
  they return (`ObjectId`/`datetime` conversion, the shopping record);
- how the direct assistant lists tool results for the generation model;
- how the HTTP routes map records to response items and choose a failure
  status.

The language model, the crew, the JSON decoder, the clock and the database
are parameters of the model. A database is a function from collection names
to in-memory collections.

| file | module | models |
|---|---|---|
| py_strings.dfy | PyStrings | the `str` operations the code relies on: `lower`, `in`, `find`/`rfind`, `strip`, `join`, `split()`, `str(int)` |
| py_values.dfy | PyValues | Python values (JSON, BSON `ObjectId`, `datetime`), ordered dicts with `get`/`[k] =`/`update`, truthiness, `str()`/`repr()`, `isoformat()` |
| mongo_store.dfy | MongoStore | a collection as a sequence of identity-tagged object graphs; `find_one`, `find().limit()`, the `$regex` conditions the core sends |
| output_patterns.dfy | OutputPatterns | the five regular expressions of the crew output parser, each as a recogniser |
| crew_output_parser.dfy | CrewOutputParser | `parse_shopping_recommendations`, `parse_food_recommendations` and the fixtures of `test_parser.py` |
| query_classifier.dfy | QueryClassifier | `classify_query` and `_fallback_classification` |
| recommendation_service.dfy | RecommendationService | `convert_objectid_to_str`, `get_recommendation_by_category`, `_get_full_data`, `get_recommendations` |
| base_tool.dfy | BaseTool | `MongoDBQueryTool._run` and `_convert_objectids` |
| shopping_tools.dfy | ShoppingTools | `validate_flagship` and `ShoppingSearchTool._run` |
| main1.dfy | DirectAssistant | `format_tool_results` and the food-search arguments of `main` |
| routes.dfy | Routes | the item mapping and response validation of `/recommend` and `/category-search`, their `try` blocks and the failure status of `/category-search` |

Code that works step by step is modelled as methods with loops:

- the parser loops, the fallback scans and the query-part loop;
- `_get_full_data`, which writes `rec["error"]` into an `array` of records in
  place;
- the conversion loops of `_convert_objectids`;
- the filter building of the shopping tool and its formatting loop;
- `format_tool_results`.

The caller's filter dict that `_run` updates is a class, `BaseTool.FilterDict`.
Each method is proved equal to a specification function, and the
properties are proved about those functions.

## Model

| member | source | states |
|---|---|---|
| PyStrings.Lower | src/yescity_recommendation_ai/services/query_classifier.py:141 | `lower()` leaves no capital A–Z; on ASCII text it maps each character; text without capitals or the two special characters is unchanged |
| PyStrings.LowerIdempotent | src/yescity_recommendation_ai/services/query_classifier.py:141 | lower-casing twice is lower-casing once |
| PyStrings.Find | src/yescity_recommendation_ai/crew/crew_output_parser.py:326 | `find` gives the first index of the character, or -1 exactly when it is absent |
| PyStrings.RFind | src/yescity_recommendation_ai/crew/crew_output_parser.py:327 | `rfind` gives the last index of the character, or -1 exactly when it is absent |
| PyStrings.TrimSpec | src/yescity_recommendation_ai/crew/crew_output_parser.py:355-356 | `strip()` removes exactly the longest leading and trailing runs of whitespace and keeps the middle |
| PyStrings.TrimKeeps | src/yescity_recommendation_ai/crew/crew_output_parser.py:575-576 | stripping keeps only characters of the text, and keeps all of a text that neither starts nor ends with a stripped character |
| PyStrings.CollapseSpacesShape | src/yescity_recommendation_ai/crew/crew_output_parser.py:532 | `' '.join(s.split())` has no whitespace at its ends and no whitespace but single spaces |
| PyStrings.CollapseSpacesKeepsText | src/yescity_recommendation_ai/crew/crew_output_parser.py:532 | collapsing whitespace keeps every other character, in order |
| PyStrings.JoinNewlines | main1.py:45 | joining newline-free pieces with `"\n"` gives one newline fewer than there are pieces |
| PyStrings.NatStr | main1.py:38 | `str(i)` is a non-empty run of decimal digits without a leading zero |
| PyStrings.NatStrRoundTrip | main1.py:38 | the decimal rendering reads back as the number |
| PyValues.Get | main1.py:33 | `d.get(k)` is absent exactly when no pair has key `k`, and otherwise is a value paired with `k` |
| PyValues.GetOr | main1.py:32 | `d.get(k, default)` gives the default exactly when the key is absent |
| PyValues.SetKey | src/yescity_recommendation_ai/tools/shopping_tools.py:129 | `d[k] = v` makes `k` give `v`, leaves every other key's value, keeps the key order and appends a new key |
| PyValues.SetKeyNew | src/yescity_recommendation_ai/tools/shopping_tools.py:133 | setting a key the dict lacks appends its pair |
| PyValues.Update | src/yescity_recommendation_ai/tools/base_tool.py:169-170 | `d.update(kw)`: keys of `kw` get their last value there, other keys keep theirs |
| PyValues.FirstTruthy | main1.py:33 | `a or b or default` over `get`: the first truthy looked-up value, else the default |
| PyValues.ReprStr | main1.py:38 | `repr` of a text uses single quotes unless the text holds `'` and no `"`; it holds no character that needs a `\x`, `\u` or `\U` escape; a text with nothing to escape comes back between single quotes as it is |
| PyValues.ReprBodyLiteral | main1.py:38 | inside the quotes, a text without a character `repr` escapes is copied unchanged |
| PyValues.IsoFormatRoundTrip | src/yescity_recommendation_ai/tools/base_tool.py:211-212 | `isoformat()` determines the `datetime`: parsing it back gives the same date and time |
| PyValues.IsoFormatFraction | src/yescity_recommendation_ai/tools/base_tool.py:211-212 | `isoformat()` has 19 characters without microseconds, otherwise a dot and six digits of microseconds |
| PyValues.ObjectIdOf | src/yescity_recommendation_ai/services/recommendation_service.py:112 | gives the identifier exactly for a 24-digit hex text, in either case, or an `ObjectId`, and it is 24 hex digits. Any other input gives none. That covers both the inputs that raise and `ObjectId(None)`, which makes a fresh identifier that no stored document has, so at the call site the outcome is the same: nothing is found |
| MongoStore.AnchoredIgnoreCaseMatches | src/yescity_recommendation_ai/tools/base_tool.py:178 | `{"$regex": "^t$", "$options": "i"}` matches exactly the text fields equal to `t` up to case |
| MongoStore.MatchesConcat | src/yescity_recommendation_ai/tools/shopping_tools.py:125-133 | a document matches a filter with more keys exactly when it matches each part |
| MongoStore.FirstMatch | src/yescity_recommendation_ai/services/recommendation_service.py:112 | the first matching document: none before it matches |
| MongoStore.FindOne | src/yescity_recommendation_ai/services/recommendation_service.py:130 | `find_one` raises exactly when the server refuses; otherwise it gives the first match, or `None` when nothing matches |
| MongoStore.Matching | src/yescity_recommendation_ai/tools/base_tool.py:182 | `find` yields documents of the collection that match, and every document that matches |
| MongoStore.MatchingSnoc | src/yescity_recommendation_ai/tools/base_tool.py:182 | the matches come in collection order: one more document at the end adds it at the end exactly when it matches |
| MongoStore.FindLimited | src/yescity_recommendation_ai/tools/base_tool.py:182-183 | `find(filter).limit(n)` raises exactly when the server refuses; otherwise it yields the first matches in collection order: all of them when `n == 0`, else `min(abs(n), number of matches)` |
| OutputPatterns.SkipSpacesSpec | src/yescity_recommendation_ai/crew/crew_output_parser.py:365 | `\s*` consumes exactly the run of whitespace |
| OutputPatterns.NameCapture | src/yescity_recommendation_ai/crew/crew_output_parser.py:365 | `([^,\n\r}]+)` captures a non-empty maximal run of the class, and fails exactly when no class character follows the spaces |
| OutputPatterns.LenientAt | src/yescity_recommendation_ai/crew/crew_output_parser.py:365 | a lenient match captures 24 hex digits and a non-empty name without `,`, `}`, CR or LF |
| OutputPatterns.FindAllLenient | src/yescity_recommendation_ai/crew/crew_output_parser.py:366 | every pair `re.findall` returns for the lenient pattern has a 24-digit hex id and a name of the class |
| OutputPatterns.QuotedAt | src/yescity_recommendation_ai/crew/crew_output_parser.py:554 | a quoted-pair match captures a non-empty id and name without `"` |
| OutputPatterns.FindAllQuoted | src/yescity_recommendation_ai/crew/crew_output_parser.py:555 | every pair `re.findall` returns for the quoted pattern is two non-empty texts without `"` |
| OutputPatterns.BestBracketShape | src/yescity_recommendation_ai/crew/crew_output_parser.py:526 | from a `{`, the backtracking search finds the match with the last possible `[`, and nothing exactly when no match exists |
| OutputPatterns.MatchAt | src/yescity_recommendation_ai/crew/crew_output_parser.py:526 | the match starting at a position is the one the greedy engine picks, or there is none |
| OutputPatterns.SearchFrom | src/yescity_recommendation_ai/crew/crew_output_parser.py:526 | `re.search` gives the leftmost match, or none when no position starts one |
| OutputPatterns.ShapeText | src/yescity_recommendation_ai/crew/crew_output_parser.py:526 | a matched text starts with `{`, ends with `}` and contains `"recommendations"` |
| OutputPatterns.JsonObjectCandidate | src/yescity_recommendation_ai/crew/crew_output_parser.py:526-530 | the food candidate is brace-delimited and holds `"recommendations"` |
| OutputPatterns.JsonObjectCandidateNone | src/yescity_recommendation_ai/crew/crew_output_parser.py:526-528 | there is no candidate exactly when no position of the text starts a match |
| CrewOutputParser.KeptRecs | src/yescity_recommendation_ai/crew/crew_output_parser.py:351-357 | the kept records are at most the input's, each a dict with `_id` and the name key |
| CrewOutputParser.KeptAllOrNone | src/yescity_recommendation_ai/crew/crew_output_parser.py:353 | a list whose every element has the keys is kept whole, one where none has them is dropped |
| CrewOutputParser.KeptConcat | src/yescity_recommendation_ai/crew/crew_output_parser.py:351-357 | keeping works element by element, in order |
| CrewOutputParser.KeptMembers | src/yescity_recommendation_ai/crew/crew_output_parser.py:353 | an element is kept exactly when it is in the list and has the keys |
| CrewOutputParser.CollectPicks | src/yescity_recommendation_ai/crew/crew_output_parser.py:350-357 | the loop builds one stripped `str()` record per kept element, in order |
| CrewOutputParser.FoodName | src/yescity_recommendation_ai/crew/crew_output_parser.py:541-544 | a food name is the stripped first truthy of `name` and `foodPlace`, else `"Unknown"` |
| CrewOutputParser.CleanKeeps | src/yescity_recommendation_ai/crew/crew_output_parser.py:575-576 | cleaning only removes characters; the quote cleaning leaves no `'` at either end |
| CrewOutputParser.CleanHexId | src/yescity_recommendation_ai/crew/crew_output_parser.py:575 | a 24-digit hex id comes out of cleaning unchanged |
| CrewOutputParser.CleanAll | src/yescity_recommendation_ai/crew/crew_output_parser.py:371-375 | the regex loop makes one cleaned record per captured pair, in order |
| CrewOutputParser.CleanLenient | src/yescity_recommendation_ai/crew/crew_output_parser.py:365-377 | lenient records keep their captured hex id and have names without `,`, `}`, CR or LF |
| CrewOutputParser.BraceSpan | src/yescity_recommendation_ai/crew/crew_output_parser.py:326-332 | the first `{` and the last `}`, which exist exactly when some `{` comes before some `}` |
| CrewOutputParser.ShoppingCandidate | src/yescity_recommendation_ai/crew/crew_output_parser.py:332-333 | the shopping candidate starts with `{` and ends with `}` |
| CrewOutputParser.SurroundedCandidate | src/yescity_recommendation_ai/crew/crew_output_parser.py:326-333 | prose without braces around an object leaves exactly that object as the candidate |
| CrewOutputParser.RecList | src/yescity_recommendation_ai/crew/crew_output_parser.py:341-349 | there is a list exactly when the data is a dict whose `recommendations` is a list |
| CrewOutputParser.ParseShopping | src/yescity_recommendation_ai/crew/crew_output_parser.py:306-399 | the shopping parser's loops compute the strategy chain's result |
| CrewOutputParser.ShoppingJsonDecides | src/yescity_recommendation_ai/crew/crew_output_parser.py:337-359 | a decoded `recommendations` list decides the result, even when nothing is kept; the regex is not consulted |
| CrewOutputParser.ShoppingWithoutBraces | src/yescity_recommendation_ai/crew/crew_output_parser.py:332 | without a `{` before a `}` the decoder is never called; the regex decides |
| CrewOutputParser.ShoppingRegexRecords | src/yescity_recommendation_ai/crew/crew_output_parser.py:363-393 | records from the regex path have 24-digit hex ids and names without `,`, `}`, CR or LF |
| CrewOutputParser.ShoppingDecoderFailure | src/yescity_recommendation_ai/crew/crew_output_parser.py:395-399 | a decoder error other than `JSONDecodeError` ends in the outer handler with `[]` |
| CrewOutputParser.FoodCandidate | src/yescity_recommendation_ai/crew/crew_output_parser.py:526-532 | the food candidate exists exactly when the pattern matches; it is brace-delimited, its whitespace is single spaces, and it keeps the match's other characters |
| CrewOutputParser.ParseFood | src/yescity_recommendation_ai/crew/crew_output_parser.py:514-590 | the food parser's stages compute the strategy chain's result |
| CrewOutputParser.FoodJsonStage | src/yescity_recommendation_ai/crew/crew_output_parser.py:528-551 | the JSON stage gives the collected records, or falls through, or gives up |
| CrewOutputParser.FoodRegex | src/yescity_recommendation_ai/crew/crew_output_parser.py:553-584 | the two regex loops give the quoted pairs, else the lenient ones, else `[]` |
| CrewOutputParser.FoodJsonDecides | src/yescity_recommendation_ai/crew/crew_output_parser.py:536-549 | non-empty JSON records are the result; an empty list falls through to the regex strategies |
| CrewOutputParser.FoodOrder | src/yescity_recommendation_ai/crew/crew_output_parser.py:554-579 | quoted pairs win when there are any, and the lenient pattern is used only when there are none |
| CrewOutputParser.FoodLenientRecords | src/yescity_recommendation_ai/crew/crew_output_parser.py:568-579 | lenient food records have 24-digit hex ids and names without `,`, `}`, CR, LF or a `'` at either end |
| CrewOutputParser.FoodQuotedRecords | src/yescity_recommendation_ai/crew/crew_output_parser.py:554-565 | quoted food records hold no `"` |
| CrewOutputParser.ShopRecordsPicks | src/yescity_recommendation_ai/crew/crew_output_parser.py:349-357 | a list of `{_id, shops}` objects with bare texts converts back to exactly its pairs |
| CrewOutputParser.SurroundedRecords | test_parser.py:36-43 | an object surrounded by brace-free prose yields the records of its pairs, in order |
| CrewOutputParser.TestCase1 | test_parser.py:13-18 | the first fixture yields its two records |
| CrewOutputParser.TestCase2 | test_parser.py:21-34 | the second fixture, with newlines around the object, yields its two records |
| CrewOutputParser.TestCase3 | test_parser.py:37-43 | the third fixture yields one record and keeps `test123` although it is not an ObjectId |
| QueryClassifier.FirstCity | src/yescity_recommendation_ai/services/query_classifier.py:174-179 | the first city, in list order, whose lower-case name occurs in the query |
| QueryClassifier.FirstKeyword | src/yescity_recommendation_ai/services/query_classifier.py:144-186 | the first keyword, in table order, that occurs in the query |
| QueryClassifier.ScanCities | src/yescity_recommendation_ai/services/query_classifier.py:175-179 | the city loop stops at the first found city, `None` when none is found |
| QueryClassifier.ScanKeywords | src/yescity_recommendation_ai/services/query_classifier.py:182-186 | the keyword loop gives the first found keyword's category, `cityinfos` by default |
| QueryClassifier.FallbackClassification | src/yescity_recommendation_ai/services/query_classifier.py:139-193 | the fallback as written computes the keyword and city choice |
| QueryClassifier.FallbackCategory | src/yescity_recommendation_ai/services/query_classifier.py:188-193 | the fallback's category is a table value or `cityinfos`, its parameters are empty and its confidence is 0.5 |
| QueryClassifier.PlacesToVisitOutside | src/yescity_recommendation_ai/services/query_classifier.py:159-161 | the fallback can give `places_to_visit`, which is not one of the nine categories |
| QueryClassifier.FallbackKeyword | src/yescity_recommendation_ai/services/query_classifier.py:183-186 | the first table keyword in the lower-cased query decides the category |
| QueryClassifier.FallbackNoKeyword | src/yescity_recommendation_ai/services/query_classifier.py:182 | the category is `cityinfos` exactly when no keyword occurs |
| QueryClassifier.DefaultNotInTable | src/yescity_recommendation_ai/services/query_classifier.py:144-171 | no keyword maps to `cityinfos` |
| QueryClassifier.FallbackCity | src/yescity_recommendation_ai/services/query_classifier.py:176-179 | the first listed city occurring in the query is the city |
| QueryClassifier.FallbackNoCity | src/yescity_recommendation_ai/services/query_classifier.py:175 | the city is `None` exactly when no listed city occurs |
| QueryClassifier.JsonSlice | src/yescity_recommendation_ai/services/query_classifier.py:114-118 | the guard always holds; with a `{` before the last `}` the slice is that object, otherwise it is empty or `}` |
| QueryClassifier.ValidCategory | src/yescity_recommendation_ai/services/query_classifier.py:122-124 | only one of the nine categories is kept; anything else becomes `cityinfos` |
| QueryClassifier.ValidCity | src/yescity_recommendation_ai/services/query_classifier.py:14 | `cityName` must be `None` or a text |
| QueryClassifier.ValidParameters | src/yescity_recommendation_ai/services/query_classifier.py:15 | `parameters` must be a dict of texts, and is kept pair by pair |
| QueryClassifier.FromModel | src/yescity_recommendation_ai/services/query_classifier.py:122-131 | a valid category, with `None`, `{}` and 0.5 for a missing city, missing parameters and missing confidence; a present `cityName` and `parameters` are the values pydantic's checks give; a present confidence is kept; the model's answer is refused exactly when a field has the wrong type |
| QueryClassifier.ClassifyQueryOutcome | src/yescity_recommendation_ai/services/query_classifier.py:100-137 | a failing model call, an undecodable reply or a refused construction gives the fallback; otherwise the model's answer; the category is always listed or a fallback value |
| RecommendationService.ConvertObjectIdToStr | src/yescity_recommendation_ai/services/recommendation_service.py:20-27 | no `ObjectId` is left at any depth; an `ObjectId` becomes its hex text; lists keep their length, dicts their keys; other values are unchanged |
| RecommendationService.ConvertWithoutOid | src/yescity_recommendation_ai/services/recommendation_service.py:26-27 | a value without `ObjectId`s is unchanged |
| RecommendationService.ConvertIdempotent | src/yescity_recommendation_ai/api/routes.py:30-37 | converting twice is converting once |
| RecommendationService.ConvertChildren | src/yescity_recommendation_ai/api/routes.py:32-35 | each list element and dict value is converted in place, keys and order kept |
| RecommendationService.TruthyFilters | src/yescity_recommendation_ai/services/recommendation_service.py:81-83 | the filters used are truthy filters from the input |
| RecommendationService.ByCategoryQuery | src/yescity_recommendation_ai/services/recommendation_service.py:80-85 | the loop and `" ".join` give the joined query parts |
| RecommendationService.ByCategoryQueryText | src/yescity_recommendation_ai/services/recommendation_service.py:80-85 | the query is `"<category> in <city>"` and then `" <key>: <value>"` for each truthy filter in order |
| RecommendationService.AllFiltersTruthy | src/yescity_recommendation_ai/services/recommendation_service.py:82 | with every filter truthy all are used |
| RecommendationService.NoFilterTruthy | src/yescity_recommendation_ai/services/recommendation_service.py:80 | with no filter truthy the query is only the head |
| RecommendationService.NameField | src/yescity_recommendation_ai/services/recommendation_service.py:119-124 | `foodPlace` exactly for `foods`, `shops` exactly for `shoppings`, `name` otherwise |
| RecommendationService.ResolveById | src/yescity_recommendation_ai/services/recommendation_service.py:110-117 | a record whose `_id` finds a document resolves to the first such document, whatever its names |
| RecommendationService.ResolveWithoutName | src/yescity_recommendation_ai/services/recommendation_service.py:126-128 | without a truthy search name a record not found by `_id` is not looked up by name |
| RecommendationService.Annotate | src/yescity_recommendation_ai/services/recommendation_service.py:140-148 | `error` is set to the note when not found or failed, and no other key changes |
| RecommendationService.EntryAsWritten | src/yescity_recommendation_ai/services/recommendation_service.py:117-143 | as written a record adds at most one entry, and none exactly when found by `_id` |
| RecommendationService.EntryIntended | src/yescity_recommendation_ai/services/recommendation_service.py:136-148 | the converted document when found, the annotated record otherwise; as written that is what is added unless found by `_id` |
| RecommendationService.OutcomesAt | src/yescity_recommendation_ai/services/recommendation_service.py:105-134 | each record's outcome is that of its own lookups |
| RecommendationService.FullDataAsWritten | src/yescity_recommendation_ai/services/recommendation_service.py:91-150 | `_get_full_data` as written returns no more entries than records |
| RecommendationService.FullDataIntended | src/yescity_recommendation_ai/services/recommendation_service.py:102-150 | the intended hydration returns one entry per record |
| RecommendationService.AsWrittenWithoutById | src/yescity_recommendation_ai/services/recommendation_service.py:117-148 | when no record is found by `_id`, the code as written gives the intended entries |
| RecommendationService.AsWrittenAllById | src/yescity_recommendation_ai/services/recommendation_service.py:117 | when every record is found by `_id`, nothing is returned |
| RecommendationService.AsWrittenCount | src/yescity_recommendation_ai/services/recommendation_service.py:105-150 | as written there is exactly one entry per record not found by `_id` |
| RecommendationService.FoundByIdIsDropped | src/yescity_recommendation_ai/services/recommendation_service.py:110-139 | a record found by `_id` yields no entry as written, and its converted document as intended |
| RecommendationService.HydrateRecord | src/yescity_recommendation_ai/services/recommendation_service.py:106-148 | one turn of the loop: the record gets its note in place, and the entry added is the as-written one |
| RecommendationService.HydrateAll | src/yescity_recommendation_ai/services/recommendation_service.py:105-148 | every record is annotated in place, and `full_data` holds the as-written entries, sharing the records |
| RecommendationService.GetFullData | src/yescity_recommendation_ai/services/recommendation_service.py:91-150 | `_get_full_data` with the category's collection gives the as-written result and annotates the records in place |
| RecommendationService.RecordsOf | src/yescity_recommendation_ai/services/recommendation_service.py:105 | the recommendations are a list of dicts exactly when they can be hydrated |
| RecommendationService.Hydrate | src/yescity_recommendation_ai/services/recommendation_service.py:55-60 | without truthy recommendations and category the crew result is unchanged; with them an exception escapes exactly when the category is not a text or the recommendations are not a list of dicts; keys other than `full_data` and `recommendations` are kept |
| RecommendationService.HydrateFullData | src/yescity_recommendation_ai/services/recommendation_service.py:58-60 | with them, `full_data` is the hydration of the recommendations against the category's collection, the records carry their notes, and every other key of the crew result is kept |
| RecommendationService.UnsuccessfulEnvelope | src/yescity_recommendation_ai/services/recommendation_service.py:50-52 | an unsuccessful crew result comes back with only `processing_time` added |
| RecommendationService.SuccessfulEnvelope | src/yescity_recommendation_ai/services/recommendation_service.py:54-65 | a successful one gets `processing_time`, `classification` and the hydration's `full_data` and `recommendations` |
| RecommendationService.SuccessfulEnvelopeFrame | src/yescity_recommendation_ai/services/recommendation_service.py:54-65 | every other key of a successful envelope is the crew result's own |
| BaseTool.Normalize | src/yescity_recommendation_ai/tools/base_tool.py:205-240 | the intended conversion leaves plain data; lists keep their length, dicts their keys; leaves are converted |
| BaseTool.NormalizePlain | src/yescity_recommendation_ai/tools/base_tool.py:238-240 | plain data is returned unchanged |
| BaseTool.NormalizeIdempotent | src/yescity_recommendation_ai/tools/base_tool.py:199-240 | converting twice is converting once |
| BaseTool.Walk | src/yescity_recommendation_ai/tools/base_tool.py:199-240 | the walk as written only adds identities; lists keep their length and dicts their keys |
| BaseTool.WalkItems | src/yescity_recommendation_ai/tools/base_tool.py:228-236 | the list loop yields one value per item walked |
| BaseTool.WalkEntries | src/yescity_recommendation_ai/tools/base_tool.py:215-225 | the dict loop yields one entry per entry walked, keys kept |
| BaseTool.ConvertObjectIds | src/yescity_recommendation_ai/tools/base_tool.py:199-240 | the method's loops compute the walk with the shared visited set |
| BaseTool.WalkWithoutSharing | src/yescity_recommendation_ai/tools/base_tool.py:203-236 | with no object below the root reached twice, the walk is the intended conversion and visits every identity below the root |
| BaseTool.WalkItemsValues | src/yescity_recommendation_ai/tools/base_tool.py:228-236 | without sharing, each list item is converted as intended |
| BaseTool.WalkEntriesValues | src/yescity_recommendation_ai/tools/base_tool.py:215-225 | without sharing, each dict value is converted as intended |
| BaseTool.WalkEntriesSeen | src/yescity_recommendation_ai/tools/base_tool.py:219-224 | without sharing, the dict loop adds exactly the identities below it |
| BaseTool.SharedNoneBecomesString | src/yescity_recommendation_ai/tools/base_tool.py:219-224 | as written, a document whose two fields hold the one `None` object gets the text `"None"` for the second |
| BaseTool.SharedNoneIntended | src/yescity_recommendation_ai/tools/base_tool.py:238-240 | the intended conversion keeps both `None`s |
| BaseTool.FilterDict.constructor | src/yescity_recommendation_ai/tools/base_tool.py:168 | the caller's filter dict holds the given pairs |
| BaseTool.RewriteCity | src/yescity_recommendation_ai/tools/base_tool.py:173-178 | a non-dict `cityName` becomes the anchored case-insensitive regex; dict or absent is unchanged; other keys are unchanged |
| BaseTool.ShipOne | src/yescity_recommendation_ai/tools/base_tool.py:188 | the walk of one fetched document keeps a dict a dict, leaves no `ObjectId` or `datetime` when its atoms hold no containers, and is the intended conversion when no object is shared |
| BaseTool.WalkPlain | src/yescity_recommendation_ai/tools/base_tool.py:199-240 | the walk leaves no `ObjectId` or `datetime` behind |
| BaseTool.Shipped | src/yescity_recommendation_ai/tools/base_tool.py:186-192 | one value per document, each walked by `_convert_objectids` with a fresh visited set: dicts stay dicts, and unshared documents get the intended conversion |
| BaseTool.ShippedIntended | src/yescity_recommendation_ai/tools/base_tool.py:238-240 | the intended shipping: each document converted on its own merits, plain, dicts staying dicts |
| BaseTool.ShippedAsIntended | src/yescity_recommendation_ai/tools/base_tool.py:186-192 | on documents without shared objects the shipping as written is the intended one |
| BaseTool.ShippedSharedNone | src/yescity_recommendation_ai/tools/base_tool.py:188 | the document with two `None` fields is shipped as `{"lat": None, "lon": "None"}`, where `{"lat": None, "lon": None}` is meant |
| BaseTool.ShipAll | src/yescity_recommendation_ai/tools/base_tool.py:186-192 | the conversion loop calls `_convert_objectids` on every fetched document, in order |
| BaseTool.RunResult | src/yescity_recommendation_ai/tools/base_tool.py:182-197 | `[]` when the query raises; otherwise one dict per fetched document, in order, each the walk of that document, without `ObjectId` or `datetime` when its atoms hold no containers; at most `abs(limit)` of them |
| BaseTool.Run | src/yescity_recommendation_ai/tools/base_tool.py:159-197 | `_run` returns the result for the caller's filter updated by kwargs, and updates a non-empty caller dict in place |
| ShoppingTools.ValidateFlagship | src/yescity_recommendation_ai/tools/shopping_tools.py:94-100 | `None` exactly for None, `'null'` and `'None'`; other texts give `lower() == 'true'`; other values pass unchanged |
| ShoppingTools.FlagshipIdempotent | src/yescity_recommendation_ai/tools/shopping_tools.py:96-100 | validating a validated value changes nothing |
| ShoppingTools.FlagshipTrueAnyCase | src/yescity_recommendation_ai/tools/shopping_tools.py:98-99 | `"true"` in any capitals sets the flag |
| ShoppingTools.FlagshipOtherNull | src/yescity_recommendation_ai/tools/shopping_tools.py:96-99 | a `null` in other capitals, such as `"NULL"`, is not `None`: it clears the flag |
| ShoppingTools.ShoppingFilter | src/yescity_recommendation_ai/tools/shopping_tools.py:125 | the filter always starts with the anchored case-insensitive city condition |
| ShoppingTools.ShoppingFilterKeys | src/yescity_recommendation_ai/tools/shopping_tools.py:125-133 | `category` is present exactly when it is truthy, not `'null'` and not `'none'` in any case; `flagship` exactly when not `None` |
| ShoppingTools.BuildFilter | src/yescity_recommendation_ai/tools/shopping_tools.py:124-133 | the key-by-key construction gives that filter |
| ShoppingTools.ShoppingFilterMatches | src/yescity_recommendation_ai/tools/shopping_tools.py:125-133 | a shop matches exactly when its city equals up to case, its category matches when one is wanted, and its flag equals when one is given |
| ShoppingTools.CategoryConditionMatches | src/yescity_recommendation_ai/tools/shopping_tools.py:129 | the category condition matches the text fields its pattern finds, ignoring case |
| ShoppingTools.ShoppingFilterKept | src/yescity_recommendation_ai/tools/shopping_tools.py:138-139 | the base tool sends this filter as it is |
| ShoppingTools.FormatShop | src/yescity_recommendation_ai/tools/shopping_tools.py:145-165 | a formatted record has exactly the 19 listed keys, in order |
| ShoppingTools.FormatShopId | src/yescity_recommendation_ai/tools/shopping_tools.py:146 | `_id` is `str()` of the document's `_id`, and `""` without one |
| ShoppingTools.FormatShopCopies | src/yescity_recommendation_ai/tools/shopping_tools.py:147-164 | every listed key the document has is copied unchanged |
| ShoppingTools.FormatShopDefaults | src/yescity_recommendation_ai/tools/shopping_tools.py:147-164 | every listed key the document lacks takes its default |
| ShoppingTools.FormatShopDrops | src/yescity_recommendation_ai/tools/shopping_tools.py:144-165 | every other key is dropped |
| ShoppingTools.FormatShopIdempotent | src/yescity_recommendation_ai/tools/shopping_tools.py:145-165 | formatting a formatted record gives it back |
| ShoppingTools.FormatAll | src/yescity_recommendation_ai/tools/shopping_tools.py:142-166 | one formatted record per result, in order |
| ShoppingTools.SearchShopping | src/yescity_recommendation_ai/tools/shopping_tools.py:112-169 | the tool returns the formatted base-tool results for its filter on `shoppings`, in order |
| DirectAssistant.Entries | main1.py:28-40 | the first `min(n, 20)` results as entries numbered from 1, in input order |
| DirectAssistant.Listed | main1.py:28-43 | the entry lines, then the overflow line `"... and {n-20} more results."` exactly when `n > 20` |
| DirectAssistant.FormatResults | main1.py:20-45 | the loop and the join give the listing of the results |
| DirectAssistant.NoResultsIffEmpty | main1.py:22-23 | the listing is `"No results found."` exactly when there are no results |
| DirectAssistant.EntryOneLine | main1.py:38 | an entry of newline-free values is one line |
| DirectAssistant.ListedOneLine | main1.py:38-43 | then no listed line holds a newline |
| DirectAssistant.ListingLines | main1.py:42-45 | the listing has `min(n, 20)` lines plus one when `n > 20`, with no trailing newline |
| DirectAssistant.NonSwitchesVegOff | main1.py:93 | `"non"` in any capitals anywhere switches the vegetarian filter off |
| DirectAssistant.VegSwitchesOn | main1.py:93-94 | `"veg"` in any capitals without `"non"` switches it on |
| DirectAssistant.Param | main1.py:90 | `parameters.get(key)` is absent exactly when no pair has the key, otherwise the value of a pair with it |
| DirectAssistant.CategoryFilter | main1.py:90 | the category when it is a non-empty text, otherwise `food_type` |
| Routes.ResponseItems | src/yescity_recommendation_ai/api/routes.py:59-66 | over a list the mapping succeeds exactly when every element is a dict with `_id` and `name`; an empty text or dict gives no items; anything else raises |
| Routes.ResponseItemsCopy | src/yescity_recommendation_ai/api/routes.py:59-66 | one item per record, in order, with `_id` and `name` copied, `type` the result's category, and no other key |
| Routes.ShoppingPicksHaveNoName | src/yescity_recommendation_ai/api/routes.py:61-65 | records of the shopping parser have no `name`, so mapping them raises |
| Routes.FailureStatus | src/yescity_recommendation_ai/api/routes.py:134-135 | 501 exactly when the lower-cased error text holds `"not implemented"`, 400 for other texts, 500 when the error is not a text |
| Routes.FailureWithoutError | src/yescity_recommendation_ai/api/routes.py:135 | without an `error` key the status is 400 |
| Routes.NotImplementedAnyCase | src/yescity_recommendation_ai/api/routes.py:135 | the phrase in any capitals anywhere gives 501 |
| Routes.Guarded | src/yescity_recommendation_ai/api/routes.py:141-150 | as written, a `try` block that returns answers 200 and one that raises answers 500, whatever it raised, `HTTPException` included |
| Routes.Unguarded | src/yescity_recommendation_ai/api/routes.py:133-139 | as meant, an `HTTPException` keeps its status and any other exception is a 500 |
| Routes.GuardedAgrees | src/yescity_recommendation_ai/api/routes.py:133-150 | the two agree exactly when the block does not raise an `HTTPException` whose status is not 500 |
| Routes.NamesFromRecords | src/yescity_recommendation_ai/api/schemas.py:5-8 | the response items' `name: str` check passes exactly when every record's `name` is a text |
| Routes.CategorySearchTry | src/yescity_recommendation_ai/api/routes.py:105-139 | a failed result raises the `HTTPException` of the chosen status, or an `AttributeError` when the error is not a text; a successful one returns exactly when the item mapping succeeds, every item's `name` is a text and `full_data` is a list of dicts, and otherwise raises an exception that is not an `HTTPException` |
| Routes.RecommendTry | src/yescity_recommendation_ai/api/routes.py:48-79 | a successful result returns exactly when the mapping succeeds and `category`, `city`, `parameters`, the item names and `full_data` pass `RecommendationResponse`'s field types, and otherwise raises a non-HTTP exception; a failed one raises the 400 `HTTPException` exactly when its `error` is a text or absent, and otherwise `ErrorResponse`'s validation error |
| Routes.RecommendFailureOverridden | src/yescity_recommendation_ai/api/routes.py:72-94 | every failed `/recommend` result whose error is a text or absent raises the 400 `HTTPException`, which is meant to reach the client and is answered 500 |
| Routes.FailureStatusOverridden | src/yescity_recommendation_ai/api/routes.py:134-150 | the intended 400/501, the status the raised `HTTPException` carries, is answered 500 |

## Left out

- Output and logging: every `print`, `traceback.print_exc()` and the logger are left out. A failure annotation keeps the exception text, as an abstract message.
- The language model (`llm.invoke`), the crew (`crew_manager.process_query`) and the JSON decoder (`json.loads`) are parameters. A decoder result is `Parsed`, `Malformed` (`JSONDecodeError`), `Rejected` (a plain `ValueError`) or `Crashed` (any other exception).
- The clock: `processing_time` is a parameter, and the rounding to three places is not modelled.
- Floating point: a float is kept as its text. pydantic's float check of `confidence` is a parameter, `floatText`.
- QueryClassifier.FromModel, RecommendationService.ClassificationDict: pydantic's coercion of `confidence` to `float` is not modelled. An integer or boolean confidence stays as it was given, for example `Int(1)`, where `.dict()` gives `1.0`.
- MongoDB: `mongodb_client`, connections and server behaviour are replaced by in-memory collections. A collection's `refuse` function says which queries raise.
- MongoStore.Matches, ShoppingTools.ShoppingFilterMatches: a condition is tested against the whole field value. MongoDB also matches an array-valued field when any element matches, so a stored `category: ["Sweets", "Snacks"]` matches a `Sweets` condition there but not in this model. The match statements describe the in-memory store.
- Regular expressions in MongoDB conditions: `^text$` is whole-text equality, any other pattern is substring search, and `i` folds case. Metacharacters inside an interpolated name or category are taken literally, unlike MongoDB.
- The shopping parser's third approach (collecting hex ids and quoted strings) is left out: it only prints and never affects the result.
- Out of the `re` engine, only the five patterns the parser uses are modelled, each by a recogniser. Under `re.IGNORECASE`, a pattern letter matches its ASCII capital and the characters Python's `re` folds to it: `İ` and `ı` for `i`, `ſ` for `s`, and the Kelvin sign for `k`. The patterns hold no other letters with such foldings.
- PyStrings.Lower: maps A–Z, the Kelvin sign and U+0130 only. Other non-ASCII letters are left as they are, unlike Python.
- The FastAPI application, routers, request schemas and HTTP plumbing are left out.
  - Of routes.py only the `try` blocks of `/recommend` and `/category-search` are modelled: the item mapping, the status choice, the exception handler, and the checks of `RecommendationResponse` and `ErrorResponse` on the service's result. The `message`, `processing_time` and `timestamp` fields always pass and are not modelled. Nor are the request's own fields in `/category-search`, which the request schema has already checked.
  - pydantic 2 in lax mode is assumed: a `str` field takes a text only (bytes are not a modelled value), and a `_id` field is a private attribute, so it is not validated.
  - `/category-search` calls `get_recommendations_by_category`, which the service does not define: the service method is singular. The call therefore raises and is not modelled further.
- crew_manager.py is not part of this model. It calls `classify`, which the classifier does not define (that method is `classify_query`), reads `.city` instead of `cityName`, and tests for `"food"` where the classifier yields `foods`.
- The interactive loop of `main1.py:main` is left out; only its food-search arguments are modelled.
  - Its shopping branch tests `"shoppings"`, while the classifier's keyword table yields `shopping`. The strings are modelled as each file spells them.
  - `address` is read in `format_tool_results` and never used, so it is not modelled.
- ShoppingTools.SearchShopping: its `flagship` argument is an optional bool. pydantic's conversion of the value `ValidateFlagship` returns into that bool is not modelled.
- ShoppingTools.FormatAll: requires every result to be a dict. This is what `BaseTool.RunResult` guarantees; the source would raise on a non-dict.
- BaseTool.Walk: identity is a tag on each object. CPython's sharing of `None`, booleans and small integers has to be written into the document's tags.
- RecommendationService.Hydrate, RecommendationService.HydrateFullData, RecommendationService.SuccessfulEnvelope, RecommendationService.GetRecommendations: these build the envelope with the intended hydration `FullDataIntended`, as the first finding below explains. As written, `full_data` is `FullDataAsWritten`, which has no entry for a record found by `_id`; `GetFullData` models that loop. A `Database` gives a collection for every text. The `get_collection` call at recommendation_service.py:103 sits outside the per-record `try` and ends in pymongo's `self.db[name]` (mongodb_client.py:48), which raises `InvalidName` for a name that is empty, holds `$` or `..`, or starts or ends with `.`. So the claim that an exception escapes exactly when the category is not a text holds only for valid collection names.
- PyValues.ReprStr: among characters above U+00FF, only the listed separators, spaces, format characters, private-use and tag characters are escaped. Python also escapes unassigned code points and the other non-printable characters, and these are copied as they are.
- YAML loading, settings, the food and other search tools, and all commented-out code are not part of this model.

## Findings

| source | as written | input that shows it | evidently intended | confidence | as-written member | corrected member |
|---|---|---|---|---|---|---|
| src/yescity_recommendation_ai/services/recommendation_service.py:117-139 | the append of a found document sits under `if not doc:`, so a document found by `_id` is never appended | one record `{"_id": <hex of an existing document>}` gives `full_data == []` | one entry per record: the converted document whenever it is found | not executed | RecommendationService.FoundByIdIsDropped | RecommendationService.FullDataIntended |
| src/yescity_recommendation_ai/tools/base_tool.py:219-224 | the visited set holds the identities of every value, so a second reference to a shared object, even the `None` singleton, is emitted as `str(value)` | `{"lat": None, "lon": None}` gives `{"lat": None, "lon": "None"}` | each value converted on its own merits; only true cycles need guarding | not executed | BaseTool.SharedNoneBecomesString | BaseTool.SharedNoneIntended |
| src/yescity_recommendation_ai/api/routes.py:134-150 | the `HTTPException` carrying 501 or 400 is raised inside the `try` and caught by `except Exception`, which answers 500 | once line 106 calls the singular `get_recommendation_by_category` that the service defines, a failed category search whose error text holds `not implemented` gives 500; as written, line 106 already raises `AttributeError`, also 500. `/recommend` has the same pattern at lines 72-94 without that call, where every failed result with a text error gives 500 instead of 400 (`Routes.RecommendFailureOverridden`) | 501 for not implemented, 400 otherwise | not executed | Routes.FailureStatusOverridden | Routes.FailureStatus |
